/**
 Reloading does not change what a journey does: the plan built from the reloaded
 schema is the kept plan, and under the same seed it makes the same draws, emits the
 same spans and ends in the same outcome.
 */
module ReloadRuns {
  import opened Wrappers
  import opened Topology
  import opened RawDocument
  import opened Validate
  import opened Resolve
  import opened Marshal
  import opened RoundTrip
  import opened ResolvedShape
  import opened SchemaRoundTrip
  import opened NormalForm
  import opened Reload
  import opened ReloadValid
  import opened Plan
  import opened PlanProofs
  import opened ExecModel
  import opened Interp

  // ----- The kept plan, environment and run

  function KeptNode(n: Node): Node
    decreases n, 0
  {
    Node(n.service, n.operation, KeptEdge(n.edge), KeptNodes(n.parallel), KeptNodes(n.children), KeptTelemetry(n.telemetry))
  }

  function KeptNodes(ns: seq<Node>): (r: seq<Node>)
    ensures |r| == |ns|
    decreases ns
  {
    if ns == [] then [] else [KeptNode(ns[0])] + KeptNodes(ns[1..])
  }

  function KeptOverlay(o: Overlay): Overlay {
    Overlay(map r | r in o.nodes :: Map(KeptFault, o.nodes[r]),
            map r | r in o.operations :: Map(KeptFault, o.operations[r]),
            map r | r in o.edges :: Map(KeptFault, o.edges[r]))
  }

  /** The same seed, clock and intensities over the reloaded schema and its faults. */
  function Reloaded(env: Env): Env {
    env.(schema := Kept(env.schema), overlay := KeptOverlay(env.overlay))
  }

  /** Outcomes name the edges recovery tried; those are the kept ones. */
  function KeptOutcome(o: Outcome): Outcome {
    o.(fallbackAttempts := KeptEdges(o.fallbackAttempts), fallbackUsed := KeptEdge(o.fallbackUsed))
  }

  function KeptOutcomes(os: seq<Outcome>): seq<Outcome> {
    if os == [] then [] else [KeptOutcome(os[0])] + KeptOutcomes(os[1..])
  }

  function KeptParent(p: Option<Outcome>): Option<Outcome> {
    match p
    case None => None
    case Some(o) => Some(KeptOutcome(o))
  }

  function KeptRun(r: Run): Run {
    r.(outcome := KeptOutcome(r.outcome))
  }

  predicate NodeKeeps(n: Node)
    decreases n
  {
    && EdgeKeeps(n.edge)
    && (forall i | 0 <= i < |n.parallel| :: NodeKeeps(n.parallel[i]))
    && (forall i | 0 <= i < |n.children| :: NodeKeeps(n.children[i]))
  }

  predicate NodesKeep(ns: seq<Node>) {
    forall i | 0 <= i < |ns| :: NodeKeeps(ns[i])
  }

  // ----- Plans

  lemma {:induction false} KeptNodesAt(ns: seq<Node>, i: nat)
    requires i < |ns|
    ensures KeptNodes(ns)[i] == KeptNode(ns[i])
    decreases ns
  {
    if i > 0 { KeptNodesAt(ns[1..], i - 1); }
  }

  lemma {:induction false} KeptUnfolds(s: Schema, n: Node, op: OpRef, edge: Edge)
    requires Unfolds(s, n, op, edge)
    ensures Unfolds(Kept(s), KeptNode(n), op, KeptEdge(edge))
    decreases n, 0
  {
    hide Kept, KeptNodes, KeptEdge, KeptTelemetry, KeptCallNodes;
    KeptLooksUp(s);
    KeptUnfoldsCalls(s, n.children, s.Op(op).calls);
    assert KeptNodes([]) == [] by { NoNodes(); }
  }

  lemma NoNodes()
    ensures KeptNodes([]) == []
  {
  }

  lemma {:induction false} KeptUnfoldsCalls(s: Schema, ns: seq<Node>, calls: seq<CallNode>)
    requires UnfoldsCalls(s, ns, calls)
    ensures UnfoldsCalls(Kept(s), KeptNodes(ns), KeptCallNodes(calls))
    decreases ns
  {
    hide Kept, KeptNodes, KeptEdge, KeptTelemetry, KeptCallNodes, Unfolds;
    NoNodes();
    NothingKept();
    KeptEdgeNil();
    forall i | 0 <= i < |ns|
      ensures UnfoldsCall(Kept(s), KeptNodes(ns)[i], KeptCallNodes(calls)[i])
    {
      KeptNodesAt(ns, i);
      KeptCallNodesAt(calls, i);
      assert UnfoldsCall(s, ns[i], calls[i]);
      if |calls[i].parallel| > 0 {
        KeptUnfoldsCalls(s, ns[i].parallel, calls[i].parallel);
      } else {
        KeptUnfolds(s, ns[i], calls[i].edge.to.value, calls[i].edge);
        KeptEnds(calls[i].edge);
      }
    }
  }

  lemma KeptEnds(e: Edge)
    requires e.Edge?
    ensures KeptEdge(e).from == e.from && KeptEdge(e).to == e.to && KeptEdge(e).id == e.id && KeptEdge(e).protocol == e.protocol
    ensures KeptEdge(e).errorRate == e.errorRate
  {
  }

  lemma {:induction false} KeptUnfoldsSteps(s: Schema, ns: seq<Node>, steps: seq<Step>)
    requires UnfoldsSteps(s, ns, steps)
    ensures UnfoldsSteps(Kept(s), KeptNodes(ns), steps)
    decreases ns
  {
    hide Kept, KeptNodes, KeptEdge, KeptTelemetry, Unfolds;
    NoNodes();
    NothingKept();
    KeptEdgeNil();
    forall i | 0 <= i < |ns|
      ensures UnfoldsStep(Kept(s), KeptNodes(ns)[i], steps[i])
    {
      KeptNodesAt(ns, i);
      assert UnfoldsStep(s, ns[i], steps[i]);
      if |steps[i].parallel| > 0 {
        KeptUnfoldsSteps(s, ns[i].parallel, steps[i].parallel);
      } else {
        KeptUnfolds(s, ns[i], steps[i].op.value, NilEdge);
      }
    }
  }

  /** The reloaded schema builds the kept plan. */
  lemma KeptPlans(s: Schema, name: string, root: Node)
    requires name in s.journeys && BuildPlan(s, name) == Ok(root)
    ensures BuildPlan(Kept(s), name) == Ok(KeptNode(root))
  {
    hide Kept, UnfoldsSteps, KeptEdge, KeptTelemetry;
    KeptKeys(s);
    JourneyPlanned(s, name);
    PlanIffUnfolds(s, name, root);
    PlanIffUnfolds(Kept(s), name, KeptNode(root));
    var steps := s.journeys[name].value.steps;
    NoNodes();
    NothingKept();
    KeptEdgeNil();
    if |steps| == 1 {
      KeptUnfoldsSteps(s, [root], steps);
      assert KeptNodes([root]) == [KeptNode(root)];
    } else {
      KeptUnfoldsSteps(s, root.children, steps);
    }
  }

  lemma JourneyPlanned(s: Schema, name: string)
    requires BuildPlan(s, name).Ok? && name in s.journeys
    ensures s.journeys[name].Some? && s.journeys[name].value.steps != []
  {
  }

  // ----- Faults and draws

  lemma SameTargetString(s: Schema, t: FaultTarget)
    ensures FaultTargetString(Kept(s), KeptTarget(t)) == FaultTargetString(s, t)
  {
    hide Kept, KeptOperation, KeptService;
    KeptLooksUp(s);
    KeptEdgeNil();
    NameKept(s);
    if t.edge.Edge? { KeptEnds(t.edge); }
  }

  lemma NameKept(s: Schema)
    ensures forall r :: Kept(s).Op(r).name == s.Op(r).name && Kept(s).Op(r).service == s.Op(r).service
    ensures forall r :: Kept(s).Svc(r).name == s.Svc(r).name && Kept(s).Svc(r).kind == s.Svc(r).kind
                     && Kept(s).Svc(r).replicas == s.Svc(r).replicas && Kept(s).Svc(r).operations == s.Svc(r).operations
  {
    hide Kept;
    KeptLooksUp(s);
  }

  lemma SameIntensity(env: Env, spec: FaultSpec, st: State)
    ensures FaultIntensityFor(Reloaded(env), KeptFault(spec), st) == FaultIntensityFor(env, spec, st)
  {
    hide FaultTargetString, Kept, KeptOverlay, KeptTarget;
    SameTargetString(env.schema, spec.target);
  }

  lemma SameActive(env: Env, spec: FaultSpec, intensity: real, st: State)
    ensures FaultActive(Reloaded(env), KeptFault(spec), intensity, st) == FaultActive(env, spec, intensity, st)
    ensures SampleInflation(KeptFault(spec), intensity) == SampleInflation(spec, intensity)
    ensures OverrideRate(KeptFault(spec), intensity) == OverrideRate(spec, intensity)
  {
    hide Kept, KeptOverlay, KeptTarget, ScaledProbability;
  }

  lemma SameNodeFault(env: Env, spec: FaultSpec, ff: Folded, st: State)
    ensures NodeFault(Reloaded(env), KeptFault(spec), ff, st) == NodeFault(env, spec, ff, st)
  {
    hide FaultIntensityFor, FaultActive, SampleInflation, Reloaded, KeptTarget;
    SameIntensity(env, spec, st);
    SameActive(env, spec, FaultIntensityFor(env, spec, st).0, FaultIntensityFor(env, spec, st).1);
  }

  lemma SameEdgeFault(env: Env, spec: FaultSpec, ff: Folded, st: State)
    ensures EdgeFault(Reloaded(env), KeptFault(spec), ff, st) == EdgeFault(env, spec, ff, st)
  {
    hide FaultIntensityFor, FaultActive, SampleInflation, Reloaded, KeptTarget;
    SameIntensity(env, spec, st);
    SameActive(env, spec, FaultIntensityFor(env, spec, st).0, FaultIntensityFor(env, spec, st).1);
  }

  lemma SameOperationFault(env: Env, n: Node, spec: FaultSpec, ff: Folded, st: State)
    ensures OperationFault(Reloaded(env), KeptNode(n), KeptFault(spec), ff, st) == OperationFault(env, n, spec, ff, st)
  {
    hide FaultIntensityFor, FaultActive, SampleInflation, OverrideRate, KeptTarget, KeptNode, DefaultFaultErrorType, Kept, KeptOverlay;
    SameIntensity(env, spec, st);
    SameErrorType(env.schema, n);
    SameActive(env, spec, FaultIntensityFor(env, spec, st).0, FaultIntensityFor(env, spec, st).1);
  }

  lemma {:induction false} SameNodeFaults(env: Env, specs: seq<FaultSpec>, ff: Folded, st: State)
    ensures FoldNodeFaults(Reloaded(env), Map(KeptFault, specs), ff, st) == FoldNodeFaults(env, specs, ff, st)
    decreases specs
  {
    if specs != [] {
      hide NodeFault, Reloaded, KeptFault;
      SameNodeFault(env, specs[0], ff, st);
      var (ff1, st1) := NodeFault(env, specs[0], ff, st);
      SameNodeFaults(env, specs[1..], ff1, st1);
      assert Map(KeptFault, specs)[1..] == Map(KeptFault, specs[1..]);
    }
  }

  lemma {:induction false} SameEdgeFaults(env: Env, specs: seq<FaultSpec>, ff: Folded, st: State)
    ensures FoldEdgeFaults(Reloaded(env), Map(KeptFault, specs), ff, st) == FoldEdgeFaults(env, specs, ff, st)
    decreases specs
  {
    if specs != [] {
      hide EdgeFault, Reloaded, KeptFault;
      SameEdgeFault(env, specs[0], ff, st);
      var (ff1, st1) := EdgeFault(env, specs[0], ff, st);
      SameEdgeFaults(env, specs[1..], ff1, st1);
      assert Map(KeptFault, specs)[1..] == Map(KeptFault, specs[1..]);
    }
  }

  lemma SameErrorType(s: Schema, n: Node)
    ensures DefaultFaultErrorType(Kept(s), KeptNode(n)) == DefaultFaultErrorType(s, n)
  {
    hide Kept, KeptNodes, KeptTelemetry;
    NameKept(s);
    if n.edge.Edge? { KeptEnds(n.edge); }
  }

  lemma {:induction false} SameOperationFaults(env: Env, n: Node, specs: seq<FaultSpec>, ff: Folded, st: State)
    ensures FoldOperationFaults(Reloaded(env), KeptNode(n), Map(KeptFault, specs), ff, st) == FoldOperationFaults(env, n, specs, ff, st)
    decreases specs
  {
    if specs != [] {
      hide OperationFault, Reloaded, KeptFault, KeptNode;
      SameOperationFault(env, n, specs[0], ff, st);
      var (ff1, st1) := OperationFault(env, n, specs[0], ff, st);
      SameOperationFaults(env, n, specs[1..], ff1, st1);
      assert Map(KeptFault, specs)[1..] == Map(KeptFault, specs[1..]);
    }
  }

  lemma SameSpecs(env: Env, n: Node)
    ensures SpecsOfNode(Reloaded(env), KeptNode(n)) == Map(KeptFault, SpecsOfNode(env, n))
    ensures SpecsOfEdge(Reloaded(env), KeptNode(n)) == Map(KeptFault, SpecsOfEdge(env, n))
    ensures SpecsOfOperation(Reloaded(env), KeptNode(n)) == Map(KeptFault, SpecsOfOperation(env, n))
  {
    hide Kept, KeptNodes, KeptTelemetry, KeptFault;
    NameKept(env.schema);
    if n.edge.Edge? { KeptEnds(n.edge); }
  }

  lemma SameFolds(env: Env, n: Node, st: State)
    ensures FoldFaults(Reloaded(env), KeptNode(n), st) == FoldFaults(env, n, st)
  {
    hide FoldNodeFaults, FoldEdgeFaults, FoldOperationFaults, SpecsOfNode, SpecsOfEdge, SpecsOfOperation,
      NativeErrorRate, Reloaded, KeptNode;
    SameSpecs(env, n);
    var (ff1, st1) := FoldNodeFaults(env, SpecsOfNode(env, n), NO_FAULT, st);
    SameNodeFaults(env, SpecsOfNode(env, n), NO_FAULT, st);
    SameNativeRate(env, n, ff1);
    var (ff2, st2) := FoldEdgeFaults(env, SpecsOfEdge(env, n), NativeErrorRate(env, n, ff1), st1);
    SameEdgeFaults(env, SpecsOfEdge(env, n), NativeErrorRate(env, n, ff1), st1);
    SameOperationFaults(env, n, SpecsOfOperation(env, n), ff2, st2);
  }

  lemma SameNativeRate(env: Env, n: Node, ff: Folded)
    ensures NativeErrorRate(Reloaded(env), KeptNode(n), ff) == NativeErrorRate(env, n, ff)
  {
    hide DefaultFaultErrorType, Kept, KeptNodes, KeptTelemetry;
    SameErrorType(env.schema, n);
    if n.edge.Edge? { KeptEnds(n.edge); }
  }

  /** A kept edge times and retries as before. */
  lemma SameEdgeBehaviour(env: Env, e: Edge)
    requires EdgeKeeps(e)
    ensures forall st :: SampleEdgeLatency(Reloaded(env), KeptEdge(e), st) == SampleEdgeLatency(env, e, st)
    ensures forall k: nat :: RetryBackoffDelay(KeptEdge(e), k) == RetryBackoffDelay(e, k)
    ensures Attempts(KeptEdge(e)) == Attempts(e)
    ensures forall start :: ProducerSpans(Reloaded(env), KeptEdge(e), start) == ProducerSpans(env, e, start)
    ensures EdgeRefOf(KeptEdge(e)) == EdgeRefOf(e)
    ensures forall ff, effective, st :: Decide(Reloaded(env), KeptEdge(e), ff, effective, st) == Decide(env, e, ff, effective, st)
  {
    hide Kept;
    NameKept(env.schema);
  }

  lemma SameOpening(env: Env, n: Node, st: State)
    requires NodeKeeps(n)
    ensures OpenAttempt(Reloaded(env), KeptNode(n), st) == OpenAttempt(env, n, st)
  {
    hide FoldFaults, SampleEdgeLatency, Decide, Kept, KeptOverlay, KeptNodes, KeptEdge;
    SameFolds(env, n, st);
    SameEdgeBehaviour(env, n.edge);
    NameKept(env.schema);
  }

  // ----- Outcomes

  lemma SameAggregateOne(agg: Outcome, o: Outcome)
    ensures AggregateOne(KeptOutcome(agg), KeptOutcome(o)) == KeptOutcome(AggregateOne(agg, o))
  {
    hide KeptEdge, KeptEdges;
    var slower := if o.latency > agg.latency then agg.(latency := o.latency) else agg;
    assert KeptOutcome(slower) == if o.latency > agg.latency then KeptOutcome(agg).(latency := o.latency) else KeptOutcome(agg);
  }

  lemma {:induction false} SameAggregate(agg: Outcome, os: seq<Outcome>)
    ensures AggregateFrom(KeptOutcome(agg), KeptOutcomes(os)) == KeptOutcome(AggregateFrom(agg, os))
    decreases os
  {
    if os != [] {
      hide KeptOutcome, AggregateOne;
      SameAggregateOne(agg, os[0]);
      SameAggregate(AggregateOne(agg, os[0]), os[1..]);
      assert KeptOutcomes(os)[1..] == KeptOutcomes(os[1..]);
    }
  }

  /** Keeping an outcome touches only the edges it names. */
  lemma OutcomeFields(o: Outcome)
    ensures KeptOutcome(o).success == o.success && KeptOutcome(o).latency == o.latency && KeptOutcome(o).errorType == o.errorType
    ensures KeptOutcome(o).(primaryFailed := true) == KeptOutcome(o.(primaryFailed := true))
    ensures forall x :: KeptOutcome(o).(latency := x) == KeptOutcome(o.(latency := x))
  {
    hide KeptEdge, KeptEdges;
  }

  lemma RecoveryKept(out: Outcome, f: Outcome, fb: Edge, action: ExhaustedAction)
    ensures AfterUsed(KeptOutcome(out), KeptOutcome(f), KeptEdge(fb)) == KeptOutcome(AfterUsed(out, f, fb))
    ensures AfterFailed(KeptOutcome(out), KeptOutcome(f), KeptEdge(fb)) == KeptOutcome(AfterFailed(out, f, fb))
    ensures Exhaust(action, KeptOutcome(out)) == KeptOutcome(Exhaust(action, out))
  {
    hide KeptEdge, KeptEdges;
    TriedOneMore(out, fb);
  }

  lemma TimeoutKept(e: Edge, o: Outcome)
    ensures TimeoutFailure(KeptEdge(e), KeptOutcome(o)) == KeptOutcome(TimeoutFailure(e, o))
    ensures forall x :: CapLatencyToTimeout(KeptEdge(e), x) == CapLatencyToTimeout(e, x)
    ensures e.Edge? ==> KeptEdge(e).timeout == e.timeout
  {
    hide KeptEdges;
  }

  lemma PlainKept(success: bool, latency: int, statusCode: int, errorType: ErrorType)
    ensures KeptOutcome(Plain(success, latency, statusCode, errorType)) == Plain(success, latency, statusCode, errorType)
  {
  }

  lemma AttemptKept(o: Outcome)
    requires o.fallbackAttempts == [] && o.fallbackUsed == NilEdge
    ensures KeptOutcome(o) == o
  {
  }

  lemma TriedOneMore(o: Outcome, e: Edge)
    ensures KeptEdges(o.fallbackAttempts + [e]) == KeptEdges(o.fallbackAttempts) + [KeptEdge(e)]
  {
    KeptEdgesConcat(o.fallbackAttempts, [e]);
    assert KeptEdges([e]) == [KeptEdge(e)];
  }

  // ----- Runs

  lemma {:induction false} SameNode(env: Env, n: Node, p: Option<Outcome>, start: int, st: State)
    requires NodeKeeps(n)
    ensures RunNode(Reloaded(env), KeptNode(n), KeptParent(p), start, st) == KeptRun(RunNode(env, n, p, start, st))
    decreases NodeSize(n), 4
  {
    hide RunSequence, Reloaded, KeptNodes, KeptEdge, KeptEdges, KeptTelemetry, NodeKeeps;
    NodeParts(n);
    if |n.parallel| > 0 {
      SameBranches(env, n.parallel, p, start, st);
      SameAggregate(SUCCESS, RunBranches(env, n.parallel, p, start, st).outcomes);
      PlainKept(true, 0, 200, NoError);
    } else if n.service.None? {
      SameSteps(env, n.children, p, start, 0, SUCCESS, st);
      PlainKept(true, 0, 200, NoError);
    } else if p.Some? && !p.value.success {
      SameCascade(env, n, p.value, start, st);
    } else {
      SameSequence(env, n, start, st);
    }
  }

  lemma NodeParts(n: Node)
    requires NodeKeeps(n)
    ensures NodesKeep(n.parallel) && NodesKeep(n.children) && EdgeKeeps(n.edge)
  {
  }

  lemma SameCascade(env: Env, n: Node, p: Outcome, start: int, st: State)
    requires NodeKeeps(n)
    ensures RunCascade(Reloaded(env), KeptNode(n), KeptOutcome(p), start, st) == KeptRun(RunCascade(env, n, p, start, st))
  {
    hide Kept, KeptOverlay, KeptNodes, KeptTelemetry;
    NameKept(env.schema);
    PlainKept(false, 0, p.statusCode, p.errorType);
    SameEdgeBehaviour(env, n.edge);
  }

  lemma {:induction false} SameBranches(env: Env, ns: seq<Node>, p: Option<Outcome>, start: int, st: State)
    requires NodesKeep(ns)
    ensures RunBranches(Reloaded(env), KeptNodes(ns), KeptParent(p), start, st)
         == (var b := RunBranches(env, ns, p, start, st); b.(outcomes := KeptOutcomes(b.outcomes)))
    decreases NodesSize(ns), 0
  {
    if ns != [] {
      hide RunNode, Reloaded, KeptNode, KeptParent, KeptOutcome, NodeKeeps;
      assert KeptNodes(ns)[1..] == KeptNodes(ns[1..]);
      SameNode(env, ns[0], p, start, st);
      var r := RunNode(env, ns[0], p, start, st);
      SameBranches(env, ns[1..], p, start, r.st);
      var rest := RunBranches(env, ns[1..], p, start, r.st);
      assert ([r.outcome] + rest.outcomes)[1..] == rest.outcomes;
    }
  }

  lemma {:induction false} SameSteps(env: Env, ns: seq<Node>, p: Option<Outcome>, start: int, total: int, last: Outcome, st: State)
    requires NodesKeep(ns)
    ensures RunSteps(Reloaded(env), KeptNodes(ns), KeptParent(p), start, total, KeptOutcome(last), st)
         == KeptRun(RunSteps(env, ns, p, start, total, last, st))
    decreases NodesSize(ns), 0
  {
    hide Reloaded, KeptOutcome, RunNode, RunSteps, KeptNode, NodeKeeps;
    var env', kept, p' := Reloaded(env), KeptNodes(ns), KeptParent(p);
    if ns == [] {
      OutcomeFields(last);
      NoStepsLeft(env, ns, p, start, total, last, st);
      NoStepsLeft(env', kept, p', start, total, KeptOutcome(last), st);
    } else {
      assert kept[0] == KeptNode(ns[0]) && kept[1..] == KeptNodes(ns[1..]);
      SameNode(env, ns[0], p, start + total, st);
      var r := RunNode(env, ns[0], p, start + total, st);
      OutcomeFields(r.outcome);
      OneStep(env, ns, p, start, total, last, st);
      OneStep(env', kept, p', start, total, KeptOutcome(last), st);
      SameSteps(env, ns[1..], NextParent(p, r.outcome), start, total + r.outcome.latency, r.outcome, r.st);
    }
  }

  lemma {:induction false} SameKids(env: Env, ns: seq<Node>, p: Outcome, start: int, total: int, st: State)
    requires NodesKeep(ns)
    ensures RunKids(Reloaded(env), KeptNodes(ns), KeptOutcome(p), start, total, st) == RunKids(env, ns, p, start, total, st)
    decreases NodesSize(ns), 0
  {
    hide Reloaded, KeptOutcome, RunNode, RunKids, KeptNode, NodeKeeps;
    var env', kept, p' := Reloaded(env), KeptNodes(ns), KeptOutcome(p);
    OutcomeFields(p);
    if ns == [] {
      NoKidsLeft(env, ns, p, start, total, st);
      NoKidsLeft(env', kept, p', start, total, st);
    } else {
      assert kept[0] == KeptNode(ns[0]) && kept[1..] == KeptNodes(ns[1..]);
      SameNode(env, ns[0], Some(p), start + total, st);
      var r := RunNode(env, ns[0], Some(p), start + total, st);
      OutcomeFields(r.outcome);
      OneKid(env, ns, p, start, total, st);
      OneKid(env', kept, p', start, total, st);
      SameKids(env, ns[1..], p, start, total + r.outcome.latency, r.st);
    }
  }

  lemma {:induction false} SameSingle(env: Env, n: Node, start: int, st: State)
    requires NodeKeeps(n)
    ensures RunSingle(Reloaded(env), KeptNode(n), start, st) == RunSingle(env, n, start, st)
    decreases NodeSize(n), 1
  {
    hide OpenAttempt, RunKids, Reloaded, NodeKeeps, KeptNodes, KeptEdge, KeptTelemetry, KeptEdges, ProducerSpans;
    NodeParts(n);
    SameOpening(env, n, st);
    SameEdgeBehaviour(env, n.edge);
    PlainKept(true, 0, 200, NoError);
    var (opening, _, st1) := OpenAttempt(env, n, st);
    if opening.Live? { SameKids(env, n.children, SUCCESS, start, opening.latency, st1); }
  }

  lemma {:induction false} SameAttempts(env: Env, n: Node, start: int, k: nat, total: int, st: State)
    requires NodeKeeps(n) && k < Attempts(n.edge)
    ensures Attempts(KeptNode(n).edge) == Attempts(n.edge)
    ensures RunAttempts(Reloaded(env), KeptNode(n), start, k, total, st) == RunAttempts(env, n, start, k, total, st)
    decreases NodeSize(n), 2, Attempts(n.edge) - k
  {
    hide RunSingle, Reloaded, NodeKeeps, KeptNodes, KeptEdge, KeptTelemetry, Attempts, RetryBackoffDelay;
    NodeParts(n);
    SameEdgeBehaviour(env, n.edge);
    var begun := total + RetryBackoffDelay(n.edge, k);
    SameSingle(env, n, start + begun, st);
    var r := RunSingle(env, n, start + begun, st);
    if !(r.outcome.success || r.outcome.errorType.ContextCanceled? || k + 1 == Attempts(n.edge)) {
      SameAttempts(env, n, start, k + 1, begun + r.outcome.latency, r.st);
    }
  }

  /** Attempts report no recovery. */
  lemma {:induction false} AttemptsBare(env: Env, n: Node, start: int, k: nat, total: int, st: State)
    requires k < Attempts(n.edge)
    ensures var o := RunAttempts(env, n, start, k, total, st).outcome; o.fallbackAttempts == [] && o.fallbackUsed == NilEdge
    decreases Attempts(n.edge) - k
  {
    hide RunKids, FoldFaults, SampleEdgeLatency;
    var begun := total + RetryBackoffDelay(n.edge, k);
    var r := RunSingle(env, n, start + begun, st);
    if !(r.outcome.success || r.outcome.errorType.ContextCanceled? || k + 1 == Attempts(n.edge)) {
      AttemptsBare(env, n, start, k + 1, begun + r.outcome.latency, r.st);
    }
  }

  lemma SameClose(e: Edge, o: Outcome, total: int)
    ensures CloseFailure(KeptEdge(e), KeptOutcome(o), total) == KeptOutcome(CloseFailure(e, o, total))
  {
    hide KeptEdge, KeptOutcome, TimeoutFailure, CapLatencyToTimeout;
    OutcomeFields(o);
    TimeoutKept(e, o.(latency := CapLatencyToTimeout(e, total)));
  }

  lemma {:induction false} SameSequence(env: Env, n: Node, start: int, st: State)
    requires NodeKeeps(n)
    ensures RunSequence(Reloaded(env), KeptNode(n), start, st) == KeptRun(RunSequence(env, n, start, st))
    decreases NodeSize(n), 3
  {
    hide RunAttempts, RunFallbacks, RunKids, Reloaded, NodeKeeps, KeptNodes, KeptTelemetry, CloseFailure, KeptOutcome;
    NodeParts(n);
    SameAttempts(env, n, start, 0, 0, st);
    AttemptsBare(env, n, start, 0, 0, st);
    var t := RunAttempts(env, n, start, 0, 0, st);
    AttemptKept(t.outcome);
    if t.outcome.success {
      AttemptKept(t.outcome.(latency := t.total));
    } else {
      SameClose(n.edge, t.outcome, t.total);
      var failure := CloseFailure(n.edge, t.outcome, t.total);
      OutcomeFields(failure);
      var recovered := Run(failure, t.st, []);
      if n.edge.Edge? && n.edge.onFailure.Some? {
        var rp := n.edge.onFailure.value;
        SameFallbacks(env, rp.fallback, rp.onExhausted, failure.(primaryFailed := true), start, t.st);
        recovered := RunFallbacks(env, rp.fallback, rp.onExhausted, failure.(primaryFailed := true), start, t.st);
      }
      OutcomeFields(recovered.outcome);
      SameKids(env, n.children, recovered.outcome, start + recovered.outcome.latency, 0, recovered.st);
    }
  }

  lemma {:induction false} SameFallbacks(env: Env, fs: seq<Edge>, action: ExhaustedAction, out: Outcome, start: int, st: State)
    requires forall i | 0 <= i < |fs| :: EdgeKeeps(fs[i])
    ensures RunFallbacks(Reloaded(env), KeptEdges(fs), action, KeptOutcome(out), start, st)
         == KeptRun(RunFallbacks(env, fs, action, out, start, st))
    decreases EdgesSize(fs), 5
  {
    hide RunFallback, RunFallbacks, Reloaded, EdgeKeeps, KeptEdge, KeptEdges, KeptOutcome, AfterUsed, AfterFailed, Exhaust;
    var env' := Reloaded(env);
    if fs == [] {
      RecoveryKept(out, out, NilEdge, action);
      NoFallbacksLeft(env, fs, action, out, start, st);
      NoFallbacksLeft(env', KeptEdges(fs), action, KeptOutcome(out), start, st);
    } else {
      KeptEdgesFirst(fs);
      OutcomeFields(out);
      SameFallback(env, fs[0], start + out.latency, st);
      var f := RunFallback(env, fs[0], start + out.latency, st);
      OutcomeFields(f.outcome);
      RecoveryKept(out, f.outcome, fs[0], action);
      OneFallback(env, fs, action, out, start, st);
      OneFallback(env', KeptEdges(fs), action, KeptOutcome(out), start, st);
      if !f.outcome.success { SameFallbacks(env, fs[1..], action, AfterFailed(out, f.outcome, fs[0]), start, f.st); }
    }
  }

  lemma {:induction false} SameFallback(env: Env, fb: Edge, start: int, st: State)
    requires EdgeKeeps(fb)
    ensures RunFallback(Reloaded(env), KeptEdge(fb), start, st) == KeptRun(RunFallback(env, fb, start, st))
    decreases 2 + EdgeSize(fb), 0
  {
    hide RunNode, Kept, KeptOverlay, EdgeKeeps, KeptTelemetry, KeptEdges;
    NameKept(env.schema);
    PlainKept(false, 0, 503, ConnectionRefused);
    if fb.Edge? { KeptEnds(fb); }
    if Dialable(env, fb) {
      NoNodes();
      NothingKept();
      assert FallbackNode(Reloaded(env), KeptEdge(fb)) == KeptNode(FallbackNode(env, fb));
      SameNode(env, FallbackNode(env, fb), None, start, st);
    }
  }

  // ----- Plans of schemas that survive

  lemma {:induction false} UnfoldedKeeps(s: Schema, n: Node, op: OpRef, edge: Edge)
    requires Carried(s) && EdgeKeeps(edge) && Unfolds(s, n, op, edge)
    ensures NodeKeeps(n)
    decreases n, 0
  {
    hide EdgeKeeps;
    UnfoldedCallsKeep(s, n.children, s.Op(op).calls);
  }

  lemma {:induction false} UnfoldedCallsKeep(s: Schema, ns: seq<Node>, calls: seq<CallNode>)
    requires Carried(s) && CallsKeep(calls) && UnfoldsCalls(s, ns, calls)
    ensures NodesKeep(ns)
    decreases ns
  {
    hide Carried, Unfolds;
    forall i | 0 <= i < |ns|
      ensures NodeKeeps(ns[i])
    {
      assert UnfoldsCall(s, ns[i], calls[i]);
      if |calls[i].parallel| > 0 {
        UnfoldedCallsKeep(s, ns[i].parallel, calls[i].parallel);
      } else {
        UnfoldedKeeps(s, ns[i], calls[i].edge.to.value, calls[i].edge);
      }
    }
  }

  lemma {:induction false} UnfoldedStepsKeep(s: Schema, ns: seq<Node>, steps: seq<Step>)
    requires Carried(s) && UnfoldsSteps(s, ns, steps)
    ensures NodesKeep(ns)
    decreases ns
  {
    hide Carried, Unfolds;
    forall i | 0 <= i < |ns|
      ensures NodeKeeps(ns[i])
    {
      assert UnfoldsStep(s, ns[i], steps[i]);
      if |steps[i].parallel| > 0 {
        UnfoldedStepsKeep(s, ns[i].parallel, steps[i].parallel);
      } else {
        UnfoldedKeeps(s, ns[i], steps[i].op.value, NilEdge);
      }
    }
  }

  lemma PlanKeeps(s: Schema, name: string, root: Node)
    requires Carried(s) && name in s.journeys && BuildPlan(s, name) == Ok(root)
    ensures NodeKeeps(root)
  {
    hide Carried, UnfoldsSteps, BuildPlan;
    assert s.journeys[name].Some? && s.journeys[name].value.steps != [] by { JourneyPlanned(s, name); }
    PlanIffUnfolds(s, name, root);
    var steps := s.journeys[name].value.steps;
    if |steps| == 1 {
      UnfoldedStepsKeep(s, [root], steps);
      assert NodeKeeps([root][0]);
    } else {
      UnfoldedStepsKeep(s, root.children, steps);
    }
  }

  /**
   A parsed schema that survives reloading, and the schema its document resolves to, run
   every journey alike: same draws, same spans, same outcome but for the edges
   the outcome names, which are the reloaded ones.
   */
  lemma ReloadRunsAlike(raw: RawSchema, s: Schema, name: string, env: Env, start: int, st: State)
    requires ResolveSchema(raw) == Some(s) && Valid(s) && SurvivesReload(s)
    requires name in s.journeys && env.schema == s
    ensures ResolveSchema(MarshalSchema(s)) == Some(Reloaded(env).schema)
    ensures BuildPlan(s, name).Ok? && BuildPlan(Reloaded(env).schema, name).Ok?
    ensures
      var before := RunNode(env, BuildPlan(s, name).value, None, start, st);
      var after := RunNode(Reloaded(env), BuildPlan(Reloaded(env).schema, name).value, None, start, st);
      after.st == before.st && after.spans == before.spans && after.outcome == KeptOutcome(before.outcome)
  {
    hide ResolveSchema, MarshalSchema, Valid, SurvivesReload, BuildPlan, RunNode, Kept, KeptOverlay, KeptNode, KeptOutcome, Shaped, Carried;
    ResolvedIsShaped(raw);
    ReadsBack(s);
    CarriedIffSurvives(s);
    ValidatedSchemaPlans(s, name);
    var root := BuildPlan(s, name).value;
    KeptPlans(s, name, root);
    PlanKeeps(s, name, root);
    SameNode(env, root, None, start, st);
  }
}
