/** Printing is a normal form: what is read back prints as the same document. */
module NormalForm {
  import opened Wrappers
  import opened Strings
  import opened Topology
  import opened RawDocument
  import opened Tokens
  import opened Resolve
  import opened Marshal
  import opened RoundTrip
  import opened ResolvedShape
  import opened SchemaRoundTrip

  // ----- The kept schema's objects

  lemma KeptLooksUp(s: Schema)
    ensures forall r :: Kept(s).Op(r) == KeptOperation(s.Op(r))
    ensures forall r :: Kept(s).Svc(r) == KeptService(s.Svc(r))
  {
    hide KeptEdge, KeptMetric, KeptProfile, KeptObservable;
    forall r
      ensures Kept(s).Op(r) == KeptOperation(s.Op(r))
    {
      if r !in s.ops {
        assert s.Op(r).telemetry == KeptTelemetry(s.Op(r).telemetry) by { NothingKept(); }
      }
    }
    forall r
      ensures Kept(s).Svc(r) == KeptService(s.Svc(r))
    {
    }
  }

  lemma NothingKept()
    ensures KeptTelemetry(Telemetry([], [], [], None)) == Telemetry([], [], [], None)
  {
  }

  lemma KeptNames(s: Schema)
    ensures DirectoryOf(Kept(s)) == DirectoryOf(s)
    ensures forall op :: IdentifyOp(Kept(s), op) == IdentifyOp(s, op) && MarshalCallTarget(Kept(s), op) == MarshalCallTarget(s, op)
    ensures forall r :: Kept(s).Svc(r).name == s.Svc(r).name
    ensures Truthful(s, DirectoryOf(s)) ==> Truthful(Kept(s), DirectoryOf(s))
  {
    hide KeptCallNodes, KeptTelemetry, KeptObservable, Kept;
    KeptLooksUp(s);
    KeptKeys(s);
    assert DirectoryOf(Kept(s)) == DirectoryOf(s);
    forall op
      ensures IdentifyOp(Kept(s), op) == IdentifyOp(s, op) && MarshalCallTarget(Kept(s), op) == MarshalCallTarget(s, op)
    {
      if op.Some? { assert Kept(s).Op(op.value).name == s.Op(op.value).name; }
    }
  }

  lemma KeptKeys(s: Schema)
    ensures Kept(s).services == s.services && Kept(s).ns == s.ns && Kept(s).journeys == s.journeys
    ensures Kept(s).faults == Map(KeptFault, s.faults) && Kept(s).ops.Keys == s.ops.Keys
  {
  }

  // ----- Trees

  /** Two schemas whose objects carry the same names. */
  ghost predicate SameNames(s: Schema, t: Schema) {
    forall op {:trigger MarshalCallTarget(s, op)} :: MarshalCallTarget(s, op) == MarshalCallTarget(t, op)
  }

  lemma KeptLatencyPrints(l: LatencyDist)
    ensures MarshalLatency(KeptLatency(l)) == MarshalLatency(l)
  {
  }

  lemma {:induction false} KeptEdgePrints(s: Schema, t: Schema, e: Edge)
    requires SameNames(s, t)
    ensures MarshalEdge(t, KeptEdge(e)) == MarshalEdge(s, e)
    decreases e, 0
  {
    hide MarshalLatency, KeptLatency, MarshalCallTarget, PrintProtocol, PrintBackoff, PrintExhausted;
    if e.Edge? {
      KeptLatencyPrints(e.latency);
      assert MarshalCallTarget(s, e.to) == MarshalCallTarget(t, e.to);
      if e.onFailure.Some? { KeptEdgesPrint(s, t, e.onFailure.value.fallback); }
    }
  }

  lemma {:induction false} KeptEdgesPrint(s: Schema, t: Schema, es: seq<Edge>)
    requires SameNames(s, t)
    ensures MarshalFallbacks(t, KeptEdges(es)) == MarshalFallbacks(s, es)
    decreases es
  {
    if es != [] {
      hide SameNames, MarshalEdge, KeptEdge;
      var n := |es| - 1;
      KeptEdgesPrint(s, t, es[..n]);
      KeptEdgePrints(s, t, es[n]);
      assert KeptEdges(es)[..n] == KeptEdges(es[..n]);
    }
  }

  lemma {:induction false} KeptCallNodePrints(s: Schema, t: Schema, n: CallNode)
    requires SameNames(s, t)
    ensures MarshalCallNode(t, KeptCallNode(n)) == MarshalCallNode(s, n)
    decreases n, 0
  {
    hide SameNames, MarshalEdge, KeptEdge;
    if n.CallNode? {
      KeptEdgePrints(s, t, n.edge);
      KeptCallNodesPrint(s, t, n.parallel);
    }
  }

  lemma {:induction false} KeptCallNodesPrint(s: Schema, t: Schema, ns: seq<CallNode>)
    requires SameNames(s, t)
    ensures MarshalCallNodes(t, KeptCallNodes(ns)) == MarshalCallNodes(s, ns)
    decreases ns
  {
    if ns != [] {
      hide SameNames, MarshalCallNode, KeptCallNode;
      var n := |ns| - 1;
      KeptCallNodesPrint(s, t, ns[..n]);
      KeptCallNodePrints(s, t, ns[n]);
      assert KeptCallNodes(ns)[..n] == KeptCallNodes(ns[..n]);
    }
  }

  lemma {:induction false} StepPrints(s: Schema, t: Schema, st: Step)
    requires SameNames(s, t)
    ensures MarshalStep(t, st) == MarshalStep(s, st)
    decreases st, 0
  {
    hide MarshalCallTarget;
    if st.Step? {
      assert MarshalCallTarget(s, st.op) == MarshalCallTarget(t, st.op);
      StepsPrint(s, t, st.parallel);
    }
  }

  lemma {:induction false} StepsPrint(s: Schema, t: Schema, sts: seq<Step>)
    requires SameNames(s, t)
    ensures MarshalSteps(t, sts) == MarshalSteps(s, sts)
    decreases sts
  {
    if sts != [] {
      hide SameNames, MarshalStep;
      StepsPrint(s, t, sts[..|sts| - 1]);
      StepPrints(s, t, sts[|sts| - 1]);
    }
  }

  // ----- Records

  lemma MapMap<A, B, C>(f: A -> B, g: B -> C, h: A -> C, xs: seq<A>)
    requires forall i | 0 <= i < |xs| :: g(f(xs[i])) == h(xs[i])
    ensures Map(g, Map(f, xs)) == Map(h, xs)
  {
  }

  lemma KeptTelemetryPrints(t: Telemetry)
    ensures Map(MarshalMetric, KeptTelemetry(t).metrics) == Map(MarshalMetric, t.metrics)
    ensures Map(MarshalStateUpdate, KeptTelemetry(t).stateUpdates) == Map(MarshalStateUpdate, t.stateUpdates)
    ensures MarshalProfile(KeptTelemetry(t).profile) == MarshalProfile(t.profile)
    ensures KeptTelemetry(t).logEvents == t.logEvents
  {
    hide PrintMetricType, PrintCondition, PrintFaultKind;
    MapMap(KeptMetric, MarshalMetric, MarshalMetric, t.metrics);
    MapMap(KeptStateUpdate, MarshalStateUpdate, MarshalStateUpdate, t.stateUpdates);
  }

  lemma KeptOperationPrints(s: Schema, t: Schema, name: string, op: Option<OpRef>)
    requires SameNames(s, t) && (op.Some? ==> t.Op(op.value) == KeptOperation(s.Op(op.value)))
    ensures MarshalOperation(t, name, op) == MarshalOperation(s, name, op)
  {
    hide SameNames, MarshalCallNodes, KeptCallNodes, MarshalProfile, MarshalMetric, MarshalStateUpdate, KeptTelemetry;
    if op.Some? {
      KeptCallNodesPrint(s, t, s.Op(op.value).calls);
      KeptTelemetryPrints(s.Op(op.value).telemetry);
    }
  }

  lemma KeptMetricsPrint(ms: seq<ObservableMetricSpec>)
    ensures Map(MarshalObservable, Map(KeptObservable, ms)) == Map(MarshalObservable, ms)
  {
    hide PrintMetricType, PrintFaultKind;
    MapMap(KeptObservable, MarshalObservable, MarshalObservable, ms);
  }

  lemma KeptServicePrints(s: Schema, t: Schema, ref: Option<SvcRef>)
    requires SameNames(s, t) && s.ns == t.ns && (forall r :: t.Op(r) == KeptOperation(s.Op(r)))
    requires ref.Some? ==> t.Svc(ref.value) == KeptService(s.Svc(ref.value))
    ensures MarshalService(t, ref) == MarshalService(s, ref)
  {
    hide SameNames, MarshalObservable, KeptObservable, PrintServiceKind, Map, Present, Ascending, MarshalOperation, KeptOperation;
    if ref.Some? {
      var svc := s.Svc(ref.value);
      KeptMetricsPrint(svc.metrics);
      var names := Ascending(svc.operations.Keys);
      forall i | 0 <= i < |names|
        ensures MarshalOperation(t, names[i], svc.operations[names[i]]) == MarshalOperation(s, names[i], svc.operations[names[i]])
      {
        KeptOperationPrints(s, t, names[i], svc.operations[names[i]]);
      }
    }
  }

  lemma KeptTargetPrints(s: Schema, t: FaultTarget)
    requires Shaped(s) && ResolveFaultTarget(DirectoryOf(s), s.ops, MarshalFaultTarget(s, t)) == Ok(t)
    ensures MarshalFaultTarget(Kept(s), KeptTarget(t)) == MarshalFaultTarget(s, t)
  {
    hide ResolveFaultTarget, MarshalFaultTarget, Shaped, KeptTarget, KeptOperation, Truthful, DirectoryOf;
    HeapIsTruthful(s);
    KeptNames(s);
    var spec := MarshalFaultTarget(s, t);
    TargetOfKept(DirectoryOf(s), s.ops, Kept(s).ops, spec);
    TargetPrints(Kept(s), DirectoryOf(s), Kept(s).ops, spec);
  }

  /** The kept schema prints as the very document it was read from. */
  lemma KeptPrints(s: Schema)
    requires Shaped(s)
    ensures MarshalSchema(Kept(s)) == MarshalSchema(s)
  {
    hide ShapedOperation, ShapedSteps, ShapedHeap, ResolveFaultTarget, MarshalFaultTarget, KeptTarget, Kept,
      MarshalService, KeptOperation, KeptService,
      PrintFaultKind, MarshalSeverity, MarshalPoint, MarshalSteps, DirectoryOf, MarshalCallTarget, IdentifyOp;
    var t := Kept(s);
    KeptKeys(s);
    KeptNames(s);
    KeptLooksUp(s);
    forall id | id in s.services
      ensures MarshalService(t, s.services[id]) == MarshalService(s, s.services[id])
    {
      KeptServicePrints(s, t, s.services[id]);
    }
    forall name | name in s.journeys
      ensures MarshalJourney(t, s.journeys[name]) == MarshalJourney(s, s.journeys[name])
    {
      StepsPrint(s, t, s.journeys[name].value.steps);
    }
    forall i | 0 <= i < |s.faults|
      ensures MarshalFault(t, t.faults[i]) == MarshalFault(s, s.faults[i])
    {
      KeptTargetPrints(s, s.faults[i].target);
    }
    assert MarshalFaults(t, t.faults) == MarshalFaults(s, s.faults);
    assert MarshalSchema(t).services == MarshalSchema(s).services;
    assert MarshalSchema(t).journeys == MarshalSchema(s).journeys;
  }

  // ----- Main results

  /** For every schema resolving can return: its document resolves, and prints again as the same document. */
  lemma MarshalIsNormalForm(raw: RawSchema, s: Schema)
    requires ResolveSchema(raw) == Some(s)
    ensures ResolveSchema(MarshalSchema(s)).Some?
    ensures MarshalSchema(ResolveSchema(MarshalSchema(s)).value) == MarshalSchema(s)
  {
    hide *;
    ResolvedIsShaped(raw);
    ReadsBack(s);
    KeptPrints(s);
  }

  /** Reloading once is enough: from then on printing and resolving gives the identical schema. */
  lemma ReloadIsIdempotent(raw: RawSchema, s: Schema)
    requires ResolveSchema(raw) == Some(s)
    ensures ResolveSchema(MarshalSchema(Kept(s))) == Some(Kept(s))
  {
    hide *;
    ResolvedIsShaped(raw);
    ReadsBack(s);
    KeptPrints(s);
  }
}
