/** Protocols do not perturb a seeded run, and faults at intensity zero are invisible. */
module ExecTheorems {
  import opened Wrappers
  import opened Topology
  import opened Plan
  import opened ExecModel
  import opened Interp
  import opened ExecCoherence
  import opened ExecSim

  // ----- Protocol non-interference

  ghost predicate EdgesMatch(a: Edge, b: Edge)
    decreases a
  {
    && SameSettings(false, a, b)
    && (a.Edge? && a.onFailure.Some? ==>
          var fs, gs := a.onFailure.value.fallback, b.onFailure.value.fallback;
          |fs| == |gs| && forall i | 0 <= i < |fs| :: EdgesMatch(fs[i], gs[i]))
  }

  /** The same plan tree but for the protocols of its edges and fallbacks. */
  ghost predicate PlansMatch(a: Node, b: Node)
    decreases a
  {
    && a.service == b.service && a.operation == b.operation
    && EdgesMatch(a.edge, b.edge)
    && |a.parallel| == |b.parallel| && (forall i | 0 <= i < |a.parallel| :: PlansMatch(a.parallel[i], b.parallel[i]))
    && |a.children| == |b.children| && (forall i | 0 <= i < |a.children| :: PlansMatch(a.children[i], b.children[i]))
  }

  ghost predicate SameButType(a: Folded, b: Folded) {
    a == b.(errorType := a.errorType)
  }

  lemma {:induction false} EdgeFaultsBlind(env: Env, specs: seq<FaultSpec>, a: Folded, b: Folded, st: State)
    requires SameButType(a, b)
    ensures var (x, s1) := FoldEdgeFaults(env, specs, a, st);
            var (y, s2) := FoldEdgeFaults(env, specs, b, st);
            SameButType(x, y) && s1 == s2
    decreases specs
  {
    if specs != [] {
      var (a1, st1) := EdgeFault(env, specs[0], a, st);
      var (b1, _) := EdgeFault(env, specs[0], b, st);
      EdgeFaultsBlind(env, specs[1..], a1, b1, st1);
    }
  }

  lemma {:induction false} OperationFaultsBlind(env: Env, n1: Node, n2: Node, specs: seq<FaultSpec>, a: Folded, b: Folded,
                                                st: State)
    requires SameButType(a, b)
    ensures var (x, s1) := FoldOperationFaults(env, n1, specs, a, st);
            var (y, s2) := FoldOperationFaults(env, n2, specs, b, st);
            SameButType(x, y) && s1 == s2
    decreases specs
  {
    if specs != [] {
      var (a1, st1) := OperationFault(env, n1, specs[0], a, st);
      var (b1, _) := OperationFault(env, n2, specs[0], b, st);
      OperationFaultsBlind(env, n1, n2, specs[1..], a1, b1, st1);
    }
  }

  /** Folding faults never looks at the protocol except to name the error. */
  lemma FaultsBlind(env: Env, n1: Node, n2: Node)
    requires n1.service == n2.service && n1.operation == n2.operation && SameSettings(false, n1.edge, n2.edge)
    ensures FaultsAgree(false, env, n1, env, n2)
  {
    hide FoldNodeFaults, FoldEdgeFaults, FoldOperationFaults;
    forall st
      ensures FoldedPairAgrees(false, FoldFaults(env, n1, st), FoldFaults(env, n2, st))
    {
      var (ff, st1) := FoldNodeFaults(env, SpecsOfNode(env, n1), NO_FAULT, st);
      var a, b := NativeErrorRate(env, n1, ff), NativeErrorRate(env, n2, ff);
      EdgeFaultsBlind(env, SpecsOfEdge(env, n1), a, b, st1);
      var (a1, st2) := FoldEdgeFaults(env, SpecsOfEdge(env, n1), a, st1);
      var b1 := FoldEdgeFaults(env, SpecsOfEdge(env, n1), b, st1).0;
      OperationFaultsBlind(env, n1, n2, SpecsOfOperation(env, n1), a1, b1, st2);
    }
  }

  lemma {:induction false} MatchingEdgesAgree(env: Env, a: Edge, b: Edge)
    requires EdgesMatch(a, b)
    ensures EdgesAgree(false, env, a, env, b)
    decreases a
  {
    hide FaultsAgree;
    if a.Edge? && a.onFailure.Some? {
      var fs, gs := a.onFailure.value.fallback, b.onFailure.value.fallback;
      forall i | 0 <= i < |fs|
        ensures EdgesAgree(false, env, fs[i], env, gs[i])
        ensures Dialable(env, fs[i]) && Dialable(env, gs[i]) ==>
                  FaultsAgree(false, env, FallbackNode(env, fs[i]), env, FallbackNode(env, gs[i]))
      {
        MatchingEdgesAgree(env, fs[i], gs[i]);
        if Dialable(env, fs[i]) && Dialable(env, gs[i]) {
          FaultsBlind(env, FallbackNode(env, fs[i]), FallbackNode(env, gs[i]));
        }
      }
    }
  }

  lemma {:induction false} MatchingPlansAgree(env: Env, a: Node, b: Node)
    requires PlansMatch(a, b)
    ensures Agree(false, env, a, env, b)
    decreases a
  {
    hide FaultsAgree, EdgesAgree;
    MatchingEdgesAgree(env, a.edge, b.edge);
    FaultsBlind(env, a, b);
    forall i | 0 <= i < |a.parallel|
      ensures Agree(false, env, a.parallel[i], env, b.parallel[i])
    {
      MatchingPlansAgree(env, a.parallel[i], b.parallel[i]);
    }
    forall i | 0 <= i < |a.children|
      ensures Agree(false, env, a.children[i], env, b.children[i])
    {
      MatchingPlansAgree(env, a.children[i], b.children[i]);
    }
  }

  /**
   Plans that differ in protocols only consume the same draws, take the same time,
   and emit the same operation spans up to status codes and error types.
   */
  lemma ProtocolNonInterference(env: Env, a: Node, b: Node, start: int, st: State)
    requires PlansMatch(a, b)
    ensures
      var r1, r2 := RunNode(env, a, None, start, st), RunNode(env, b, None, start, st);
      && r1.st == r2.st
      && r1.outcome.success == r2.outcome.success && r1.outcome.latency == r2.outcome.latency
      && OperationView(r1.spans) == OperationView(r2.spans)
  {
    MatchingPlansAgree(env, a, b);
    NodesRunAlike(false, env, a, env, b, None, None, start, st);
  }

  // ----- Disabled faults

  /** The intensity in force for spec is zero, and no clock is read to find that out. */
  predicate Silent(env: Env, spec: FaultSpec) {
    var target := FaultTargetString(env.schema, spec.target);
    if target != "" && target in env.targetIntensity then env.targetIntensity[target] == 0.0
    else spec.schedule == [] && env.globalIntensity == 0.0
  }

  predicate AllSilent(env: Env, specs: seq<FaultSpec>) {
    forall i | 0 <= i < |specs| :: Silent(env, specs[i])
  }

  ghost predicate Quiet(env: Env) {
    && (forall r :: AllSilent(env, env.overlay.NodeFaults(r)))
    && (forall r :: AllSilent(env, env.overlay.OperationFaults(r)))
    && (forall r :: AllSilent(env, env.overlay.EdgeFaults(r)))
  }

  function Unfaulted(env: Env): Env {
    env.(overlay := EMPTY_OVERLAY)
  }

  predicate Overridden(specs: seq<FaultSpec>) {
    exists i | 0 <= i < |specs| :: specs[i].kind.ErrorRateOverride?
  }

  /** An override, even at intensity zero, replaces the edge's own error rate. */
  predicate Clash(env: Env, n: Node) {
    n.edge.Edge? && n.edge.errorRate > 0.0 && Overridden(SpecsOfOperation(env, n))
  }

  lemma SilentDrawsNothing(env: Env, spec: FaultSpec, st: State)
    requires Silent(env, spec)
    ensures FaultIntensityFor(env, spec, st) == (0.0, st)
    ensures FaultActive(env, spec, 0.0, st) == (false, st)
  {
    assert spec.severity.probability * 0.0 == 0.0;
  }

  lemma {:induction false} NodeFaultsSilent(env: Env, specs: seq<FaultSpec>, ff: Folded, st: State)
    requires AllSilent(env, specs)
    ensures FoldNodeFaults(env, specs, ff, st) == (ff, st)
    decreases specs
  {
    if specs != [] {
      SilentDrawsNothing(env, specs[0], st);
      NodeFaultsSilent(env, specs[1..], ff, st);
    }
  }

  lemma {:induction false} EdgeFaultsSilent(env: Env, specs: seq<FaultSpec>, ff: Folded, st: State)
    requires AllSilent(env, specs)
    ensures FoldEdgeFaults(env, specs, ff, st) == (ff, st)
    decreases specs
  {
    if specs != [] {
      SilentDrawsNothing(env, specs[0], st);
      EdgeFaultsSilent(env, specs[1..], ff, st);
    }
  }

  /** Silent operation faults do one thing: an override resets the error rate to zero. */
  lemma {:induction false} OperationFaultsSilent(env: Env, n: Node, specs: seq<FaultSpec>, ff: Folded, st: State)
    requires AllSilent(env, specs)
    ensures FoldOperationFaults(env, n, specs, ff, st)
         == (if Overridden(specs) then ff.(errorRate := 0.0, errorType := DefaultFaultErrorType(env.schema, n)) else ff, st)
    decreases specs
  {
    if specs != [] {
      var spec := specs[0];
      SilentDrawsNothing(env, spec, st);
      assert spec.severity.value * 0.0 == 0.0;
      var next := OperationFault(env, n, spec, ff, st).0;
      OperationFaultsSilent(env, n, specs[1..], next, st);
      assert Overridden(specs[1..]) ==> Overridden(specs) by {
        if Overridden(specs[1..]) {
          var i :| 0 <= i < |specs[1..]| && specs[1..][i].kind.ErrorRateOverride?;
          assert specs[i + 1].kind.ErrorRateOverride?;
        }
      }
    }
  }

  lemma FoldSilent(env: Env, n: Node, st: State)
    requires Quiet(env)
    ensures
      var native := NativeErrorRate(env, n, NO_FAULT);
      && FoldFaults(Unfaulted(env), n, st) == (native, st)
      && FoldFaults(env, n, st)
         == (if Overridden(SpecsOfOperation(env, n)) then
               native.(errorRate := 0.0, errorType := DefaultFaultErrorType(env.schema, n))
             else native, st)
  {
    hide Silent;
    var native := NativeErrorRate(env, n, NO_FAULT);
    NodeFaultsSilent(env, SpecsOfNode(env, n), NO_FAULT, st);
    EdgeFaultsSilent(env, SpecsOfEdge(env, n), native, st);
    OperationFaultsSilent(env, n, SpecsOfOperation(env, n), native, st);
  }

  /** At one node, zero intensity equals no faults exactly when no override hits a native error rate. */
  lemma QuietFoldsAgreeIff(env: Env, n: Node)
    requires Quiet(env)
    ensures FaultsAgree(true, env, n, Unfaulted(env), n) <==> !Clash(env, n)
  {
    hide FoldFaults, Quiet;
    forall st
      ensures FoldedPairAgrees(true, FoldFaults(env, n, st), FoldFaults(Unfaulted(env), n, st)) <==> !Clash(env, n)
    {
      FoldSilent(env, n, st);
    }
    var any := State(0, 0, 0);
    assert FoldedPairAgrees(true, FoldFaults(env, n, any), FoldFaults(Unfaulted(env), n, any)) <==> !Clash(env, n);
  }

  predicate EdgeClear(env: Env, e: Edge)
    decreases e
  {
    e.Edge? && e.onFailure.Some? ==>
      forall i | 0 <= i < |e.onFailure.value.fallback| ::
        var fb := e.onFailure.value.fallback[i];
        EdgeClear(env, fb) && (Dialable(env, fb) ==> !Clash(env, FallbackNode(env, fb)))
  }

  /** No clash at any operation node of the plan, fallbacks included. */
  predicate PlanClear(env: Env, n: Node)
    decreases n
  {
    && !Clash(env, n) && EdgeClear(env, n.edge)
    && (forall i | 0 <= i < |n.parallel| :: PlanClear(env, n.parallel[i]))
    && (forall i | 0 <= i < |n.children| :: PlanClear(env, n.children[i]))
  }

  lemma {:induction false} ClearEdgesAgree(env: Env, e: Edge)
    requires Quiet(env) && EdgeClear(env, e)
    ensures EdgesAgree(true, env, e, Unfaulted(env), e)
    decreases e
  {
    hide FaultsAgree, Clash, Quiet;
    if e.Edge? && e.onFailure.Some? {
      var fs := e.onFailure.value.fallback;
      forall i | 0 <= i < |fs|
        ensures EdgesAgree(true, env, fs[i], Unfaulted(env), fs[i])
        ensures Dialable(env, fs[i]) ==>
                  FaultsAgree(true, env, FallbackNode(env, fs[i]), Unfaulted(env), FallbackNode(Unfaulted(env), fs[i]))
      {
        ClearEdgesAgree(env, fs[i]);
        if Dialable(env, fs[i]) { QuietFoldsAgreeIff(env, FallbackNode(env, fs[i])); }
      }
    }
  }

  lemma {:induction false} ClearPlansAgree(env: Env, n: Node)
    requires Quiet(env) && PlanClear(env, n)
    ensures Agree(true, env, n, Unfaulted(env), n)
    decreases n
  {
    hide FaultsAgree, Clash, Quiet, EdgesAgree, EdgeClear;
    ClearEdgesAgree(env, n.edge);
    QuietFoldsAgreeIff(env, n);
    forall i | 0 <= i < |n.parallel|
      ensures Agree(true, env, n.parallel[i], Unfaulted(env), n.parallel[i])
    {
      ClearPlansAgree(env, n.parallel[i]);
    }
    forall i | 0 <= i < |n.children|
      ensures Agree(true, env, n.children[i], Unfaulted(env), n.children[i])
    {
      ClearPlansAgree(env, n.children[i]);
    }
  }

  /** With every fault at intensity zero a journey runs exactly as without any fault. */
  lemma DisabledFaultsInvisible(env: Env, root: Node, start: int, st: State)
    requires Quiet(env) && PlanClear(env, root)
    ensures RunNode(env, root, None, start, st) == RunNode(Unfaulted(env), root, None, start, st)
  {
    hide Quiet, PlanClear;
    ClearPlansAgree(env, root);
    NodesRunAlike(true, env, root, Unfaulted(env), root, None, None, start, st);
  }

  /** The attempt opens without a forced failure under the overlay; without it, the draw may force one. */
  lemma ClashOpens(env: Env, n: Node, st: State)
    requires Quiet(env) && Clash(env, n) && n.edge.timeout == 0
    requires !env.canceled(st.polls)
    ensures
      var with := OpenAttempt(env, n, st).0;
      var without := OpenAttempt(Unfaulted(env), n, st).0;
      && with.Live? && !with.forced
      && without.Live? && (without.forced <==> env.float(ForcingDraw(env, n, st)) < ClampProbability(n.edge.errorRate))
  {
    hide FoldFaults, Quiet, SampleEdgeLatency;
    FoldSilent(env, n, st);
    var st2 := RandIntN(env, Replicas(env, n), st).1;
    LatenciesAlike(env, n.edge, Unfaulted(env), n.edge, st2);
    PollsKept(env, n.edge, st2);
  }

  /** The place in the stream of the draw that decides on a forced failure. */
  function ForcingDraw(env: Env, n: Node, st: State): nat {
    SampleEdgeLatency(env, n.edge, RandIntN(env, Replicas(env, n), st).1).1.cursor
  }

  /** A node that is tried once, without timeout or recovery. */
  predicate TriedOnce(n: Node) {
    n.parallel == [] && n.service.Some? && n.edge.Edge? && n.edge.timeout == 0 && n.edge.retries <= 0 && n.edge.onFailure.None?
  }

  lemma OnceRuns(env: Env, n: Node, start: int, st: State)
    requires TriedOnce(n) && OpenAttempt(env, n, st).0.Live?
    ensures RunNode(env, n, None, start, st).outcome.success <==> !OpenAttempt(env, n, st).0.forced
  {
    hide OpenAttempt, RunKids, RunSingle, RetryBackoffDelay;
    var begun := start + RetryBackoffDelay(n.edge, 0);
    LiveOutcome(env, n, begun, st);
    assert RunAttempts(env, n, start, 0, 0, st).outcome == RunSingle(env, n, begun, st).outcome;
    assert RunNode(env, n, None, start, st) == RunSequence(env, n, start, st);
  }

  lemma LiveOutcome(env: Env, n: Node, start: int, st: State)
    requires OpenAttempt(env, n, st).0.Live?
    ensures RunSingle(env, n, start, st).outcome.success <==> !OpenAttempt(env, n, st).0.forced
  {
    hide OpenAttempt, RunKids;
  }

  /**
   A clash shows in a whole run: with its fault at intensity zero the call succeeds, whatever it calls in turn,
   and without the fault it fails on every draw below its own error rate.
   */
  lemma ClashShows(env: Env, n: Node, start: int, st: State)
    requires Quiet(env) && Clash(env, n) && TriedOnce(n) && !env.canceled(st.polls)
    ensures RunNode(env, n, None, start, st).outcome.success
    ensures RunNode(Unfaulted(env), n, None, start, st).outcome.success
       <==> env.float(ForcingDraw(env, n, st)) >= ClampProbability(n.edge.errorRate)
  {
    hide Quiet, Clash, OpenAttempt, RunNode;
    ClashOpens(env, n, st);
    OnceRuns(env, n, start, st);
    OnceRuns(Unfaulted(env), n, start, st);
  }

  lemma PollsKept(env: Env, edge: Edge, st: State)
    ensures SampleEdgeLatency(env, edge, st).1.polls == st.polls
  {
  }
}
