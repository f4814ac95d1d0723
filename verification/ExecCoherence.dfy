/** Every outcome the executor can produce is coherent, and recovery reports exactly what it tried. */
module ExecCoherence {
  import opened Wrappers
  import opened Topology
  import opened Plan
  import opened ExecModel
  import opened Interp

  ghost predicate Coherent(o: Outcome) {
    && (o.success <==> o.errorType.NoError?)
    && (o.success ==> o.statusCode == 200 && !o.cascaded)
    && (!o.success ==> o.errorType in ALLOWED_ERROR_TYPES)
    && (o.fallbackUsed.Edge? || o.defaultUsed || o.silentlySucceeded ==> o.success && o.primaryFailed)
    && !(o.fallbackUsed.Edge? && o.defaultUsed)
    && !(o.fallbackUsed.Edge? && o.silentlySucceeded)
    && !(o.defaultUsed && o.silentlySucceeded)
  }

  ghost predicate Untouched(o: Outcome) {
    !o.primaryFailed && o.fallbackAttempts == [] && o.fallbackUsed.NilEdge? && !o.defaultUsed && !o.silentlySucceeded
  }

  /** FallbackAttempts is the failed prefix of the policy's list: up to the one used, or all of it. */
  ghost predicate Trail(policy: RecoveryPolicy, o: Outcome) {
    var k := |o.fallbackAttempts|;
    && o.primaryFailed
    && (o.fallbackUsed.Edge? ==>
          k < |policy.fallback| && o.fallbackAttempts == policy.fallback[..k] && policy.fallback[k] == o.fallbackUsed)
    && (o.fallbackUsed.NilEdge? ==>
          && o.fallbackAttempts == policy.fallback
          && (o.defaultUsed <==> policy.onExhausted.ReturnDefault?)
          && (o.silentlySucceeded <==> policy.onExhausted.SucceedSilently?)
          && (o.success <==> o.defaultUsed || o.silentlySucceeded))
  }

  /** Recovery ran exactly when the edge has a policy and the attempts failed. */
  ghost predicate RecoveryReported(edge: Edge, attemptsFailed: bool, o: Outcome) {
    if edge.Edge? && edge.onFailure.Some? && attemptsFailed then Trail(edge.onFailure.value, o) else Untouched(o)
  }

  ghost predicate CoherentParent(parent: Option<Outcome>) {
    parent.Some? ==> Coherent(parent.value)
  }

  // ----- The error types faults can force

  ghost predicate FaultError(t: ErrorType) {
    t.NoError? || t == Http(500) || t.GrpcUnavailable? || t.DbConnectionLost?
  }

  lemma {:induction false} NodeFaultsKeepType(env: Env, specs: seq<FaultSpec>, ff: Folded, st: State)
    ensures FoldNodeFaults(env, specs, ff, st).0.errorType == ff.errorType
    ensures FoldNodeFaults(env, specs, ff, st).0.errorRate == ff.errorRate
    decreases specs
  {
    if specs != [] {
      var (ff1, st1) := NodeFault(env, specs[0], ff, st);
      NodeFaultsKeepType(env, specs[1..], ff1, st1);
    }
  }

  lemma {:induction false} EdgeFaultsKeepType(env: Env, specs: seq<FaultSpec>, ff: Folded, st: State)
    ensures FoldEdgeFaults(env, specs, ff, st).0.errorType == ff.errorType
    ensures FoldEdgeFaults(env, specs, ff, st).0.errorRate == ff.errorRate
    decreases specs
  {
    if specs != [] {
      var (ff1, st1) := EdgeFault(env, specs[0], ff, st);
      EdgeFaultsKeepType(env, specs[1..], ff1, st1);
    }
  }

  lemma {:induction false} OperationFaultsType(env: Env, node: Node, specs: seq<FaultSpec>, ff: Folded, st: State)
    requires FaultError(ff.errorType)
    ensures FaultError(FoldOperationFaults(env, node, specs, ff, st).0.errorType)
    decreases specs
  {
    if specs != [] {
      var (ff1, st1) := OperationFault(env, node, specs[0], ff, st);
      OperationFaultsType(env, node, specs[1..], ff1, st1);
    }
  }

  lemma FoldedErrorType(env: Env, node: Node, st: State)
    ensures FaultError(FoldFaults(env, node, st).0.errorType)
  {
    var (ff1, st1) := FoldNodeFaults(env, SpecsOfNode(env, node), NO_FAULT, st);
    NodeFaultsKeepType(env, SpecsOfNode(env, node), NO_FAULT, st);
    var native := NativeErrorRate(env, node, ff1);
    var (ff2, st2) := FoldEdgeFaults(env, SpecsOfEdge(env, node), native, st1);
    EdgeFaultsKeepType(env, SpecsOfEdge(env, node), native, st1);
    OperationFaultsType(env, node, SpecsOfOperation(env, node), ff2, st2);
  }

  // ----- Attempts

  lemma OpeningCoherent(env: Env, node: Node, st: State)
    ensures var opening := OpenAttempt(env, node, st).0;
      && (opening.Stopped? ==>
            Coherent(opening.outcome) && Untouched(opening.outcome)
            && !opening.outcome.cascaded && !opening.outcome.success)
      && (opening.Live? ==> FaultError(opening.errorType))
  {
    hide FoldFaults, FaultError;
    FoldedErrorType(env, node, st);
  }

  lemma SingleCoherent(env: Env, node: Node, start: int, st: State)
    ensures var o := RunSingle(env, node, start, st).outcome; Coherent(o) && Untouched(o) && !o.cascaded
  {
    hide OpenAttempt, RunKids;
    OpeningCoherent(env, node, st);
  }

  lemma {:induction false} AttemptsCoherent(env: Env, node: Node, start: int, k: nat, total: int, st: State)
    requires k < Attempts(node.edge)
    ensures var o := RunAttempts(env, node, start, k, total, st).outcome; Coherent(o) && Untouched(o) && !o.cascaded
    decreases Attempts(node.edge) - k
  {
    hide RunSingle;
    var begun := total + RetryBackoffDelay(node.edge, k);
    SingleCoherent(env, node, start + begun, st);
    var r := RunSingle(env, node, start + begun, st);
    if !(r.outcome.success || r.outcome.errorType.ContextCanceled? || k + 1 == Attempts(node.edge)) {
      AttemptsCoherent(env, node, start, k + 1, begun + r.outcome.latency, r.st);
    }
  }

  // ----- Recovery and whole nodes

  lemma {:induction false} NodeCoherent(env: Env, node: Node, parent: Option<Outcome>, start: int, st: State)
    requires CoherentParent(parent)
    ensures Coherent(RunNode(env, node, parent, start, st).outcome)
    decreases NodeSize(node), 4
  {
    if |node.parallel| > 0 {
      BranchesCoherent(env, node.parallel, parent, start, st);
      AggregateCoherent(SUCCESS, RunBranches(env, node.parallel, parent, start, st).outcomes);
    } else if node.service.None? {
      StepsCoherent(env, node.children, parent, start, 0, SUCCESS, st);
    } else if parent.None? || parent.value.success {
      SequenceCoherent(env, node, start, st);
    }
  }

  lemma {:induction false} BranchesCoherent(env: Env, ns: seq<Node>, parent: Option<Outcome>, start: int, st: State)
    requires CoherentParent(parent)
    ensures var b := RunBranches(env, ns, parent, start, st);
            |b.outcomes| == |ns| && forall i | 0 <= i < |ns| :: Coherent(b.outcomes[i])
    decreases NodesSize(ns), 5
  {
    if ns != [] {
      NodeCoherent(env, ns[0], parent, start, st);
      BranchesCoherent(env, ns[1..], parent, start, RunNode(env, ns[0], parent, start, st).st);
    }
  }

  /** The aggregate: the slowest branch's latency and the first failure, if any. */
  lemma {:induction false} AggregateCoherent(agg: Outcome, outcomes: seq<Outcome>)
    requires Coherent(agg) && Untouched(agg)
    requires forall i | 0 <= i < |outcomes| :: Coherent(outcomes[i])
    ensures var r := AggregateFrom(agg, outcomes);
      && Coherent(r) && Untouched(r)
      && (forall i | 0 <= i < |outcomes| :: outcomes[i].latency <= r.latency)
      && (r.latency == agg.latency || exists i :: 0 <= i < |outcomes| && outcomes[i].latency == r.latency)
      && agg.latency <= r.latency
      && (r.success <==> agg.success && forall i | 0 <= i < |outcomes| :: outcomes[i].success)
    decreases outcomes
  {
    if outcomes != [] {
      AggregateCoherent(AggregateOne(agg, outcomes[0]), outcomes[1..]);
      assert outcomes == [outcomes[0]] + outcomes[1..];
    }
  }

  lemma {:induction false} StepsCoherent(env: Env, ns: seq<Node>, parent: Option<Outcome>, start: int, total: int,
                                         last: Outcome, st: State)
    requires CoherentParent(parent) && Coherent(last)
    ensures Coherent(RunSteps(env, ns, parent, start, total, last, st).outcome)
    decreases NodesSize(ns), 5
  {
    if ns != [] {
      NodeCoherent(env, ns[0], parent, start + total, st);
      var r := RunNode(env, ns[0], parent, start + total, st);
      var parent' := if r.outcome.success then parent else Some(r.outcome);
      StepsCoherent(env, ns[1..], parent', start, total + r.outcome.latency, r.outcome, r.st);
    }
  }

  lemma {:induction false} SequenceCoherent(env: Env, node: Node, start: int, st: State)
    ensures var o := RunSequence(env, node, start, st).outcome;
      && Coherent(o)
      && RecoveryReported(node.edge, !RunAttempts(env, node, start, 0, 0, st).outcome.success, o)
    decreases NodeSize(node), 3
  {
    hide RunSingle, RunAttempts;
    AttemptsCoherent(env, node, start, 0, 0, st);
    var t := RunAttempts(env, node, start, 0, 0, st);
    if !t.outcome.success && node.edge.Edge? && node.edge.onFailure.Some? {
      var policy := node.edge.onFailure.value;
      var failure := CloseFailure(node.edge, t.outcome, t.total);
      FallbacksCoherent(env, policy, 0, failure.(primaryFailed := true), start, t.st);
      assert policy.fallback[0..] == policy.fallback;
    }
  }

  lemma {:induction false} FallbacksCoherent(env: Env, policy: RecoveryPolicy, k: nat, out: Outcome, start: int, st: State)
    requires k <= |policy.fallback|
    requires Coherent(out) && !out.success && !out.cascaded && out.primaryFailed
    requires out.fallbackAttempts == policy.fallback[..k]
    ensures var o := RunFallbacks(env, policy.fallback[k..], policy.onExhausted, out, start, st).outcome;
            Coherent(o) && Trail(policy, o)
    decreases EdgesSize(policy.fallback[k..]), 6
  {
    var rest := policy.fallback[k..];
    if rest != [] {
      assert rest[1..] == policy.fallback[k + 1..];
      var fb := RunFallback(env, rest[0], start + out.latency, st);
      if Dialable(env, rest[0]) {
        NodeCoherent(env, FallbackNode(env, rest[0]), None, start + out.latency, st);
      }
      if !fb.outcome.success {
        assert policy.fallback[..k] + [rest[0]] == policy.fallback[..k + 1];
        FallbacksCoherent(env, policy, k + 1, AfterFailed(out, fb.outcome, rest[0]), start, fb.st);
      }
    }
  }

  /** Execute's call: every journey run ends in a coherent outcome. */
  lemma JourneyCoherent(env: Env, root: Node, start: int, st: State)
    ensures Coherent(RunNode(env, root, None, start, st).outcome)
  {
    NodeCoherent(env, root, None, start, st);
  }
}
