/**
 What a run of each kind of node is, told by the runs inside it: a list of runs in
 order, each from the state and at the moment its predecessors leave, with what
 decides where the list ends and what is reported.
 */
module ExecMeaning {
  import opened Wrappers
  import opened Topology
  import opened Plan
  import opened ExecModel
  import opened Interp
  import opened ExecCoherence

  // ----- Runs in a row

  function Latencies(runs: seq<Run>): int {
    if runs == [] then 0 else Latencies(runs[..|runs| - 1]) + runs[|runs| - 1].outcome.latency
  }

  function AllSpans(runs: seq<Run>): seq<Span> {
    if runs == [] then [] else AllSpans(runs[..|runs| - 1]) + runs[|runs| - 1].spans
  }

  /** The state in which run i begins, and with i == |runs| the one the last leaves. */
  function Reached(st: State, runs: seq<Run>, i: nat): State
    requires i <= |runs|
  {
    if i == 0 then st else runs[i - 1].st
  }

  lemma {:induction false} RunsCons(r: Run, rest: seq<Run>)
    ensures Latencies([r] + rest) == r.outcome.latency + Latencies(rest)
    ensures AllSpans([r] + rest) == r.spans + AllSpans(rest)
    decreases rest
  {
    if rest == [] {
      assert [r] + rest == [r] && [r][..0] == [];
    } else {
      var n := |rest| - 1;
      RunsCons(r, rest[..n]);
      assert ([r] + rest)[..n + 1] == [r] + rest[..n];
    }
  }

  lemma ConsAt(st: State, r: Run, rest: seq<Run>, i: nat)
    requires i <= |rest|
    ensures Reached(st, [r] + rest, i + 1) == Reached(r.st, rest, i)
    ensures Latencies(([r] + rest)[..i + 1]) == r.outcome.latency + Latencies(rest[..i])
    ensures i < |rest| ==> ([r] + rest)[i + 1] == rest[i]
  {
    assert ([r] + rest)[..i + 1] == [r] + rest[..i];
    RunsCons(r, rest[..i]);
  }

  // ----- Attempts

  /** One first try and as many retries as the edge asks for. */
  function TriesAllowed(edge: Edge): nat {
    if edge.Edge? && edge.retries > 0 then 1 + edge.retries else 1
  }

  predicate Final(o: Outcome) {
    o.success || o.errorType == ContextCanceled
  }

  /** The retry loop is these attempts: none after the first that is final, and no fewer than allowed unless one is. */
  ghost predicate Tried(env: Env, node: Node, allowed: int, st: State, t: Tries, runs: seq<Run>) {
    && 0 < |runs| == |t.attempts| <= allowed
    && (forall i | 0 <= i < |runs| ::
          && runs[i] == RunSingle(env, node, t.attempts[i].start, Reached(st, runs, i))
          && t.attempts[i].latency == runs[i].outcome.latency)
    && (forall i | 0 <= i < |runs| - 1 :: !Final(runs[i].outcome))
    && (!Final(t.outcome) ==> |runs| == allowed)
    && t.outcome == runs[|runs| - 1].outcome && t.st == runs[|runs| - 1].st && t.spans == AllSpans(runs)
  }

  /** One turn of the retry loop. */
  lemma OneTry(env: Env, node: Node, start: int, k: nat, total: int, st: State)
    requires k < Attempts(node.edge)
    ensures var begun := total + RetryBackoffDelay(node.edge, k);
            var r, t := RunSingle(env, node, start + begun, st), RunAttempts(env, node, start, k, total, st);
            var tried := Attempt(start + begun, r.outcome.latency);
            if Final(r.outcome) || k + 1 == Attempts(node.edge) then
              t == Tries.Tries(r.outcome, begun + r.outcome.latency, r.st, r.spans, [tried])
            else
              var more := RunAttempts(env, node, start, k + 1, begun + r.outcome.latency, r.st);
              t == more.(spans := r.spans + more.spans, attempts := [tried] + more.attempts)
  {
    hide RunSingle, RetryBackoffDelay;
  }

  lemma AttemptsAllowed(edge: Edge)
    ensures Attempts(edge) == TriesAllowed(edge)
  {
  }

  lemma {:induction false} AttemptsTried(env: Env, node: Node, start: int, k: nat, total: int, st: State) returns (runs: seq<Run>)
    requires k < Attempts(node.edge)
    ensures Tried(env, node, TriesAllowed(node.edge) - k, st, RunAttempts(env, node, start, k, total, st), runs)
    decreases Attempts(node.edge) - k
  {
    hide RunSingle, RetryBackoffDelay, RunAttempts, Attempts, TriesAllowed, Tried, Final;
    AttemptsAllowed(node.edge);
    OneTry(env, node, start, k, total, st);
    var begun := total + RetryBackoffDelay(node.edge, k);
    var r := RunSingle(env, node, start + begun, st);
    if Final(r.outcome) || k + 1 == Attempts(node.edge) {
      runs := [r];
      TriedOne(env, node, TriesAllowed(node.edge) - k, st, RunAttempts(env, node, start, k, total, st), r);
    } else {
      var now := begun + r.outcome.latency;
      var rest := AttemptsTried(env, node, start, k + 1, now, r.st);
      TriedCons(env, node, TriesAllowed(node.edge) - k, st, RunAttempts(env, node, start, k, total, st),
                RunAttempts(env, node, start, k + 1, now, r.st), r, rest);
      runs := [r] + rest;
    }
  }

  lemma TriedOne(env: Env, node: Node, allowed: int, st: State, t: Tries, r: Run)
    requires |t.attempts| == 1 <= allowed && (Final(r.outcome) || allowed == 1)
    requires r == RunSingle(env, node, t.attempts[0].start, st) && t.attempts[0].latency == r.outcome.latency
    requires t.outcome == r.outcome && t.st == r.st && t.spans == r.spans
    ensures Tried(env, node, allowed, st, t, [r])
  {
    hide RunSingle;
    RunsCons(r, []);
    assert [r] + [] == [r];
  }

  lemma TriedCons(env: Env, node: Node, allowed: int, st: State, t: Tries, more: Tries, r: Run, rest: seq<Run>)
    requires Tried(env, node, allowed - 1, r.st, more, rest) && !Final(r.outcome)
    requires |t.attempts| == 1 + |more.attempts| && t.attempts[1..] == more.attempts
    requires r == RunSingle(env, node, t.attempts[0].start, st) && t.attempts[0].latency == r.outcome.latency
    requires t.outcome == more.outcome && t.st == more.st && t.spans == r.spans + more.spans
    ensures Tried(env, node, allowed, st, t, [r] + rest)
  {
    hide RunSingle, Final;
    RunsCons(r, rest);
    var runs := [r] + rest;
    forall i | 0 <= i < |runs|
      ensures runs[i] == RunSingle(env, node, t.attempts[i].start, Reached(st, runs, i)) && t.attempts[i].latency == runs[i].outcome.latency
      ensures i < |runs| - 1 ==> !Final(runs[i].outcome)
    {
      if i > 0 {
        ConsAt(st, r, rest, i - 1);
        assert t.attempts[i] == more.attempts[i - 1];
      }
    }
    assert runs[|runs| - 1] == rest[|rest| - 1];
  }

  /**
   The attempts are one and as many retries as the edge asks for, unless one succeeds or is canceled:
   then that one is the last.  Every attempt starts in the state its predecessor leaves.
   */
  lemma AttemptsMade(env: Env, node: Node, start: int, st: State) returns (runs: seq<Run>)
    ensures
      var t := RunAttempts(env, node, start, 0, 0, st);
      var allowed := if node.edge.Edge? && node.edge.retries > 0 then 1 + node.edge.retries else 1;
      && Tried(env, node, allowed, st, t, runs)
      && (!t.outcome.success && !t.outcome.errorType.ContextCanceled? ==> |t.attempts| == allowed)
  {
    hide RunAttempts;
    runs := AttemptsTried(env, node, start, 0, 0, st);
  }

  // ----- Children, steps, branches, fallbacks

  ghost predicate InARow(runs: seq<Run>, st: State, last: State, spans: seq<Span>) {
    last == Reached(st, runs, |runs|) && spans == AllSpans(runs)
  }

  lemma RowCons(r: Run, rest: seq<Run>, st: State, last: State, spans: seq<Span>)
    requires InARow(rest, r.st, last, spans)
    ensures InARow([r] + rest, st, last, r.spans + spans)
  {
    RunsCons(r, rest);
    ConsAt(st, r, rest, |rest|);
  }

  lemma RowOne(r: Run, st: State)
    ensures InARow([r], st, r.st, r.spans) && Latencies([r]) == r.outcome.latency
  {
    RunsCons(r, []);
    assert [r] + [] == [r];
  }

  ghost predicate KidAt(env: Env, ns: seq<Node>, parent: Outcome, start: int, st: State, runs: seq<Run>, i: nat)
    requires i < |runs| <= |ns|
  {
    runs[i] == RunNode(env, ns[i], Some(parent), start + Latencies(runs[..i]), Reached(st, runs, i))
  }

  ghost predicate KidsInTurn(env: Env, ns: seq<Node>, parent: Outcome, start: int, st: State, runs: seq<Run>) {
    |runs| <= |ns| && forall i | 0 <= i < |runs| :: KidAt(env, ns, parent, start, st, runs, i)
  }

  lemma KidsCons(env: Env, ns: seq<Node>, parent: Outcome, start: int, st: State, r: Run, rest: seq<Run>)
    requires ns != [] && r == RunNode(env, ns[0], Some(parent), start, st)
    requires KidsInTurn(env, ns[1..], parent, start + r.outcome.latency, r.st, rest)
    ensures KidsInTurn(env, ns, parent, start, st, [r] + rest)
  {
    hide RunNode;
    var runs := [r] + rest;
    assert runs[..0] == [];
    forall i | 0 <= i < |runs|
      ensures KidAt(env, ns, parent, start, st, runs, i)
    {
      if i > 0 {
        ConsAt(st, r, rest, i - 1);
        assert KidAt(env, ns[1..], parent, start + r.outcome.latency, r.st, rest, i - 1);
      }
    }
  }

  /** Children run one after another; under a live parent the first failure is the last to run, under a failed one none is. */
  lemma {:induction false} KidsRun(env: Env, ns: seq<Node>, parent: Outcome, start: int, total: int, st: State) returns (runs: seq<Run>)
    ensures var k := RunKids(env, ns, parent, start, total, st);
      && KidsInTurn(env, ns, parent, start + total, st, runs)
      && InARow(runs, st, k.st, k.spans) && k.total == total + Latencies(runs)
      && (parent.success ==> forall i | 0 <= i < |runs| - 1 :: runs[i].outcome.success)
      && (|runs| < |ns| ==> parent.success && runs != [] && !runs[|runs| - 1].outcome.success)
    decreases ns
  {
    hide RunNode;
    if ns == [] {
      runs := [];
    } else {
      OneKid(env, ns, parent, start, total, st);
      var r := RunNode(env, ns[0], Some(parent), start + total, st);
      if !r.outcome.success && parent.success {
        runs := [r] + [];
        RowOne(r, st);
        KidsCons(env, ns, parent, start + total, st, r, []);
      } else {
        var tail := RunKids(env, ns[1..], parent, start, total + r.outcome.latency, r.st);
        var rest := KidsRun(env, ns[1..], parent, start, total + r.outcome.latency, r.st);
        runs := [r] + rest;
        assert start + (total + r.outcome.latency) == (start + total) + r.outcome.latency;
        KidsCons(env, ns, parent, start + total, st, r, rest);
        RowCons(r, rest, st, tail.st, tail.spans);
        RunsCons(r, rest);
      }
    }
  }

  /** The parent under which the next step runs: the latest failure, or what was given. */
  function LatestFailure(parent: Option<Outcome>, runs: seq<Run>): Option<Outcome> {
    if runs == [] then parent
    else if !runs[|runs| - 1].outcome.success then Some(runs[|runs| - 1].outcome)
    else LatestFailure(parent, runs[..|runs| - 1])
  }

  lemma {:induction false} FailureCons(parent: Option<Outcome>, r: Run, rest: seq<Run>)
    ensures LatestFailure(parent, [r] + rest) == LatestFailure(if r.outcome.success then parent else Some(r.outcome), rest)
    decreases rest
  {
    if rest == [] {
      assert [r] + rest == [r] && [r][..0] == [];
    } else {
      FailureCons(parent, r, rest[..|rest| - 1]);
      assert ([r] + rest)[..|rest|] == [r] + rest[..|rest| - 1];
    }
  }

  ghost predicate StepAt(env: Env, ns: seq<Node>, parent: Option<Outcome>, start: int, st: State, runs: seq<Run>, i: nat)
    requires i < |runs| == |ns|
  {
    runs[i] == RunNode(env, ns[i], LatestFailure(parent, runs[..i]), start + Latencies(runs[..i]), Reached(st, runs, i))
  }

  ghost predicate StepsInTurn(env: Env, ns: seq<Node>, parent: Option<Outcome>, start: int, st: State, runs: seq<Run>) {
    |runs| == |ns| && forall i | 0 <= i < |runs| :: StepAt(env, ns, parent, start, st, runs, i)
  }

  lemma StepsCons(env: Env, ns: seq<Node>, parent: Option<Outcome>, start: int, st: State, r: Run, rest: seq<Run>)
    requires ns != [] && r == RunNode(env, ns[0], parent, start, st)
    requires StepsInTurn(env, ns[1..], NextParent(parent, r.outcome), start + r.outcome.latency, r.st, rest)
    ensures StepsInTurn(env, ns, parent, start, st, [r] + rest)
  {
    hide RunNode;
    var runs := [r] + rest;
    assert runs[..0] == [];
    forall i | 0 <= i < |runs|
      ensures StepAt(env, ns, parent, start, st, runs, i)
    {
      if i > 0 {
        ConsAt(st, r, rest, i - 1);
        FailureCons(parent, r, rest[..i - 1]);
        assert runs[..i] == [r] + rest[..i - 1];
        assert StepAt(env, ns[1..], NextParent(parent, r.outcome), start + r.outcome.latency, r.st, rest, i - 1);
      }
    }
  }

  /** All steps run one after another; the last one's outcome is reported, with the time all of them took. */
  lemma {:induction false} StepsRun(env: Env, ns: seq<Node>, parent: Option<Outcome>, start: int, total: int, last: Outcome, st: State)
    returns (runs: seq<Run>)
    ensures var r := RunSteps(env, ns, parent, start, total, last, st);
      && StepsInTurn(env, ns, parent, start + total, st, runs)
      && InARow(runs, st, r.st, r.spans)
      && r.outcome == (if ns == [] then last else runs[|runs| - 1].outcome).(latency := total + Latencies(runs))
    decreases ns
  {
    hide RunNode;
    if ns == [] {
      runs := [];
    } else {
      OneStep(env, ns, parent, start, total, last, st);
      var r := RunNode(env, ns[0], parent, start + total, st);
      var parent' := NextParent(parent, r.outcome);
      var rest := StepsRun(env, ns[1..], parent', start, total + r.outcome.latency, r.outcome, r.st);
      var tail := RunSteps(env, ns[1..], parent', start, total + r.outcome.latency, r.outcome, r.st);
      runs := [r] + rest;
      assert start + (total + r.outcome.latency) == (start + total) + r.outcome.latency;
      StepsCons(env, ns, parent, start + total, st, r, rest);
      RowCons(r, rest, st, tail.st, tail.spans);
      RunsCons(r, rest);
    }
  }

  ghost predicate BranchAt(env: Env, ns: seq<Node>, parent: Option<Outcome>, start: int, st: State, runs: seq<Run>, i: nat)
    requires i < |runs| == |ns|
  {
    runs[i] == RunNode(env, ns[i], parent, start, Reached(st, runs, i))
  }

  /** Every branch starts when the group does, under the group's parent. */
  lemma {:induction false} BranchesRun(env: Env, ns: seq<Node>, parent: Option<Outcome>, start: int, st: State) returns (runs: seq<Run>)
    ensures var b := RunBranches(env, ns, parent, start, st);
      && |runs| == |ns| == |b.outcomes| && (forall i | 0 <= i < |runs| :: BranchAt(env, ns, parent, start, st, runs, i))
      && InARow(runs, st, b.st, b.spans) && forall i | 0 <= i < |runs| :: b.outcomes[i] == runs[i].outcome
    decreases ns
  {
    hide RunNode;
    if ns == [] {
      runs := [];
    } else {
      var r := RunNode(env, ns[0], parent, start, st);
      var rest := BranchesRun(env, ns[1..], parent, start, r.st);
      var b := RunBranches(env, ns[1..], parent, start, r.st);
      runs := [r] + rest;
      RowCons(r, rest, st, b.st, b.spans);
      forall i | 0 <= i < |runs|
        ensures BranchAt(env, ns, parent, start, st, runs, i)
      {
        if i > 0 {
          ConsAt(st, r, rest, i - 1);
          assert BranchAt(env, ns[1..], parent, start, r.st, rest, i - 1);
        }
      }
    }
  }

  // ----- The aggregate

  ghost predicate FirstFailure(outcomes: seq<Outcome>, i: nat) {
    i < |outcomes| && !outcomes[i].success && forall j | 0 <= j < i :: outcomes[j].success
  }

  ghost predicate Latest(outcomes: seq<Outcome>, latency: int) {
    && latency >= 0 && (forall o | o in outcomes :: o.latency <= latency)
    && (latency == 0 || exists o :: o in outcomes && o.latency == latency)
  }

  /** A group reports its slowest branch's latency and its first failure's status, error and cascade mark. */
  lemma GroupReports(outcomes: seq<Outcome>)
    ensures var agg := AggregateFrom(SUCCESS, outcomes);
      && Latest(outcomes, agg.latency) && Untouched(agg)
      && ((forall o | o in outcomes :: o.success) ==>
            agg.success && agg.statusCode == 200 && agg.errorType == NoError && !agg.cascaded)
      && forall i: nat | FirstFailure(outcomes, i) ::
           !agg.success && agg.statusCode == outcomes[i].statusCode && agg.errorType == outcomes[i].errorType
           && agg.cascaded == outcomes[i].cascaded
  {
    GroupLatest(SUCCESS, outcomes);
    GroupFirst(SUCCESS, outcomes);
  }

  ghost predicate FailsLike(a: Outcome, o: Outcome) {
    !a.success && a.statusCode == o.statusCode && a.errorType == o.errorType && a.cascaded == o.cascaded
  }

  lemma {:induction false} GroupLatest(agg: Outcome, outcomes: seq<Outcome>)
    ensures var r := AggregateFrom(agg, outcomes);
      && r.latency >= agg.latency && (forall o | o in outcomes :: o.latency <= r.latency)
      && (r.latency == agg.latency || exists o :: o in outcomes && o.latency == r.latency)
      && (Untouched(agg) ==> Untouched(r))
    decreases outcomes
  {
    if outcomes != [] {
      GroupLatest(AggregateOne(agg, outcomes[0]), outcomes[1..]);
      assert forall o :: o in outcomes <==> o == outcomes[0] || o in outcomes[1..];
    }
  }

  lemma {:induction false} GroupFirst(agg: Outcome, outcomes: seq<Outcome>)
    ensures var r := AggregateFrom(agg, outcomes);
      && (!agg.success ==> FailsLike(r, agg))
      && (agg.success && (forall o | o in outcomes :: o.success) ==>
            r.success && r.statusCode == agg.statusCode && r.errorType == agg.errorType && r.cascaded == agg.cascaded)
      && forall i: nat | agg.success && FirstFailure(outcomes, i) :: FailsLike(r, outcomes[i])
    decreases outcomes
  {
    if outcomes != [] {
      var rest := outcomes[1..];
      GroupFirst(AggregateOne(agg, outcomes[0]), rest);
      forall i: nat | agg.success && FirstFailure(outcomes, i)
        ensures FailsLike(AggregateFrom(agg, outcomes), outcomes[i])
      {
        if i > 0 {
          assert outcomes[0].success;
          assert forall j | 0 <= j < i - 1 :: rest[j] == outcomes[j + 1];
          assert FirstFailure(rest, i - 1);
        }
      }
    }
  }

  // ----- Recovery

  /** A fallback with a callable target runs as a node of its own without children; any other is refused at once. */
  ghost predicate FallbackIs(env: Env, fb: Edge, start: int, st: State, r: Run) {
    if fb.Edge? && fb.to.Some? && env.schema.Op(fb.to.value).service.Some? then
      var callee := env.schema.Op(fb.to.value);
      r == RunNode(env, Node(callee.service, callee.name, fb, [], [], Telemetry([], [], [], None)), None, start, st)
    else r == Run(Outcome(false, 0, 503, ConnectionRefused, false, false, [], NilEdge, false, false), st, [])
  }

  ghost predicate FallbackAt(env: Env, fs: seq<Edge>, start: int, st: State, runs: seq<Run>, i: nat)
    requires i < |runs| <= |fs|
  {
    FallbackIs(env, fs[i], start + Latencies(runs[..i]), Reached(st, runs, i), runs[i])
  }

  ghost predicate FallbacksInTurn(env: Env, fs: seq<Edge>, start: int, st: State, runs: seq<Run>) {
    |runs| <= |fs| && forall i | 0 <= i < |runs| :: FallbackAt(env, fs, start, st, runs, i)
  }

  lemma FallbacksCons(env: Env, fs: seq<Edge>, start: int, st: State, r: Run, rest: seq<Run>)
    requires fs != [] && FallbackIs(env, fs[0], start, st, r)
    requires FallbacksInTurn(env, fs[1..], start + r.outcome.latency, r.st, rest)
    ensures FallbacksInTurn(env, fs, start, st, [r] + rest)
  {
    hide FallbackIs;
    var runs := [r] + rest;
    assert runs[..0] == [];
    forall i | 0 <= i < |runs|
      ensures FallbackAt(env, fs, start, st, runs, i)
    {
      if i > 0 {
        ConsAt(st, r, rest, i - 1);
        assert FallbackAt(env, fs[1..], start + r.outcome.latency, r.st, rest, i - 1);
      }
    }
  }

  /** What recovery reports: rescued by the last fallback tried, or settled by the exhaustion policy. */
  ghost predicate Recovered(fs: seq<Edge>, action: ExhaustedAction, failed: Outcome, runs: seq<Run>, o: Outcome)
    requires |runs| <= |fs|
  {
    && o.latency == failed.latency + Latencies(runs)
    && o.primaryFailed == failed.primaryFailed && o.cascaded == failed.cascaded
    && (forall i | 0 <= i < |runs| - 1 :: !runs[i].outcome.success)
    && if runs != [] && runs[|runs| - 1].outcome.success then
         && o.success && o.statusCode == runs[|runs| - 1].outcome.statusCode && o.errorType == NoError
         && o.fallbackUsed == fs[|runs| - 1] && o.fallbackAttempts == failed.fallbackAttempts + fs[..|runs| - 1]
         && o.defaultUsed == failed.defaultUsed && o.silentlySucceeded == failed.silentlySucceeded
       else
         && |runs| == |fs| && o.fallbackUsed == failed.fallbackUsed && o.fallbackAttempts == failed.fallbackAttempts + fs
         && o.success == (action in {ReturnDefault, SucceedSilently})
         && o.defaultUsed == (failed.defaultUsed || action == ReturnDefault)
         && o.silentlySucceeded == (failed.silentlySucceeded || action == SucceedSilently)
         && (if o.success then o.statusCode == 200 && o.errorType == NoError
             else o.statusCode == failed.statusCode && o.errorType == failed.errorType)
  }

  /** Fallbacks run one after another, after the failed call and each other, until one succeeds. */
  lemma {:induction false} FallbacksRun(env: Env, fs: seq<Edge>, action: ExhaustedAction, out: Outcome, start: int, st: State)
    returns (runs: seq<Run>)
    ensures var r := RunFallbacks(env, fs, action, out, start, st);
      && FallbacksInTurn(env, fs, start + out.latency, st, runs)
      && InARow(runs, st, r.st, r.spans)
      && Recovered(fs, action, out, runs, r.outcome)
    decreases fs
  {
    hide RunFallback, RunFallbacks, FallbackIs, Exhaust, Recovered;
    if fs == [] {
      runs := [];
      NoFallbacksLeft(env, fs, action, out, start, st);
      ExhaustMeans(action, out);
    } else {
      OneFallback(env, fs, action, out, start, st);
      var f := RunFallback(env, fs[0], start + out.latency, st);
      FallbackMeans(env, fs[0], start + out.latency, st);
      if f.outcome.success {
        runs := [f] + [];
        RowOne(f, st);
        FallbacksCons(env, fs, start + out.latency, st, f, []);
        RescuedMeans(fs, action, out, f);
      } else {
        var out' := AfterFailed(out, f.outcome, fs[0]);
        var tail := RunFallbacks(env, fs[1..], action, out', start, f.st);
        var rest := FallbacksRun(env, fs[1..], action, out', start, f.st);
        runs := [f] + rest;
        assert start + out'.latency == (start + out.latency) + f.outcome.latency;
        FallbacksCons(env, fs, start + out.latency, st, f, rest);
        RowCons(f, rest, st, tail.st, tail.spans);
        RecoveredCons(fs, action, out, f, rest, tail.outcome);
      }
    }
  }

  lemma FallbackMeans(env: Env, fb: Edge, start: int, st: State)
    ensures FallbackIs(env, fb, start, st, RunFallback(env, fb, start, st))
  {
    hide RunNode;
  }

  lemma ExhaustMeans(action: ExhaustedAction, out: Outcome)
    ensures Recovered([], action, out, [], Exhaust(action, out))
  {
  }

  lemma RescuedMeans(fs: seq<Edge>, action: ExhaustedAction, out: Outcome, f: Run)
    requires fs != [] && f.outcome.success
    ensures Recovered(fs, action, out, [f] + [], AfterUsed(out, f.outcome, fs[0]))
  {
    RunsCons(f, []);
    assert fs[..0] == [] && out.fallbackAttempts + [] == out.fallbackAttempts;
  }

  lemma RecoveredCons(fs: seq<Edge>, action: ExhaustedAction, out: Outcome, f: Run, rest: seq<Run>, o: Outcome)
    requires fs != [] && |rest| < |fs| && !f.outcome.success
    requires Recovered(fs[1..], action, AfterFailed(out, f.outcome, fs[0]), rest, o)
    ensures Recovered(fs, action, out, [f] + rest, o)
  {
    RunsCons(f, rest);
    hide Latencies;
    var runs, tried := [f] + rest, out.fallbackAttempts;
    assert forall i | 0 <= i < |runs| :: runs[i] == if i == 0 then f else rest[i - 1];
    assert (tried + [fs[0]]) + fs[1..] == tried + fs;
    if rest != [] {
      assert fs[..|runs| - 1] == [fs[0]] + fs[1..][..|rest| - 1];
      assert (tried + [fs[0]]) + fs[1..][..|rest| - 1] == tried + fs[..|runs| - 1];
    }
  }

  // ----- One attempt

  /** The service latency sampled from the stream at cursor, and where it leaves the cursor. */
  ghost predicate BaseIs(env: Env, edge: Edge, cursor: nat, base: int, next: nat) {
    if edge.NilEdge? then base == 10_000_000 && next == cursor
    else
      var p50, p95 := edge.latency.p50, edge.latency.p95;
      if edge.latency.distribution == "lognormal" && p50 <= 0 then base == 0 && next == cursor
      else if edge.latency.distribution in {"lognormal", "uniform"} && p50 < p95 then
        if edge.latency.distribution == "lognormal" then
          base == env.lognormal(p50, p95, env.float(cursor), env.float(cursor + 1)) && next == cursor + 2
        else base == p50 + (env.float(cursor) * (p95 - p50) as real).Floor && next == cursor + 1
      else base == p50 && next == cursor
  }

  lemma BaseMeans(env: Env, edge: Edge, st: State)
    ensures var (base, next) := SampleEdgeLatency(env, edge, st);
            BaseIs(env, edge, st.cursor, base, next.cursor) && next == st.(cursor := next.cursor)
  {
  }

  function ReplicasOf(env: Env, node: Node): int {
    if node.service.Some? then env.schema.Svc(node.service.value).replicas else 0
  }

  /** One of several replicas is drawn; a single one is not. */
  ghost predicate InstanceIs(env: Env, node: Node, cursor: nat, instance: int, next: nat) {
    if ReplicasOf(env, node) > 1 then instance == env.intn(cursor, ReplicasOf(env, node)) && next == cursor + 1
    else instance == 0 && next == cursor
  }

  function Failure(latency: int, status: int, errorType: ErrorType): Outcome {
    Outcome(false, latency, status, errorType, false, false, [], NilEdge, false, false)
  }

  /** What stops an attempt before its children: a crash, a cancellation, its timeout, a disconnect, in this order. */
  ghost predicate StoppedAs(env: Env, edge: Edge, ff: Folded, effective: int, poll: nat, o: Outcome) {
    if ff.crashed then o == Failure(0, 500, Crashed)
    else if env.canceled(poll) then o == Failure(0, 0, ContextCanceled)
    else if edge.Edge? && 0 < edge.timeout < effective then
      o == (if edge.protocol == GRPC then Failure(edge.timeout, 4, GrpcDeadlineExceeded) else Failure(edge.timeout, 504, Timeout))
    else ff.disconnected && o == Failure(effective, 503, ConnectionRefused)
  }

  predicate Stops(env: Env, edge: Edge, ff: Folded, effective: int, poll: nat) {
    ff.crashed || env.canceled(poll) || (edge.Edge? && 0 < edge.timeout < effective) || ff.disconnected
  }

  /** The status a forced error is reported with. */
  function StatusOf(t: ErrorType): int {
    match t
    case Http(code) => code
    case GrpcUnavailable => 14
    case GrpcDeadlineExceeded => 4
    case GrpcUnauthenticated => 16
    case ContextCanceled => 0
    case NoError | Timeout | ConnectionRefused | DnsFailure | DbConnectionLost | DbConstraintViolation | Crashed | CircuitOpen | RateLimited => 500
  }

  /** Its children done, an attempt succeeds unless an error is forced, whatever became of the children. */
  ghost predicate LiveAs(ff: Folded, forced: bool, latency: int, o: Outcome) {
    if forced then o == Failure(latency, StatusOf(ff.errorType), if ff.errorType == NoError then Http(500) else ff.errorType)
    else o == Outcome(true, latency, 200, NoError, false, false, [], NilEdge, false, false)
  }

  /** The sender's span of a messaging call: a quarter of the median latency, or 10ms. */
  ghost predicate SentAs(env: Env, edge: Edge, start: int, sent: seq<Span>) {
    if edge.Edge? && edge.protocol == Messaging && edge.from.Some? && env.schema.Op(edge.from.value).service.Some? then
      var sender := env.schema.Op(edge.from.value);
      var published := if edge.latency.p50 > 0 then edge.latency.p50 / 4 else 10_000_000;
      sent == [Span(SpanInfo(ProducerSpan, sender.service, sender.name, Some(edge.id), 0),
                    start, start + published, Ending(true, 200, NoError, false), [])]
    else sent == []
  }

  /** The callee's span: from the start of the attempt as long as its outcome says, ending as the outcome does. */
  function OwnSpan(node: Node, instance: int, start: int, o: Outcome, kids: seq<Span>): Span {
    Span(SpanInfo(OperationSpan, node.service, node.operation, if node.edge.Edge? then Some(node.edge.id) else None, instance),
         start, start + o.latency, Ending(o.success, o.statusCode, o.errorType, o.cascaded), kids)
  }

  /** The whole of an attempt, from the folded fault on. */
  ghost predicate AttemptIs(env: Env, node: Node, start: int, st: State, r: Run, instance: int, base: int, sent: seq<Span>) {
    var (ff, s1) := FoldFaults(env, node, st);
    var c1 := s1.cursor + (if ReplicasOf(env, node) > 1 then 1 else 0);
    && InstanceIs(env, node, s1.cursor, instance, c1)
    && SentAs(env, node.edge, start, sent)
    && exists c2 :: BaseIs(env, node.edge, c1, base, c2) && AfterDraws(env, node, start, ff, s1.(cursor := c2), r, instance, base + ff.inflate, sent)
  }

  ghost predicate AfterDraws(env: Env, node: Node, start: int, ff: Folded, s2: State, r: Run, instance: int, effective: int, sent: seq<Span>) {
    var polled := if ff.crashed then s2 else s2.(polls := s2.polls + 1);
    if Stops(env, node.edge, ff, effective, s2.polls) then
      && StoppedAs(env, node.edge, ff, effective, s2.polls, r.outcome)
      && r.st == polled && r.spans == sent + [OwnSpan(node, instance, start, r.outcome, [])]
    else
      var forced := ff.errorRate > 0.0 && env.float(polled.cursor) < ff.errorRate;
      var drawn := if ff.errorRate > 0.0 then polled.(cursor := polled.cursor + 1) else polled;
      var kids := RunKids(env, node.children, Outcome(true, 0, 200, NoError, false, false, [], NilEdge, false, false), start, effective, drawn);
      && LiveAs(ff, forced, kids.total, r.outcome)
      && r.st == kids.st && r.spans == sent + [OwnSpan(node, instance, start, r.outcome, kids.spans)]
  }

  lemma AttemptMeans(env: Env, node: Node, start: int, st: State) returns (instance: int, base: int, sent: seq<Span>)
    ensures AttemptIs(env, node, start, st, RunSingle(env, node, start, st), instance, base, sent)
  {
    hide FoldFaults, SampleEdgeLatency, BaseIs, RunKids, ProducerSpans, Decide, AttemptOutcome, AfterDraws;
    var (ff, s1) := FoldFaults(env, node, st);
    var drawn := RandIntN(env, Replicas(env, node), s1);
    var sampled := SampleEdgeLatency(env, node.edge, drawn.1);
    instance, base, sent := drawn.0, sampled.0, ProducerSpans(env, node.edge, start);
    BaseMeans(env, node.edge, drawn.1);
    SentMeans(env, node.edge, start);
    DrawsMean(env, node, start, ff, sampled.1, RunSingle(env, node, start, st), instance, base + ff.inflate, sent);
  }

  lemma SentMeans(env: Env, edge: Edge, start: int)
    ensures SentAs(env, edge, start, ProducerSpans(env, edge, start))
  {
  }

  lemma DrawsMean(env: Env, node: Node, start: int, ff: Folded, s2: State, r: Run, instance: int, effective: int, sent: seq<Span>)
    requires var (opening, next) := Decide(env, node.edge, ff, effective, s2);
             match opening
             case Stopped(o) => r == Finished(node, instance, sent, start, o, next, [])
             case Live(forced, errorType, latency) =>
               var kids := RunKids(env, node.children, SUCCESS, start, latency, next);
               r == Finished(node, instance, sent, start, AttemptOutcome(forced, errorType, kids.total), kids.st, kids.spans)
    ensures AfterDraws(env, node, start, ff, s2, r, instance, effective, sent)
  {
    hide RunKids, PickStatusCode, StatusOf;
    StatusMeans(ff.errorType);
  }

  lemma StatusMeans(t: ErrorType)
    ensures PickStatusCode(true, t) == StatusOf(t) && PickStatusCode(false, t) == 200
  {
  }

  // ----- A call with its retries, and a node

  /** The failures that reach the children of the call that failed. */
  const REACHING: set<ErrorType> := {Crashed, ConnectionRefused, ContextCanceled, Timeout, GrpcDeadlineExceeded}

  /** The failure as it is reported: no longer than the timeout, and a timeout itself when the attempts took longer. */
  function Reported(edge: Edge, o: Outcome, total: int): Outcome {
    if edge.Edge? && 0 < edge.timeout < total then
      if edge.protocol == GRPC then o.(latency := edge.timeout, success := false, statusCode := 4, errorType := GrpcDeadlineExceeded)
      else o.(latency := edge.timeout, success := false, statusCode := 504, errorType := Timeout)
    else o.(latency := total)
  }

  /** After failed attempts: recovery where the edge has a policy, then the children if the failure reaches them. */
  ghost predicate SequenceIs(env: Env, node: Node, start: int, t: Tries, r: Run) {
    if t.outcome.success then r == Run(t.outcome.(latency := t.total), t.st, t.spans)
    else
      var failed := Reported(node.edge, t.outcome, t.total);
      var recovered :=
        match (if node.edge.Edge? then node.edge.onFailure else None)
        case None => Run(failed, t.st, [])
        case Some(policy) => RunFallbacks(env, policy.fallback, policy.onExhausted, failed.(primaryFailed := true), start, t.st);
      var o := recovered.outcome;
      var kids := RunKids(env, node.children, o, start + o.latency, 0, recovered.st);
      if !o.success && o.errorType in REACHING then r == Run(o, kids.st, t.spans + recovered.spans + kids.spans)
      else r == Run(o, recovered.st, t.spans + recovered.spans)
  }

  lemma SequenceMeans(env: Env, node: Node, start: int, st: State)
    ensures SequenceIs(env, node, start, RunAttempts(env, node, start, 0, 0, st), RunSequence(env, node, start, st))
  {
    hide RunAttempts, RunFallbacks, RunKids, CloseFailure, Reported, CascadeClass;
    var t := RunAttempts(env, node, start, 0, 0, st);
    if !t.outcome.success { ReportMeans(node.edge, t.outcome, t.total); }
    forall o: Outcome
      ensures ShouldCascadeChildren(o) <==> !o.success && o.errorType in REACHING
    {
      ReachMeans(o);
    }
  }

  lemma ReportMeans(edge: Edge, o: Outcome, total: int)
    requires !o.success
    ensures CloseFailure(edge, o, total) == Reported(edge, o, total)
  {
  }

  lemma ReachMeans(o: Outcome)
    ensures ShouldCascadeChildren(o) <==> !o.success && o.errorType in REACHING
  {
  }

  /** A node skipped because its parent failed: the parent's failure again, in no time. */
  ghost predicate SkippedIs(env: Env, node: Node, parent: Outcome, start: int, st: State, r: Run) {
    && r.outcome == Failure(0, parent.statusCode, parent.errorType).(cascaded := true)
    && exists instance ::
         && InstanceIs(env, node, st.cursor, instance, r.st.cursor) && r.st == st.(cursor := r.st.cursor)
         && r.spans == [OwnSpan(node, instance, start, r.outcome, [])]
  }

  ghost predicate NodeIs(env: Env, node: Node, parent: Option<Outcome>, start: int, st: State, r: Run) {
    if node.parallel != [] then
      var b := RunBranches(env, node.parallel, parent, start, st);
      r == Run(AggregateFrom(Outcome(true, 0, 200, NoError, false, false, [], NilEdge, false, false), b.outcomes), b.st, b.spans)
    else if node.service.None? then
      r == RunSteps(env, node.children, parent, start, 0, Outcome(true, 0, 200, NoError, false, false, [], NilEdge, false, false), st)
    else
      match parent
      case Some(p) => if p.success then r == RunSequence(env, node, start, st) else SkippedIs(env, node, p, start, st, r)
      case None => r == RunSequence(env, node, start, st)
  }

  /** Which of the four forms a node takes. */
  lemma NodeMeans(env: Env, node: Node, parent: Option<Outcome>, start: int, st: State)
    ensures NodeIs(env, node, parent, start, st, RunNode(env, node, parent, start, st))
  {
    hide RunBranches, RunSteps, RunSequence, AggregateFrom;
    if node.parallel == [] && node.service.Some? && parent.Some? && !parent.value.success {
      SkippedMeans(env, node, parent.value, start, st);
    }
  }

  lemma SkippedMeans(env: Env, node: Node, parent: Outcome, start: int, st: State)
    ensures SkippedIs(env, node, parent, start, st, RunCascade(env, node, parent, start, st))
  {
    var instance := RandIntN(env, Replicas(env, node), st).0;
    var r := RunCascade(env, node, parent, start, st);
    assert InstanceIs(env, node, st.cursor, instance, r.st.cursor);
    assert r.spans == [OwnSpan(node, instance, start, r.outcome, [])];
  }
}
