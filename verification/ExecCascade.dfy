/** Under a failed parent a subtree only reports the failure: zero-length cascaded spans, no time, no faults. */
module ExecCascade {
  import opened Wrappers
  import opened Topology
  import opened Plan
  import opened ExecModel
  import opened Interp

  /** A childless, zero-length span at the given time that repeats the failure of p. */
  ghost predicate Repeats(span: Span, at: int, p: Outcome) {
    && span.info.role.OperationSpan?
    && span.start == at && span.end == at && span.kids == []
    && span.ending == Ending(false, p.statusCode, p.errorType, true)
  }

  ghost predicate AllRepeat(spans: seq<Span>, at: int, p: Outcome) {
    forall i | 0 <= i < |spans| :: Repeats(spans[i], at, p)
  }

  /** The failure p handed on: the same status and error type. */
  ghost predicate Inherits(o: Outcome, p: Outcome) {
    !o.success && o.statusCode == p.statusCode && o.errorType == p.errorType
  }

  /** ctx.Err is not asked, the clock is not read, and at most one instance is drawn per span. */
  ghost predicate Quietly(a: State, b: State, spans: nat) {
    b.polls == a.polls && b.readings == a.readings && a.cursor <= b.cursor <= a.cursor + spans
  }

  /** A plan subtree that reaches an operation: a parallel group of such, or an operation node. */
  predicate Solid(n: Node)
    decreases n
  {
    if |n.parallel| > 0 then forall i | 0 <= i < |n.parallel| :: Solid(n.parallel[i]) else n.service.Some?
  }

  lemma {:induction false} NodeCascades(env: Env, n: Node, p: Outcome, start: int, st: State)
    requires !p.success
    ensures var r := RunNode(env, n, Some(p), start, st);
      && r.outcome.latency == 0
      && (r.outcome.success || (Inherits(r.outcome, p) && r.outcome.cascaded))
      && (Solid(n) ==> !r.outcome.success)
      && AllRepeat(r.spans, start, p)
      && Quietly(st, r.st, |r.spans|)
    decreases NodeSize(n), 1
  {
    if |n.parallel| > 0 {
      BranchesCascade(env, n.parallel, p, start, st);
      var b := RunBranches(env, n.parallel, Some(p), start, st);
      CascadeAggregates(SUCCESS, b.outcomes, p);
    } else if n.service.None? {
      StepsCascade(env, n.children, p, p, start, 0, SUCCESS, st);
    }
  }

  lemma {:induction false} BranchesCascade(env: Env, ns: seq<Node>, p: Outcome, start: int, st: State)
    requires !p.success
    ensures var b := RunBranches(env, ns, Some(p), start, st);
      && |b.outcomes| == |ns|
      && (forall i | 0 <= i < |ns| ::
            && b.outcomes[i].latency == 0
            && (b.outcomes[i].success || (Inherits(b.outcomes[i], p) && b.outcomes[i].cascaded))
            && (Solid(ns[i]) ==> !b.outcomes[i].success))
      && AllRepeat(b.spans, start, p)
      && Quietly(st, b.st, |b.spans|)
    decreases NodesSize(ns), 0
  {
    if ns != [] {
      NodeCascades(env, ns[0], p, start, st);
      BranchesCascade(env, ns[1..], p, start, RunNode(env, ns[0], Some(p), start, st).st);
      assert ns == [ns[0]] + ns[1..];
    }
  }

  lemma {:induction false} CascadeAggregates(agg: Outcome, outcomes: seq<Outcome>, p: Outcome)
    requires !p.success && agg.latency == 0
    requires agg.success || (Inherits(agg, p) && agg.cascaded)
    requires forall i | 0 <= i < |outcomes| ::
      outcomes[i].latency == 0 && (outcomes[i].success || (Inherits(outcomes[i], p) && outcomes[i].cascaded))
    ensures var r := AggregateFrom(agg, outcomes);
      && r.latency == 0
      && (r.success || (Inherits(r, p) && r.cascaded))
      && (r.success <==> agg.success && forall i | 0 <= i < |outcomes| :: outcomes[i].success)
    decreases outcomes
  {
    if outcomes != [] {
      CascadeAggregates(AggregateOne(agg, outcomes[0]), outcomes[1..], p);
    }
  }

  lemma RepeatsInherited(spans: seq<Span>, at: int, q: Outcome, p: Outcome)
    requires AllRepeat(spans, at, q) && Inherits(q, p)
    ensures AllRepeat(spans, at, p)
  {
    assert forall i | 0 <= i < |spans| :: Repeats(spans[i], at, q);
  }

  lemma RepeatsJoin(a: seq<Span>, b: seq<Span>, at: int, p: Outcome)
    requires AllRepeat(a, at, p) && AllRepeat(b, at, p)
    ensures AllRepeat(a + b, at, p)
  {
  }

  /** What remains of a journey under failure p: no more time than total, only repeats. */
  ghost predicate Remains(r: Run, at: int, total: int, p: Outcome, st: State) {
    && r.outcome.latency == total
    && (r.outcome.success || (Inherits(r.outcome, p) && r.outcome.cascaded))
    && AllRepeat(r.spans, at, p)
    && Quietly(st, r.st, |r.spans|)
  }

  lemma RemainsJoin(first: Run, rest: Run, at: int, total: int, q: Outcome, p: Outcome, st: State)
    requires AllRepeat(first.spans, at, q) && Inherits(q, p) && Quietly(st, first.st, |first.spans|)
    requires Remains(rest, at, total, p, first.st)
    ensures Remains(After(first.spans, rest), at, total, p, st)
  {
    RepeatsInherited(first.spans, at, q, p);
    RepeatsJoin(first.spans, rest.spans, at, p);
  }

  /** Later steps may get the previous cascaded outcome as parent; it carries p's failure just the same. */
  lemma {:induction false} StepsCascade(env: Env, ns: seq<Node>, p: Outcome, q: Outcome, start: int, total: int,
                                        last: Outcome, st: State)
    requires !p.success && Inherits(q, p)
    requires last.success || (Inherits(last, p) && last.cascaded)
    ensures Remains(RunSteps(env, ns, Some(q), start, total, last, st), start + total, total, p, st)
    ensures |ns| > 0 && Solid(ns[|ns| - 1]) ==> !RunSteps(env, ns, Some(q), start, total, last, st).outcome.success
    decreases NodesSize(ns), 0
  {
    if ns != [] {
      hide RunNode, RunSteps, AllRepeat, Solid, Remains, Quietly;
      OneStep(env, ns, Some(q), start, total, last, st);
      var r := RunNode(env, ns[0], Some(q), start + total, st);
      NodeCascades(env, ns[0], q, start + total, st);
      var next := if r.outcome.success then q else r.outcome;
      StepsCascade(env, ns[1..], p, next, start, total, r.outcome, r.st);
      RemainsJoin(r, RunSteps(env, ns[1..], Some(next), start, total, r.outcome, r.st), start + total, total, q, p, st);
      if |ns| > 1 {
        assert ns[1..][|ns[1..]| - 1] == ns[|ns| - 1];
      } else {
        NoStepsLeft(env, ns[1..], Some(next), start, total, r.outcome, r.st);
      }
    }
  }

  lemma {:induction false} KidsCascade(env: Env, ns: seq<Node>, p: Outcome, start: int, total: int, st: State)
    requires !p.success
    ensures var k := RunKids(env, ns, p, start, total, st);
      k.total == total && AllRepeat(k.spans, start + total, p) && Quietly(st, k.st, |k.spans|)
    decreases NodesSize(ns), 0
  {
    if ns != [] {
      NodeCascades(env, ns[0], p, start + total, st);
      KidsCascade(env, ns[1..], p, start, total, RunNode(env, ns[0], Some(p), start + total, st).st);
    }
  }

  // ----- Journey steps

  /** The parent the steps after ns run under. */
  function ParentAfter(env: Env, ns: seq<Node>, parent: Option<Outcome>, start: int, total: int, st: State): Option<Outcome>
    decreases ns
  {
    if ns == [] then parent
    else
      var r := RunNode(env, ns[0], parent, start + total, st);
      ParentAfter(env, ns[1..], if r.outcome.success then parent else Some(r.outcome), start, total + r.outcome.latency, r.st)
  }

  /** Running the rest of the steps after front. */
  function Then(env: Env, front: Run, b: seq<Node>, parent: Option<Outcome>, start: int): Run {
    var back := RunSteps(env, b, parent, start, front.outcome.latency, front.outcome, front.st);
    Run(back.outcome, back.st, front.spans + back.spans)
  }

  lemma ThenShift(env: Env, head: seq<Span>, front: Run, b: seq<Node>, parent: Option<Outcome>, start: int)
    ensures var shifted := Then(env, Run(front.outcome, front.st, head + front.spans), b, parent, start);
            var plain := Then(env, front, b, parent, start);
            shifted == Run(plain.outcome, plain.st, head + plain.spans)
  {
    var back := RunSteps(env, b, parent, start, front.outcome.latency, front.outcome, front.st);
    assert (head + front.spans) + back.spans == head + (front.spans + back.spans);
  }

  lemma ThenNone(env: Env, b: seq<Node>, parent: Option<Outcome>, start: int, total: int, last: Outcome, st: State)
    ensures Then(env, Run(last.(latency := total), st, []), b, parent, start)
         == RunSteps(env, b, parent, start, total, last, st)
  {
    var back := RunSteps(env, b, parent, start, total, last.(latency := total), st);
    assert [] + back.spans == back.spans;
  }

  lemma {:induction false} StepsSplit(env: Env, a: seq<Node>, b: seq<Node>, parent: Option<Outcome>, start: int,
                                      total: int, last: Outcome, st: State)
    ensures RunSteps(env, a + b, parent, start, total, last, st)
         == Then(env, RunSteps(env, a, parent, start, total, last, st), b, ParentAfter(env, a, parent, start, total, st), start)
    decreases a
  {
    if a == [] {
      assert a + b == b;
      ThenNone(env, b, parent, start, total, last, st);
    } else {
      hide RunNode, Then;
      assert (a + b)[0] == a[0] && (a + b)[1..] == a[1..] + b;
      var r := RunNode(env, a[0], parent, start + total, st);
      var parent', total' := if r.outcome.success then parent else Some(r.outcome), total + r.outcome.latency;
      var front := RunSteps(env, a[1..], parent', start, total', r.outcome, r.st);
      StepsSplit(env, a[1..], b, parent', start, total', r.outcome, r.st);
      ThenShift(env, r.spans, front, b, ParentAfter(env, a[1..], parent', start, total', r.st), start);
    }
  }

  /** What follows upto in whole only repeats the failure and costs nothing. */
  ghost predicate OnlyRepeats(upto: Run, whole: Run, start: int, failure: Outcome) {
    && !failure.success
    && whole.outcome.latency == upto.outcome.latency
    && upto.spans <= whole.spans
    && AllRepeat(whole.spans[|upto.spans|..], start + upto.outcome.latency, failure)
    && Quietly(upto.st, whole.st, |whole.spans| - |upto.spans|)
  }

  lemma ThenRepeats(env: Env, upto: Run, later: seq<Node>, start: int, failure: Outcome)
    requires !failure.success && later != []
    ensures OnlyRepeats(upto, Then(env, upto, later, Some(failure), start), start, failure)
    ensures Solid(later[|later| - 1]) ==> Inherits(Then(env, upto, later, Some(failure), start).outcome, failure)
  {
    var back := RunSteps(env, later, Some(failure), start, upto.outcome.latency, upto.outcome, upto.st);
    StepsCascadeAny(env, later, failure, start, upto.outcome.latency, upto.outcome, upto.st);
    assert (upto.spans + back.spans)[|upto.spans|..] == back.spans;
  }

  /**
   Once journey step i fails, whatever came before, the later steps add no latency
   and only repeat that failure.
   */
  lemma StepCascade(env: Env, steps: seq<Node>, i: nat, start: int, st: State)
    requires i < |steps|
    requires ParentAfter(env, steps[..i], None, start, 0, st).None?
    requires ParentAfter(env, steps[..i + 1], None, start, 0, st).Some?
    ensures
      var upto := RunSteps(env, steps[..i + 1], None, start, 0, SUCCESS, st);
      var whole := RunSteps(env, steps, None, start, 0, SUCCESS, st);
      var failure := ParentAfter(env, steps[..i + 1], None, start, 0, st).value;
      && OnlyRepeats(upto, whole, start, failure)
      && (Solid(steps[|steps| - 1]) ==> Inherits(whole.outcome, failure))
  {
    var upto := RunSteps(env, steps[..i + 1], None, start, 0, SUCCESS, st);
    var failure := ParentAfter(env, steps[..i + 1], None, start, 0, st).value;
    var later := steps[i + 1..];
    assert steps == steps[..i + 1] + later;
    assert steps[..i + 1] == steps[..i] + [steps[i]];
    LastFailure(env, steps[..i], steps[i], start, 0, SUCCESS, st);
    if later == [] {
      assert steps[..i + 1] == steps;
      assert upto.spans[|upto.spans|..] == [];
    } else {
      StepsSplit(env, steps[..i + 1], later, None, start, 0, SUCCESS, st);
      ThenRepeats(env, upto, later, start, failure);
    }
  }

  /** StepsCascade without a condition on the outcome so far, which a nonempty rest overwrites. */
  lemma StepsCascadeAny(env: Env, ns: seq<Node>, p: Outcome, start: int, total: int, last: Outcome, st: State)
    requires !p.success && ns != []
    ensures RunSteps(env, ns, Some(p), start, total, last, st) == RunSteps(env, ns, Some(p), start, total, SUCCESS, st)
    ensures var r := RunSteps(env, ns, Some(p), start, total, last, st);
      && r.outcome.latency == total
      && (Solid(ns[|ns| - 1]) ==> Inherits(r.outcome, p))
      && AllRepeat(r.spans, start + total, p)
      && Quietly(st, r.st, |r.spans|)
  {
    StepsCascade(env, ns, p, p, start, total, SUCCESS, st);
  }

  lemma {:induction false} LastFailure(env: Env, a: seq<Node>, n: Node, start: int, total: int, last: Outcome, st: State)
    requires ParentAfter(env, a, None, start, total, st).None?
    ensures
      var front := RunSteps(env, a, None, start, total, last, st);
      var r := RunNode(env, n, None, start + front.outcome.latency, front.st);
      && ParentAfter(env, a + [n], None, start, total, st) == (if r.outcome.success then None else Some(r.outcome))
      && RunSteps(env, a + [n], None, start, total, last, st).outcome
         == r.outcome.(latency := front.outcome.latency + r.outcome.latency)
    decreases a
  {
    if a == [] {
      assert a + [n] == [n];
    } else {
      assert (a + [n])[1..] == a[1..] + [n];
      var r := RunNode(env, a[0], None, start + total, st);
      if r.outcome.success {
        LastFailure(env, a[1..], n, start, total + r.outcome.latency, r.outcome, r.st);
      } else {
        FailureSticks(env, a[1..], r.outcome, start, total + r.outcome.latency, r.st);
        assert false;
      }
    }
  }

  lemma {:induction false} FailureSticks(env: Env, ns: seq<Node>, p: Outcome, start: int, total: int, st: State)
    requires !p.success
    ensures ParentAfter(env, ns, Some(p), start, total, st).Some?
    decreases ns
  {
    if ns != [] {
      var r := RunNode(env, ns[0], Some(p), start + total, st);
      FailureSticks(env, ns[1..], if r.outcome.success then p else r.outcome, start, total + r.outcome.latency, r.st);
    }
  }
}
