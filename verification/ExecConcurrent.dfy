/**
 The executor with its parallel branches running at the same time.  Branches share
 the random stream, the context and the clock, so what a branch is answered depends
 on the schedule, and with it everything the branch does.  A run is a log of atomic
 actions: a question to one of the three streams, a span begun, a span finished.
 Every begin carries the identity of its span.
 */
module ExecConcurrent {
  import opened Wrappers
  import opened Topology
  import opened Plan
  import opened ExecModel
  import opened Interp
  import opened SpanLog

  // ----- What a run does, branch by branch

  datatype Stream = Draws | Polls | Readings

  function At(st: State, x: Stream): nat {
    match x
    case Draws => st.cursor
    case Polls => st.polls
    case Readings => st.readings
  }

  /**
   The order a run leaves open: first and second one after the other, left and right at the same time.
   Questions are numbered in index order, whatever the schedule.
   */
  datatype Trace =
    | Done
    | Ask(stream: Stream, number: nat)
    | Then(first: Trace, second: Trace)
    | Both(left: Trace, right: Trace)
    | Spanned(info: SpanInfo, start: int, end: int, ending: Ending, inner: Trace)

  function Forest(t: Trace): seq<Span> {
    match t
    case Done => []
    case Ask(_, _) => []
    case Then(a, b) => Forest(a) + Forest(b)
    case Both(a, b) => Forest(a) + Forest(b)
    case Spanned(info, start, end, ending, inner) => [Span(info, start, end, ending, Forest(inner))]
  }

  function Numbers(t: Trace, x: Stream): seq<nat> {
    match t
    case Done => []
    case Ask(y, n) => if x == y then [n] else []
    case Then(a, b) => Numbers(a, x) + Numbers(b, x)
    case Both(a, b) => Numbers(a, x) + Numbers(b, x)
    case Spanned(_, _, _, _, inner) => Numbers(inner, x)
  }

  function Range(lo: nat, hi: nat): (r: seq<nat>)
    ensures |r| == (if lo <= hi then hi - lo else 0) && forall i | 0 <= i < |r| :: r[i] == lo + i
  {
    seq(if lo <= hi then hi - lo else 0, i => lo + i)
  }

  predicate Forward(a: State, b: State) {
    a.cursor <= b.cursor && a.polls <= b.polls && a.readings <= b.readings
  }

  /** The trace emits these spans and asks for what lies between the two states, each once. */
  ghost predicate Fits(t: Trace, a: State, b: State, spans: seq<Span>) {
    Forest(t) == spans && Forward(a, b) && forall x :: Numbers(t, x) == Range(At(a, x), At(b, x))
  }

  lemma FitsNothing(a: State)
    ensures Fits(Done, a, a, [])
  {
  }

  lemma FitsPair(t: Trace, u: Trace, a: State, b: State, c: State, s: seq<Span>, s': seq<Span>)
    requires Fits(t, a, b, s) && Fits(u, b, c, s')
    ensures Fits(Then(t, u), a, c, s + s') && Fits(Both(t, u), a, c, s + s')
  {
    hide Range, Forest;
    forall x
      ensures Numbers(t, x) + Numbers(u, x) == Range(At(a, x), At(c, x))
    {
      RangeJoins(At(a, x), At(b, x), At(c, x));
    }
    assert Forest(Then(t, u)) == s + s' && Forest(Both(t, u)) == s + s' by { ForestPair(t, u); }
  }

  lemma RangeJoins(lo: nat, mid: nat, hi: nat)
    requires lo <= mid <= hi
    ensures Range(lo, mid) + Range(mid, hi) == Range(lo, hi)
  {
  }

  lemma ForestPair(t: Trace, u: Trace)
    ensures Forest(Then(t, u)) == Forest(Both(t, u)) == Forest(t) + Forest(u)
  {
  }

  function Over(span: Span, inner: Trace): Trace {
    Spanned(span.info, span.start, span.end, span.ending, inner)
  }

  lemma FitsOver(span: Span, inner: Trace, a: State, b: State)
    requires Fits(inner, a, b, span.kids)
    ensures Fits(Over(span, inner), a, b, [span])
  {
  }

  // ----- Questions

  function Numbered(x: Stream, lo: nat, hi: nat): Trace
    decreases hi - lo
  {
    if lo >= hi then Done else Then(Ask(x, lo), Numbered(x, lo + 1, hi))
  }

  lemma {:induction false} NumberedAsks(x: Stream, lo: nat, hi: nat)
    requires lo <= hi
    ensures Forest(Numbered(x, lo, hi)) == []
    ensures forall y :: Numbers(Numbered(x, lo, hi), y) == if x == y then Range(lo, hi) else []
    decreases hi - lo
  {
    if lo < hi {
      NumberedAsks(x, lo + 1, hi);
      assert Range(lo, hi) == [lo] + Range(lo + 1, hi);
    }
  }

  /** Everything asked between two states: in order on each stream, in any order across them. */
  function Asks(a: State, b: State): Trace {
    Both(Numbered(Draws, a.cursor, b.cursor), Both(Numbered(Polls, a.polls, b.polls), Numbered(Readings, a.readings, b.readings)))
  }

  lemma AsksFit(a: State, b: State)
    requires Forward(a, b)
    ensures Fits(Asks(a, b), a, b, [])
  {
    hide Range;
    NumberedAsks(Draws, a.cursor, b.cursor);
    NumberedAsks(Polls, a.polls, b.polls);
    NumberedAsks(Readings, a.readings, b.readings);
    var polls, readings := Numbered(Polls, a.polls, b.polls), Numbered(Readings, a.readings, b.readings);
    forall x
      ensures Numbers(Asks(a, b), x) == Range(At(a, x), At(b, x))
    {
      assert Numbers(Both(polls, readings), x) == Numbers(polls, x) + Numbers(readings, x);
      match x
      case Draws =>
      case Polls =>
      case Readings =>
    }
    ForestPair(polls, readings);
    ForestPair(Numbered(Draws, a.cursor, b.cursor), Both(polls, readings));
  }

  lemma {:induction false} NodeFaultsForward(env: Env, specs: seq<FaultSpec>, ff: Folded, st: State)
    ensures Forward(st, FoldNodeFaults(env, specs, ff, st).1)
    decreases specs
  {
    if specs != [] {
      var next := NodeFault(env, specs[0], ff, st);
      NodeFaultsForward(env, specs[1..], next.0, next.1);
    }
  }

  lemma {:induction false} EdgeFaultsForward(env: Env, specs: seq<FaultSpec>, ff: Folded, st: State)
    ensures Forward(st, FoldEdgeFaults(env, specs, ff, st).1)
    decreases specs
  {
    if specs != [] {
      var next := EdgeFault(env, specs[0], ff, st);
      EdgeFaultsForward(env, specs[1..], next.0, next.1);
    }
  }

  lemma {:induction false} OperationFaultsForward(env: Env, node: Node, specs: seq<FaultSpec>, ff: Folded, st: State)
    ensures Forward(st, FoldOperationFaults(env, node, specs, ff, st).1)
    decreases specs
  {
    if specs != [] {
      var next := OperationFault(env, node, specs[0], ff, st);
      OperationFaultsForward(env, node, specs[1..], next.0, next.1);
    }
  }

  lemma FaultsForward(env: Env, node: Node, st: State)
    ensures Forward(st, FoldFaults(env, node, st).1)
  {
    hide FoldNodeFaults, FoldEdgeFaults, FoldOperationFaults;
    var (ff1, st1) := FoldNodeFaults(env, SpecsOfNode(env, node), NO_FAULT, st);
    var (ff2, st2) := FoldEdgeFaults(env, SpecsOfEdge(env, node), NativeErrorRate(env, node, ff1), st1);
    NodeFaultsForward(env, SpecsOfNode(env, node), NO_FAULT, st);
    EdgeFaultsForward(env, SpecsOfEdge(env, node), NativeErrorRate(env, node, ff1), st1);
    OperationFaultsForward(env, node, SpecsOfOperation(env, node), ff2, st2);
  }

  /** The state in which an attempt begins its span: faults, instance and latency are drawn before. */
  function Prepared(env: Env, node: Node, st: State): State {
    SampleEdgeLatency(env, node.edge, RandIntN(env, Replicas(env, node), FoldFaults(env, node, st).1).1).1
  }

  lemma AttemptForward(env: Env, node: Node, st: State)
    ensures Forward(st, Prepared(env, node, st)) && Forward(Prepared(env, node, st), OpenAttempt(env, node, st).2)
  {
    hide FoldFaults;
    FaultsForward(env, node, st);
  }

  // ----- The trace of every part of a run

  ghost function TraceNode(env: Env, node: Node, parent: Option<Outcome>, start: int, st: State): (t: Trace)
    ensures var r := RunNode(env, node, parent, start, st); Fits(t, st, r.st, r.spans)
    decreases NodeSize(node), 4
  {
    hide RunBranches, RunSteps, RunCascade, RunSequence, Fits;
    if |node.parallel| > 0 then TraceBranches(env, node.parallel, parent, start, st)
    else if node.service.None? then TraceSteps(env, node.children, parent, start, 0, SUCCESS, st)
    else if parent.Some? && !parent.value.success then TraceCascade(env, node, parent.value, start, st)
    else TraceSequence(env, node, start, st)
  }

  ghost function TraceCascade(env: Env, node: Node, parent: Outcome, start: int, st: State): (t: Trace)
    ensures var r := RunCascade(env, node, parent, start, st); Fits(t, st, r.st, r.spans)
  {
    var r := RunCascade(env, node, parent, start, st);
    FitsNothing(r.st);
    FitsOver(r.spans[0], Done, r.st, r.st);
    AsksFit(st, r.st);
    FitsPair(Asks(st, r.st), Over(r.spans[0], Done), st, r.st, r.st, [], r.spans);
    Then(Asks(st, r.st), Over(r.spans[0], Done))
  }

  /** The branches of a group run at the same time. */
  ghost function TraceBranches(env: Env, ns: seq<Node>, parent: Option<Outcome>, start: int, st: State): (t: Trace)
    ensures var b := RunBranches(env, ns, parent, start, st); Fits(t, st, b.st, b.spans)
    decreases NodesSize(ns), 5
  {
    hide RunNode, Fits;
    if ns == [] then FitsNothing(st); Done
    else
      var r := RunNode(env, ns[0], parent, start, st);
      var rest := RunBranches(env, ns[1..], parent, start, r.st);
      var one, others := TraceNode(env, ns[0], parent, start, st), TraceBranches(env, ns[1..], parent, start, r.st);
      FitsPair(one, others, st, r.st, rest.st, r.spans, rest.spans);
      Both(one, others)
  }

  ghost function TraceSteps(env: Env, ns: seq<Node>, parent: Option<Outcome>, start: int, total: int, last: Outcome, st: State): (t: Trace)
    ensures var r := RunSteps(env, ns, parent, start, total, last, st); Fits(t, st, r.st, r.spans)
    decreases NodesSize(ns), 5
  {
    hide RunNode, Fits;
    if ns == [] then FitsNothing(st); Done
    else
      var r := RunNode(env, ns[0], parent, start + total, st);
      var parent' := NextParent(parent, r.outcome);
      var rest := RunSteps(env, ns[1..], parent', start, total + r.outcome.latency, r.outcome, r.st);
      var one := TraceNode(env, ns[0], parent, start + total, st);
      var others := TraceSteps(env, ns[1..], parent', start, total + r.outcome.latency, r.outcome, r.st);
      OneStep(env, ns, parent, start, total, last, st);
      FitsPair(one, others, st, r.st, rest.st, r.spans, rest.spans);
      Then(one, others)
  }

  ghost function TraceKids(env: Env, ns: seq<Node>, parent: Outcome, start: int, total: int, st: State): (t: Trace)
    ensures var k := RunKids(env, ns, parent, start, total, st); Fits(t, st, k.st, k.spans)
    decreases NodesSize(ns), 5
  {
    hide RunNode, Fits;
    if ns == [] then FitsNothing(st); Done
    else
      var r := RunNode(env, ns[0], Some(parent), start + total, st);
      var one := TraceNode(env, ns[0], Some(parent), start + total, st);
      OneKid(env, ns, parent, start, total, st);
      if !r.outcome.success && parent.success then one
      else
        var rest := RunKids(env, ns[1..], parent, start, total + r.outcome.latency, r.st);
        var others := TraceKids(env, ns[1..], parent, start, total + r.outcome.latency, r.st);
        FitsPair(one, others, st, r.st, rest.st, r.spans, rest.spans);
        Then(one, others)
  }

  /** Spans begun and finished at once. */
  ghost function TraceSent(env: Env, edge: Edge, start: int, st: State): (t: Trace)
    ensures Fits(t, st, st, ProducerSpans(env, edge, start))
  {
    var spans := ProducerSpans(env, edge, start);
    FitsNothing(st);
    if spans == [] then Done
    else
      FitsOver(spans[0], Done, st, st);
      Over(spans[0], Done)
  }

  ghost function TraceSingle(env: Env, node: Node, start: int, st: State): (t: Trace)
    ensures var r := RunSingle(env, node, start, st); Fits(t, st, r.st, r.spans)
    decreases NodeSize(node), 1
  {
    hide OpenAttempt, Prepared, Fits;
    AttemptForward(env, node, st);
    var ready := Prepared(env, node, st);
    var (opening, instance, begun) := OpenAttempt(env, node, st);
    AsksFit(st, ready);
    AsksFit(ready, begun);
    var sent := ProducerSpans(env, node.edge, start);
    var r := RunSingle(env, node, start, st);
    var own := r.spans[|r.spans| - 1];
    var kids := match opening
                case Stopped(_) => (FitsNothing(begun); Done)
                case Live(_, _, latency) => TraceKids(env, node.children, SUCCESS, start, latency, begun);
    var inner := Then(Asks(ready, begun), kids);
    assert r.spans == sent + [own];
    FitsPair(Asks(ready, begun), kids, ready, begun, r.st, [], own.kids);
    assert [] + own.kids == own.kids;
    FitsOver(own, inner, ready, r.st);
    FitsPair(TraceSent(env, node.edge, start, ready), Over(own, inner), ready, ready, r.st, sent, [own]);
    var rest := Then(TraceSent(env, node.edge, start, ready), Over(own, inner));
    FitsPair(Asks(st, ready), rest, st, ready, r.st, [], r.spans);
    assert [] + r.spans == r.spans;
    Then(Asks(st, ready), rest)
  }

  /** No further attempt follows. */
  predicate LastTry(node: Node, k: nat, o: Outcome) {
    o.success || o.errorType.ContextCanceled? || k + 1 == Attempts(node.edge)
  }

  lemma OneAttempt(env: Env, node: Node, start: int, k: nat, total: int, st: State)
    requires k < Attempts(node.edge)
    ensures var begun := total + RetryBackoffDelay(node.edge, k);
            var r, t := RunSingle(env, node, start + begun, st), RunAttempts(env, node, start, k, total, st);
            if LastTry(node, k, r.outcome) then
              t.st == r.st && t.spans == r.spans
            else
              var rest := RunAttempts(env, node, start, k + 1, begun + r.outcome.latency, r.st);
              t.st == rest.st && t.spans == r.spans + rest.spans
  {
    hide RunSingle, RetryBackoffDelay;
  }

  /** t is a trace of the attempts from the k-th on. */
  ghost predicate FitsTries(t: Trace, env: Env, node: Node, start: int, k: nat, total: int, st: State)
    requires k < Attempts(node.edge)
  {
    var tries := RunAttempts(env, node, start, k, total, st);
    Fits(t, st, tries.st, tries.spans)
  }

  lemma TriesFit(env: Env, node: Node, start: int, k: nat, total: int, st: State, one: Trace)
    requires k < Attempts(node.edge)
    requires var r := RunSingle(env, node, start + (total + RetryBackoffDelay(node.edge, k)), st); Fits(one, st, r.st, r.spans)
    ensures var begun := total + RetryBackoffDelay(node.edge, k);
            var r := RunSingle(env, node, start + begun, st);
            if LastTry(node, k, r.outcome) then FitsTries(one, env, node, start, k, total, st)
            else
              k + 1 < Attempts(node.edge)
              && forall others | FitsTries(others, env, node, start, k + 1, begun + r.outcome.latency, r.st) ::
                   FitsTries(Then(one, others), env, node, start, k, total, st)
  {
    hide RunSingle, RunAttempts, RetryBackoffDelay, Fits;
    OneAttempt(env, node, start, k, total, st);
    var begun := total + RetryBackoffDelay(node.edge, k);
    var r := RunSingle(env, node, start + begun, st);
    if !LastTry(node, k, r.outcome) {
      var rest := RunAttempts(env, node, start, k + 1, begun + r.outcome.latency, r.st);
      forall others | FitsTries(others, env, node, start, k + 1, begun + r.outcome.latency, r.st)
        ensures FitsTries(Then(one, others), env, node, start, k, total, st)
      {
        FitsPair(one, others, st, r.st, rest.st, r.spans, rest.spans);
      }
    }
  }

  ghost function TraceAttempts(env: Env, node: Node, start: int, k: nat, total: int, st: State): Trace
    requires k < Attempts(node.edge)
    decreases NodeSize(node), 2, Attempts(node.edge) - k, 0
  {
    var begun := total + RetryBackoffDelay(node.edge, k);
    var r := RunSingle(env, node, start + begun, st);
    var one := TraceSingle(env, node, start + begun, st);
    if LastTry(node, k, r.outcome) then one
    else Then(one, TraceAttempts(env, node, start, k + 1, begun + r.outcome.latency, r.st))
  }

  lemma {:induction false} AttemptsTraced(env: Env, node: Node, start: int, k: nat, total: int, st: State)
    requires k < Attempts(node.edge)
    ensures FitsTries(TraceAttempts(env, node, start, k, total, st), env, node, start, k, total, st)
    decreases NodeSize(node), 2, Attempts(node.edge) - k, 1
  {
    hide RunSingle, RetryBackoffDelay, Fits, FitsTries, LastTry, Attempts;
    var begun := total + RetryBackoffDelay(node.edge, k);
    var r := RunSingle(env, node, start + begun, st);
    TriesFit(env, node, start, k, total, st, TraceSingle(env, node, start + begun, st));
    if !LastTry(node, k, r.outcome) { AttemptsTraced(env, node, start, k + 1, begun + r.outcome.latency, r.st); }
  }

  ghost function TraceSequence(env: Env, node: Node, start: int, st: State): (t: Trace)
    ensures var r := RunSequence(env, node, start, st); Fits(t, st, r.st, r.spans)
    decreases NodeSize(node), 3
  {
    hide RunAttempts, RunFallbacks, RunKids, Fits;
    var tries := RunAttempts(env, node, start, 0, 0, st);
    var tried := TraceAttempts(env, node, start, 0, 0, st);
    AttemptsTraced(env, node, start, 0, 0, st);
    if tries.outcome.success then tried
    else
      var failure := CloseFailure(node.edge, tries.outcome, tries.total);
      var recovery := node.edge.Edge? && node.edge.onFailure.Some?;
      var recovered :=
        if recovery then
          RunFallbacks(env, node.edge.onFailure.value.fallback, node.edge.onFailure.value.onExhausted,
                       failure.(primaryFailed := true), start, tries.st)
        else Run(failure, tries.st, []);
      FitsNothing(tries.st);
      var recovering :=
        if recovery then
          TraceFallbacks(env, node.edge.onFailure.value.fallback, node.edge.onFailure.value.onExhausted,
                         failure.(primaryFailed := true), start, tries.st)
        else Done;
      FitsPair(tried, recovering, st, tries.st, recovered.st, tries.spans, recovered.spans);
      if ShouldCascadeChildren(recovered.outcome) then
        var kids := RunKids(env, node.children, recovered.outcome, start + recovered.outcome.latency, 0, recovered.st);
        var cascade := TraceKids(env, node.children, recovered.outcome, start + recovered.outcome.latency, 0, recovered.st);
        FitsPair(Then(tried, recovering), cascade, st, recovered.st, kids.st, tries.spans + recovered.spans, kids.spans);
        Then(Then(tried, recovering), cascade)
      else Then(tried, recovering)
  }

  ghost function TraceFallbacks(env: Env, fallbacks: seq<Edge>, action: ExhaustedAction, out: Outcome, start: int, st: State): (t: Trace)
    ensures var r := RunFallbacks(env, fallbacks, action, out, start, st); Fits(t, st, r.st, r.spans)
    decreases EdgesSize(fallbacks), 6
  {
    hide RunFallback, Fits;
    if fallbacks == [] then FitsNothing(st); Done
    else
      var f := RunFallback(env, fallbacks[0], start + out.latency, st);
      var one := TraceFallback(env, fallbacks[0], start + out.latency, st);
      OneFallback(env, fallbacks, action, out, start, st);
      if f.outcome.success then one
      else
        var out' := AfterFailed(out, f.outcome, fallbacks[0]);
        var rest := RunFallbacks(env, fallbacks[1..], action, out', start, f.st);
        var others := TraceFallbacks(env, fallbacks[1..], action, out', start, f.st);
        FitsPair(one, others, st, f.st, rest.st, f.spans, rest.spans);
        Then(one, others)
  }

  ghost function TraceFallback(env: Env, fb: Edge, start: int, st: State): (t: Trace)
    ensures var r := RunFallback(env, fb, start, st); Fits(t, st, r.st, r.spans)
    decreases 2 + EdgeSize(fb), 0
  {
    hide RunNode, Fits;
    if !Dialable(env, fb) then FitsNothing(st); Done
    else TraceNode(env, FallbackNode(env, fb), None, start, st)
  }
}
