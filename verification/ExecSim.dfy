/**
 Two runs side by side.  Agree relates two plan trees whose folded faults agree at
 every operation node; RunsAgree is what then holds of the runs.  In the exact
 mode the runs are equal; otherwise they may differ in status codes, error types
 and producer spans only.
 */
module ExecSim {
  import opened Wrappers
  import opened Topology
  import opened Plan
  import opened ExecModel
  import opened Interp
  import opened ExecCoherence

  // ----- What two runs share

  /** An operation span without its status code and error type, and without producer spans below it. */
  datatype View = View(info: SpanInfo, start: int, end: int, success: bool, cascaded: bool, kids: seq<View>)

  function OperationView(spans: seq<Span>): seq<View>
    decreases spans
  {
    if spans == [] then []
    else
      (if spans[0].info.role.ProducerSpan? then []
       else [View(spans[0].info, spans[0].start, spans[0].end, spans[0].ending.success, spans[0].ending.cascaded,
                  OperationView(spans[0].kids))])
      + OperationView(spans[1..])
  }

  /** The view of a single span. */
  lemma ViewOne(span: Span)
    ensures OperationView([span])
         == if span.info.role.ProducerSpan? then []
            else [View(span.info, span.start, span.end, span.ending.success, span.ending.cascaded, OperationView(span.kids))]
  {
    assert [span][1..] == [];
  }

  lemma {:induction false} ViewJoin(a: seq<Span>, b: seq<Span>)
    ensures OperationView(a + b) == OperationView(a) + OperationView(b)
    decreases a
  {
    if a == [] {
      assert a + b == b;
    } else {
      ViewJoin(a[1..], b);
      assert (a + b)[1..] == a[1..] + b;
    }
  }

  ghost predicate SameClass(a: ErrorType, b: ErrorType) {
    && (a.NoError? <==> b.NoError?)
    && (CascadeClass(a) <==> CascadeClass(b))
    && (a.ContextCanceled? <==> b.ContextCanceled?)
  }

  /** Equal but for the status code, the error type within its class, and which edges the recovery names. */
  ghost predicate Alike(a: Outcome, b: Outcome) {
    && a.success == b.success && a.latency == b.latency && a.cascaded == b.cascaded
    && SameClass(a.errorType, b.errorType)
    && a.primaryFailed == b.primaryFailed && |a.fallbackAttempts| == |b.fallbackAttempts|
    && a.fallbackUsed.Edge? == b.fallbackUsed.Edge?
    && a.defaultUsed == b.defaultUsed && a.silentlySucceeded == b.silentlySucceeded
  }

  ghost predicate OutcomesAgree(exact: bool, a: Outcome, b: Outcome) {
    if exact then a == b else Alike(a, b)
  }

  ghost predicate SpansAgree(exact: bool, a: seq<Span>, b: seq<Span>) {
    OperationView(a) == OperationView(b) && (exact ==> a == b)
  }

  ghost predicate RunsAgree(exact: bool, a: Run, b: Run) {
    OutcomesAgree(exact, a.outcome, b.outcome) && a.st == b.st && SpansAgree(exact, a.spans, b.spans)
  }

  lemma SpansJoin(exact: bool, a: seq<Span>, a': seq<Span>, b: seq<Span>, b': seq<Span>)
    requires SpansAgree(exact, a, a') && SpansAgree(exact, b, b')
    ensures SpansAgree(exact, a + b, a' + b')
  {
    ViewJoin(a, b);
    ViewJoin(a', b');
  }

  // ----- When two trees agree

  ghost predicate StreamsAgree(e1: Env, e2: Env) {
    && e1.schema == e2.schema && e1.intn == e2.intn && e1.float == e2.float
    && e1.lognormal == e2.lognormal && e1.canceled == e2.canceled && e1.elapsed == e2.elapsed
  }

  /** Same decision, and the same error type where an error can be forced and exactness is asked. */
  ghost predicate FoldsAgree(exact: bool, a: Folded, b: Folded) {
    && a.crashed == b.crashed && a.disconnected == b.disconnected
    && a.inflate == b.inflate && a.errorRate == b.errorRate
    && (exact && a.errorRate > 0.0 ==> a.errorType == b.errorType)
  }

  ghost predicate FaultsAgree(exact: bool, e1: Env, n1: Node, e2: Env, n2: Node) {
    forall st :: FoldedPairAgrees(exact, FoldFaults(e1, n1, st), FoldFaults(e2, n2, st))
  }

  ghost predicate FoldedPairAgrees(exact: bool, a: (Folded, State), b: (Folded, State)) {
    FoldsAgree(exact, a.0, b.0) && a.1 == b.1
  }

  /** The edges differ in nothing but the protocol, at this level. */
  ghost predicate SameSettings(exact: bool, a: Edge, b: Edge) {
    && a.Edge? == b.Edge?
    && (exact ==> a == b)
    && (a.Edge? ==>
          && a.id == b.id && a.from == b.from && a.to == b.to && a.latency == b.latency
          && a.errorRate == b.errorRate && a.timeout == b.timeout && a.retries == b.retries
          && a.retryBackoff == b.retryBackoff && a.retryBaseDelay == b.retryBaseDelay
          && a.onFailure.Some? == b.onFailure.Some?
          && (a.onFailure.Some? ==> a.onFailure.value.onExhausted == b.onFailure.value.onExhausted))
  }

  ghost predicate EdgesAgree(exact: bool, e1: Env, a: Edge, e2: Env, b: Edge)
    decreases a
  {
    && SameSettings(exact, a, b)
    && (a.Edge? && a.onFailure.Some? ==>
          FallbacksAgree(exact, e1, a.onFailure.value.fallback, e2, b.onFailure.value.fallback))
  }

  ghost predicate FallbacksAgree(exact: bool, e1: Env, a: seq<Edge>, e2: Env, b: seq<Edge>)
    decreases a
  {
    |a| == |b| && forall i | 0 <= i < |a| ::
      && EdgesAgree(exact, e1, a[i], e2, b[i])
      && (Dialable(e1, a[i]) && Dialable(e2, b[i]) ==>
            FaultsAgree(exact, e1, FallbackNode(e1, a[i]), e2, FallbackNode(e2, b[i])))
  }

  ghost predicate Agree(exact: bool, e1: Env, n1: Node, e2: Env, n2: Node)
    decreases n1
  {
    && n1.service == n2.service && n1.operation == n2.operation
    && EdgesAgree(exact, e1, n1.edge, e2, n2.edge)
    && FaultsAgree(exact, e1, n1, e2, n2)
    && AllAgree(exact, e1, n1.parallel, e2, n2.parallel)
    && AllAgree(exact, e1, n1.children, e2, n2.children)
  }

  ghost predicate AllAgree(exact: bool, e1: Env, a: seq<Node>, e2: Env, b: seq<Node>)
    decreases a
  {
    |a| == |b| && forall i | 0 <= i < |a| :: Agree(exact, e1, a[i], e2, b[i])
  }

  ghost predicate ParentsAgree(exact: bool, p1: Option<Outcome>, p2: Option<Outcome>) {
    p1.Some? == p2.Some? && (p1.Some? ==> OutcomesAgree(exact, p1.value, p2.value))
  }

  // ----- The runs

  lemma {:induction false} NodesRunAlike(x: bool, e1: Env, n1: Node, e2: Env, n2: Node,
                                         p1: Option<Outcome>, p2: Option<Outcome>, start: int, st: State)
    requires StreamsAgree(e1, e2) && Agree(x, e1, n1, e2, n2) && ParentsAgree(x, p1, p2)
    ensures RunsAgree(x, RunNode(e1, n1, p1, start, st), RunNode(e2, n2, p2, start, st))
    decreases NodeSize(n1), 4
  {
    hide RunBranches, RunSteps, RunSequence, FaultsAgree;
    if |n1.parallel| > 0 {
      BranchesRunAlike(x, e1, n1.parallel, e2, n2.parallel, p1, p2, start, st);
      AggregatesAlike(x, SUCCESS, SUCCESS, RunBranches(e1, n1.parallel, p1, start, st).outcomes,
                      RunBranches(e2, n2.parallel, p2, start, st).outcomes);
    } else if n1.service.None? {
      StepsRunAlike(x, e1, n1.children, e2, n2.children, p1, p2, start, 0, SUCCESS, SUCCESS, st);
    } else if p1.None? || p1.value.success {
      SequencesRunAlike(x, e1, n1, e2, n2, start, st);
    } else {
      CascadesAlike(x, e1, n1, e2, n2, p1.value, p2.value, start, st);
    }
  }

  lemma CascadesAlike(x: bool, e1: Env, n1: Node, e2: Env, n2: Node, p1: Outcome, p2: Outcome, start: int, st: State)
    requires StreamsAgree(e1, e2) && n1.service == n2.service && n1.operation == n2.operation
    requires EdgeRefOf(n1.edge) == EdgeRefOf(n2.edge)
    requires OutcomesAgree(x, p1, p2) && !p1.success
    ensures RunsAgree(x, RunCascade(e1, n1, p1, start, st), RunCascade(e2, n2, p2, start, st))
  {
    hide OperationView;
    var r1, r2 := RunCascade(e1, n1, p1, start, st), RunCascade(e2, n2, p2, start, st);
    ViewOne(r1.spans[0]);
    ViewOne(r2.spans[0]);
  }

  ghost predicate AllOutcomesAgree(exact: bool, a: seq<Outcome>, b: seq<Outcome>) {
    |a| == |b| && forall i | 0 <= i < |a| :: OutcomesAgree(exact, a[i], b[i])
  }

  lemma {:induction false} BranchesRunAlike(x: bool, e1: Env, a: seq<Node>, e2: Env, b: seq<Node>,
                                            p1: Option<Outcome>, p2: Option<Outcome>, start: int, st: State)
    requires StreamsAgree(e1, e2) && AllAgree(x, e1, a, e2, b) && ParentsAgree(x, p1, p2)
    ensures
      var r1, r2 := RunBranches(e1, a, p1, start, st), RunBranches(e2, b, p2, start, st);
      AllOutcomesAgree(x, r1.outcomes, r2.outcomes) && r1.st == r2.st && SpansAgree(x, r1.spans, r2.spans)
      && (x ==> r1.outcomes == r2.outcomes)
    decreases NodesSize(a), 5
  {
    hide RunNode, Agree, OutcomesAgree, OperationView;
    if a != [] {
      NodesRunAlike(x, e1, a[0], e2, b[0], p1, p2, start, st);
      var r1, r2 := RunNode(e1, a[0], p1, start, st), RunNode(e2, b[0], p2, start, st);
      BranchesRunAlike(x, e1, a[1..], e2, b[1..], p1, p2, start, r1.st);
      ExactOutcomes(x, r1.outcome, r2.outcome);
      var rest1, rest2 := RunBranches(e1, a[1..], p1, start, r1.st), RunBranches(e2, b[1..], p2, start, r1.st);
      SpansJoin(x, r1.spans, r2.spans, rest1.spans, rest2.spans);
    }
  }

  lemma ExactOutcomes(exact: bool, a: Outcome, b: Outcome)
    requires OutcomesAgree(exact, a, b)
    ensures Alike(a, b) && (exact ==> a == b)
  {
  }

  lemma {:induction false} AggregatesAlike(x: bool, a1: Outcome, a2: Outcome, os1: seq<Outcome>, os2: seq<Outcome>)
    requires OutcomesAgree(x, a1, a2) && AllOutcomesAgree(x, os1, os2)
    ensures OutcomesAgree(x, AggregateFrom(a1, os1), AggregateFrom(a2, os2))
    decreases os1
  {
    if os1 != [] {
      AggregateOneAlike(x, a1, a2, os1[0], os2[0]);
      AggregatesAlike(x, AggregateOne(a1, os1[0]), AggregateOne(a2, os2[0]), os1[1..], os2[1..]);
    }
  }

  lemma AggregateOneAlike(x: bool, a1: Outcome, a2: Outcome, o1: Outcome, o2: Outcome)
    requires OutcomesAgree(x, a1, a2) && OutcomesAgree(x, o1, o2)
    ensures OutcomesAgree(x, AggregateOne(a1, o1), AggregateOne(a2, o2))
  {
    hide SameClass;
  }

  lemma {:induction false} StepsRunAlike(x: bool, e1: Env, a: seq<Node>, e2: Env, b: seq<Node>,
                                         p1: Option<Outcome>, p2: Option<Outcome>, start: int, total: int,
                                         l1: Outcome, l2: Outcome, st: State)
    requires StreamsAgree(e1, e2) && AllAgree(x, e1, a, e2, b) && ParentsAgree(x, p1, p2) && OutcomesAgree(x, l1, l2)
    ensures RunsAgree(x, RunSteps(e1, a, p1, start, total, l1, st), RunSteps(e2, b, p2, start, total, l2, st))
    decreases NodesSize(a), 5
  {
    hide RunNode, Agree, OperationView;
    if a != [] {
      NodesRunAlike(x, e1, a[0], e2, b[0], p1, p2, start + total, st);
      var r1, r2 := RunNode(e1, a[0], p1, start + total, st), RunNode(e2, b[0], p2, start + total, st);
      var q1 := if r1.outcome.success then p1 else Some(r1.outcome);
      var q2 := if r2.outcome.success then p2 else Some(r2.outcome);
      var total' := total + r1.outcome.latency;
      StepsRunAlike(x, e1, a[1..], e2, b[1..], q1, q2, start, total', r1.outcome, r2.outcome, r1.st);
      SpansJoin(x, r1.spans, r2.spans, RunSteps(e1, a[1..], q1, start, total', r1.outcome, r1.st).spans,
                RunSteps(e2, b[1..], q2, start, total', r2.outcome, r1.st).spans);
    }
  }

  lemma {:induction false} KidsRunAlike(x: bool, e1: Env, a: seq<Node>, e2: Env, b: seq<Node>,
                                        p1: Outcome, p2: Outcome, start: int, total: int, st: State)
    requires StreamsAgree(e1, e2) && AllAgree(x, e1, a, e2, b) && OutcomesAgree(x, p1, p2)
    ensures
      var k1, k2 := RunKids(e1, a, p1, start, total, st), RunKids(e2, b, p2, start, total, st);
      k1.total == k2.total && k1.st == k2.st && SpansAgree(x, k1.spans, k2.spans)
    decreases NodesSize(a), 5
  {
    hide RunNode, Agree, OperationView;
    if a != [] {
      NodesRunAlike(x, e1, a[0], e2, b[0], Some(p1), Some(p2), start + total, st);
      var r1, r2 := RunNode(e1, a[0], Some(p1), start + total, st), RunNode(e2, b[0], Some(p2), start + total, st);
      var total' := total + r1.outcome.latency;
      if r1.outcome.success || !p1.success {
        KidsRunAlike(x, e1, a[1..], e2, b[1..], p1, p2, start, total', r1.st);
        SpansJoin(x, r1.spans, r2.spans, RunKids(e1, a[1..], p1, start, total', r1.st).spans,
                  RunKids(e2, b[1..], p2, start, total', r1.st).spans);
      }
    }
  }

  /** Producer spans vanish from the view. */
  lemma ProducersUnseen(env: Env, edge: Edge, start: int)
    ensures OperationView(ProducerSpans(env, edge, start)) == []
  {
  }

  lemma FinishedAlike(x: bool, n1: Node, n2: Node, instance: int, sent1: seq<Span>, sent2: seq<Span>, start: int,
                      o1: Outcome, o2: Outcome, st: State, kids1: seq<Span>, kids2: seq<Span>)
    requires n1.service == n2.service && n1.operation == n2.operation && EdgeRefOf(n1.edge) == EdgeRefOf(n2.edge)
    requires OperationView(sent1) == [] == OperationView(sent2) && (x ==> sent1 == sent2)
    requires OutcomesAgree(x, o1, o2) && SpansAgree(x, kids1, kids2)
    ensures RunsAgree(x, Finished(n1, instance, sent1, start, o1, st, kids1),
                      Finished(n2, instance, sent2, start, o2, st, kids2))
  {
    hide OperationView;
    var own1 := OperationSpanOf(n1, instance, start, start + o1.latency, o1, kids1);
    var own2 := OperationSpanOf(n2, instance, start, start + o2.latency, o2, kids2);
    ViewJoin(sent1, [own1]);
    ViewJoin(sent2, [own2]);
    ViewOne(own1);
    ViewOne(own2);
  }

  ghost predicate OpeningsAgree(exact: bool, a: Opening, b: Opening) {
    && a.Stopped? == b.Stopped?
    && (a.Stopped? ==> OutcomesAgree(exact, a.outcome, b.outcome))
    && (a.Live? ==>
          && a.forced == b.forced && a.latency == b.latency
          && FaultError(a.errorType) && FaultError(b.errorType)
          && (exact && a.forced ==> a.errorType == b.errorType))
  }

  lemma OpeningsAlike(x: bool, e1: Env, n1: Node, e2: Env, n2: Node, st: State)
    requires StreamsAgree(e1, e2) && FaultsAgree(x, e1, n1, e2, n2)
    requires n1.service == n2.service && SameSettings(x, n1.edge, n2.edge)
    ensures
      var (o1, i1, s1) := OpenAttempt(e1, n1, st);
      var (o2, i2, s2) := OpenAttempt(e2, n2, st);
      OpeningsAgree(x, o1, o2) && i1 == i2 && s1 == s2
  {
    hide FoldFaults, SampleEdgeLatency, FaultError;
    FoldedErrorType(e1, n1, st);
    FoldedErrorType(e2, n2, st);
    assert FoldedPairAgrees(x, FoldFaults(e1, n1, st), FoldFaults(e2, n2, st));
    var st1 := FoldFaults(e1, n1, st).1;
    var (instance, st2) := RandIntN(e1, Replicas(e1, n1), st1);
    LatenciesAlike(e1, n1.edge, e2, n2.edge, st2);
  }

  lemma LatenciesAlike(e1: Env, a: Edge, e2: Env, b: Edge, st: State)
    requires StreamsAgree(e1, e2) && a.Edge? == b.Edge? && (a.Edge? ==> a.latency == b.latency)
    ensures SampleEdgeLatency(e1, a, st) == SampleEdgeLatency(e2, b, st)
  {
  }

  lemma {:induction false} SinglesRunAlike(x: bool, e1: Env, n1: Node, e2: Env, n2: Node, start: int, st: State)
    requires StreamsAgree(e1, e2) && Agree(x, e1, n1, e2, n2)
    ensures RunsAgree(x, RunSingle(e1, n1, start, st), RunSingle(e2, n2, start, st))
    decreases NodeSize(n1), 1
  {
    hide OpenAttempt, RunKids, RunsAgree, OperationView, ProducerSpans, Finished, FaultsAgree;
    OpeningsAlike(x, e1, n1, e2, n2, st);
    var (o1, instance, st1) := OpenAttempt(e1, n1, st);
    var o2 := OpenAttempt(e2, n2, st).0;
    var sent1, sent2 := ProducerSpans(e1, n1.edge, start), ProducerSpans(e2, n2.edge, start);
    ProducersUnseen(e1, n1.edge, start);
    ProducersUnseen(e2, n2.edge, start);
    SameProducers(e1, e2, n1.edge, start);
    if o1.Stopped? {
      FinishedAlike(x, n1, n2, instance, sent1, sent2, start, o1.outcome, o2.outcome, st1, [], []);
    } else {
      KidsRunAlike(x, e1, n1.children, e2, n2.children, SUCCESS, SUCCESS, start, o1.latency, st1);
      var k1 := RunKids(e1, n1.children, SUCCESS, start, o1.latency, st1);
      var k2 := RunKids(e2, n2.children, SUCCESS, start, o1.latency, st1);
      var a1 := AttemptOutcome(o1.forced, o1.errorType, k1.total);
      var a2 := AttemptOutcome(o2.forced, o2.errorType, k2.total);
      FinishedAlike(x, n1, n2, instance, sent1, sent2, start, a1, a2, k1.st, k1.spans, k2.spans);
    }
  }

  lemma SameProducers(e1: Env, e2: Env, edge: Edge, start: int)
    requires e1.schema == e2.schema
    ensures ProducerSpans(e1, edge, start) == ProducerSpans(e2, edge, start)
  {
  }

  ghost predicate TriesAgree(exact: bool, a: Tries, b: Tries) {
    && OutcomesAgree(exact, a.outcome, b.outcome) && a.total == b.total && a.st == b.st
    && SpansAgree(exact, a.spans, b.spans) && a.attempts == b.attempts
  }

  lemma SameSwitches(exact: bool, a: Outcome, b: Outcome)
    requires OutcomesAgree(exact, a, b)
    ensures a.success == b.success && a.latency == b.latency
    ensures a.errorType.ContextCanceled? == b.errorType.ContextCanceled?
  {
  }

  lemma AgreeSettings(x: bool, e1: Env, n1: Node, e2: Env, n2: Node)
    requires Agree(x, e1, n1, e2, n2)
    ensures Attempts(n1.edge) == Attempts(n2.edge)
    ensures forall k: nat :: RetryBackoffDelay(n1.edge, k) == RetryBackoffDelay(n2.edge, k)
  {
  }

  lemma {:induction false} AttemptsRunAlike(x: bool, e1: Env, n1: Node, e2: Env, n2: Node, start: int, k: nat,
                                            total: int, st: State)
    requires StreamsAgree(e1, e2) && Agree(x, e1, n1, e2, n2)
    requires k < Attempts(n1.edge) && k < Attempts(n2.edge)
    ensures TriesAgree(x, RunAttempts(e1, n1, start, k, total, st), RunAttempts(e2, n2, start, k, total, st))
    decreases NodeSize(n1), 2, Attempts(n1.edge) - k
  {
    hide RunSingle, OperationView, FaultsAgree, SameClass, EdgesAgree, AllAgree, Agree, RetryBackoffDelay, StreamsAgree;
    AgreeSettings(x, e1, n1, e2, n2);
    var begun := total + RetryBackoffDelay(n1.edge, k);
    SinglesRunAlike(x, e1, n1, e2, n2, start + begun, st);
    var r1, r2 := RunSingle(e1, n1, start + begun, st), RunSingle(e2, n2, start + begun, st);
    var now := begun + r1.outcome.latency;
    SameSwitches(x, r1.outcome, r2.outcome);
    if !(r1.outcome.success || r1.outcome.errorType.ContextCanceled? || k + 1 == Attempts(n1.edge)) {
      AttemptsRunAlike(x, e1, n1, e2, n2, start, k + 1, now, r1.st);
      SpansJoin(x, r1.spans, r2.spans, RunAttempts(e1, n1, start, k + 1, now, r1.st).spans,
                RunAttempts(e2, n2, start, k + 1, now, r1.st).spans);
    }
  }

  lemma ClosedAlike(x: bool, a: Edge, b: Edge, o1: Outcome, o2: Outcome, total: int)
    requires SameSettings(x, a, b) && OutcomesAgree(x, o1, o2)
    ensures OutcomesAgree(x, CloseFailure(a, o1, total), CloseFailure(b, o2, total))
  {
    hide SameClass, TimeoutFailure;
    var l := CapLatencyToTimeout(a, total);
    TimeoutsAlike(x, a, b, o1.(latency := l), o2.(latency := l));
  }

  /** Every protocol's timeout is in the same cascade class. */
  lemma TimeoutsAlike(x: bool, a: Edge, b: Edge, o1: Outcome, o2: Outcome)
    requires a.Edge? == b.Edge? && (x ==> a == b) && OutcomesAgree(x, o1, o2)
    ensures OutcomesAgree(x, TimeoutFailure(a, o1), TimeoutFailure(b, o2))
  {
    hide SameClass;
    TimeoutClasses();
  }

  lemma TimeoutClasses()
    ensures SameClass(Timeout, Timeout) && SameClass(GrpcDeadlineExceeded, GrpcDeadlineExceeded)
    ensures SameClass(Timeout, GrpcDeadlineExceeded) && SameClass(GrpcDeadlineExceeded, Timeout)
  {
  }

  lemma {:induction false} SequencesRunAlike(x: bool, e1: Env, n1: Node, e2: Env, n2: Node, start: int, st: State)
    requires StreamsAgree(e1, e2) && Agree(x, e1, n1, e2, n2)
    ensures RunsAgree(x, RunSequence(e1, n1, start, st), RunSequence(e2, n2, start, st))
    decreases NodeSize(n1), 3
  {
    hide RunAttempts, RunKids, RunFallbacks, OperationView, FaultsAgree, CloseFailure;
    AttemptsRunAlike(x, e1, n1, e2, n2, start, 0, 0, st);
    var t1, t2 := RunAttempts(e1, n1, start, 0, 0, st), RunAttempts(e2, n2, start, 0, 0, st);
    if !t1.outcome.success {
      ClosedAlike(x, n1.edge, n2.edge, t1.outcome, t2.outcome, t1.total);
      var f1, f2 := CloseFailure(n1.edge, t1.outcome, t1.total), CloseFailure(n2.edge, t2.outcome, t2.total);
      var r1, r2 := Run(f1, t1.st, []), Run(f2, t1.st, []);
      if n1.edge.Edge? && n1.edge.onFailure.Some? {
        var p1, p2 := n1.edge.onFailure.value, n2.edge.onFailure.value;
        FallbacksRunAlike(x, e1, p1.fallback, e2, p2.fallback, p1.onExhausted,
                          f1.(primaryFailed := true), f2.(primaryFailed := true), start, t1.st);
        r1 := RunFallbacks(e1, p1.fallback, p1.onExhausted, f1.(primaryFailed := true), start, t1.st);
        r2 := RunFallbacks(e2, p2.fallback, p2.onExhausted, f2.(primaryFailed := true), start, t1.st);
      }
      SpansJoin(x, t1.spans, t2.spans, r1.spans, r2.spans);
      if ShouldCascadeChildren(r1.outcome) {
        var at := start + r1.outcome.latency;
        KidsRunAlike(x, e1, n1.children, e2, n2.children, r1.outcome, r2.outcome, at, 0, r1.st);
        SpansJoin(x, t1.spans + r1.spans, t2.spans + r2.spans,
                  RunKids(e1, n1.children, r1.outcome, at, 0, r1.st).spans,
                  RunKids(e2, n2.children, r2.outcome, at, 0, r1.st).spans);
      }
    }
  }

  lemma {:induction false} FallbackRunsAlike(x: bool, e1: Env, a: Edge, e2: Env, b: Edge, start: int, st: State)
    requires StreamsAgree(e1, e2) && EdgesAgree(x, e1, a, e2, b)
    requires Dialable(e1, a) && Dialable(e2, b) ==> FaultsAgree(x, e1, FallbackNode(e1, a), e2, FallbackNode(e2, b))
    ensures RunsAgree(x, RunFallback(e1, a, start, st), RunFallback(e2, b, start, st))
    decreases 2 + EdgeSize(a), 0
  {
    hide RunNode, FaultsAgree;
    if Dialable(e1, a) {
      var n1, n2 := FallbackNode(e1, a), FallbackNode(e2, b);
      assert AllAgree(x, e1, [], e2, []);
      NodesRunAlike(x, e1, n1, e2, n2, None, None, start, st);
    }
  }

  lemma {:induction false} FallbacksRunAlike(x: bool, e1: Env, a: seq<Edge>, e2: Env, b: seq<Edge>,
                                             action: ExhaustedAction, o1: Outcome, o2: Outcome, start: int, st: State)
    requires StreamsAgree(e1, e2) && FallbacksAgree(x, e1, a, e2, b) && OutcomesAgree(x, o1, o2)
    ensures RunsAgree(x, RunFallbacks(e1, a, action, o1, start, st), RunFallbacks(e2, b, action, o2, start, st))
    decreases EdgesSize(a), 6
  {
    hide RunFallback, FaultsAgree, OperationView, EdgesAgree, Exhaust, OutcomesAgree;
    if a == [] {
      ExhaustAlike(x, action, o1, o2);
      ExactOutcomes(x, o1, o2);
    } else {
      var at := start + o1.latency;
      FallbackRunsAlike(x, e1, a[0], e2, b[0], at, st);
      var f1, f2 := RunFallback(e1, a[0], at, st), RunFallback(e2, b[0], at, st);
      EdgesAgreeShape(x, e1, a[0], e2, b[0]);
      FallbackStepAlike(x, o1, o2, f1.outcome, f2.outcome, a[0], b[0]);
      ExactOutcomes(x, f1.outcome, f2.outcome);
      if !f1.outcome.success {
        var w1, w2 := AfterFailed(o1, f1.outcome, a[0]), AfterFailed(o2, f2.outcome, b[0]);
        FallbacksRunAlike(x, e1, a[1..], e2, b[1..], action, w1, w2, start, f1.st);
        SpansJoin(x, f1.spans, f2.spans, RunFallbacks(e1, a[1..], action, w1, start, f1.st).spans,
                  RunFallbacks(e2, b[1..], action, w2, start, f1.st).spans);
      }
    }
  }

  lemma ExhaustAlike(x: bool, action: ExhaustedAction, o1: Outcome, o2: Outcome)
    requires OutcomesAgree(x, o1, o2)
    ensures OutcomesAgree(x, Exhaust(action, o1), Exhaust(action, o2))
  {
  }

  lemma FallbackStepAlike(x: bool, o1: Outcome, o2: Outcome, f1: Outcome, f2: Outcome, a: Edge, b: Edge)
    requires OutcomesAgree(x, o1, o2) && OutcomesAgree(x, f1, f2)
    requires a.Edge? == b.Edge? && (x ==> a == b)
    ensures o1.latency == o2.latency
    ensures OutcomesAgree(x, AfterFailed(o1, f1, a), AfterFailed(o2, f2, b))
    ensures f1.success ==> OutcomesAgree(x, AfterUsed(o1, f1, a), AfterUsed(o2, f2, b))
  {
  }

  lemma EdgesAgreeShape(x: bool, e1: Env, a: Edge, e2: Env, b: Edge)
    requires EdgesAgree(x, e1, a, e2, b)
    ensures a.Edge? == b.Edge? && (x ==> a == b)
  {
  }
}
