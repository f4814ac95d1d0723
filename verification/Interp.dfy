/**
 The journey executor of journey/executor.go, recovery.go and messaging.go as a
 function of a plan node, an environment and the state of its streams.  A run is
 an outcome, the new stream state and the forest of spans it emits.  Parallel
 branches run in index order.
 */
module Interp {
  import opened Wrappers
  import opened Topology
  import opened Plan
  import opened ExecModel

  datatype Run = Run(outcome: Outcome, st: State, spans: seq<Span>)

  /** What a loop over children leaves: accumulated latency, stream state, spans. */
  datatype Kids = Kids(total: int, st: State, spans: seq<Span>)

  datatype Attempt = Attempt(start: int, latency: int)

  /** What the retry loop leaves: the last attempt's outcome and the uncapped total. */
  datatype Tries = Tries(outcome: Outcome, total: int, st: State, spans: seq<Span>, attempts: seq<Attempt>)

  datatype Branches = Branches(outcomes: seq<Outcome>, st: State, spans: seq<Span>)

  // ----- Sizes, for termination: a fallback node is not part of the plan tree

  function EdgeSize(e: Edge): nat
    decreases e, 1
  {
    if e.NilEdge? then 0 else 1 + (if e.onFailure.Some? then EdgesSize(e.onFailure.value.fallback) else 0)
  }

  function EdgesSize(es: seq<Edge>): nat
    decreases es, 0
  {
    if es == [] then 0 else 2 + EdgeSize(es[0]) + EdgesSize(es[1..])
  }

  function NodeSize(n: Node): nat
    decreases n, 1
  {
    1 + EdgeSize(n.edge) + NodesSize(n.parallel) + NodesSize(n.children)
  }

  function NodesSize(ns: seq<Node>): nat
    decreases ns, 0
  {
    if ns == [] then 0 else 1 + NodeSize(ns[0]) + NodesSize(ns[1..])
  }

  // ----- Spans of one node

  function OperationSpanOf(node: Node, instance: int, start: int, end: int, o: Outcome, kids: seq<Span>): Span {
    Span(SpanInfo(OperationSpan, node.service, node.operation, EdgeRefOf(node.edge), instance),
         start, end, EndingOf(o), kids)
  }

  /** The PRODUCER span of a messaging edge; it draws nothing. */
  function ProducerSpans(env: Env, edge: Edge, start: int): seq<Span> {
    if edge.Edge? && edge.protocol.Messaging? && edge.from.Some? && env.schema.Op(edge.from.value).service.Some? then
      var from := env.schema.Op(edge.from.value);
      [Span(SpanInfo(ProducerSpan, from.service, from.name, Some(edge.id), 0),
            start, start + MessagingPublishLatency(edge), Ending(true, 200, NoError, false), [])]
    else []
  }

  // ----- The interpreter

  function Replicas(env: Env, node: Node): int {
    if node.service.Some? then env.schema.Svc(node.service.value).replicas else 0
  }

  function RunNode(env: Env, node: Node, parent: Option<Outcome>, start: int, st: State): (r: Run)
    decreases NodeSize(node), 4
  {
    if |node.parallel| > 0 then
      var b := RunBranches(env, node.parallel, parent, start, st);
      Run(AggregateFrom(SUCCESS, b.outcomes), b.st, b.spans)
    else if node.service.None? then RunSteps(env, node.children, parent, start, 0, SUCCESS, st)
    else if parent.Some? && !parent.value.success then RunCascade(env, node, parent.value, start, st)
    else RunSequence(env, node, start, st)
  }

  /** A skipped node: one zero-length span carrying the parent's failure, no recursion. */
  function RunCascade(env: Env, node: Node, parent: Outcome, start: int, st: State): Run {
    var (instance, st1) := RandIntN(env, Replicas(env, node), st);
    var o := Plain(false, 0, parent.statusCode, parent.errorType).(cascaded := true);
    Run(o, st1, [OperationSpanOf(node, instance, start, start, o, [])])
  }

  function RunBranches(env: Env, ns: seq<Node>, parent: Option<Outcome>, start: int, st: State): (b: Branches)
    decreases NodesSize(ns), 5
  {
    if ns == [] then Branches([], st, [])
    else
      var r := RunNode(env, ns[0], parent, start, st);
      var rest := RunBranches(env, ns[1..], parent, start, r.st);
      Branches([r.outcome] + rest.outcomes, rest.st, r.spans + rest.spans)
  }

  /** A virtual node's children: after the first failure the rest run with that failure as parent. */
  function RunSteps(env: Env, ns: seq<Node>, parent: Option<Outcome>, start: int, total: int, last: Outcome, st: State): (r: Run)
    decreases NodesSize(ns), 5
  {
    if ns == [] then Run(last.(latency := total), st, [])
    else
      var r := RunNode(env, ns[0], parent, start + total, st);
      var parent' := if r.outcome.success then parent else Some(r.outcome);
      var rest := RunSteps(env, ns[1..], parent', start, total + r.outcome.latency, r.outcome, r.st);
      Run(rest.outcome, rest.st, r.spans + rest.spans)
  }

  /** An operation's children under a live or a failed parent; a live parent's loop stops at a failure. */
  function RunKids(env: Env, ns: seq<Node>, parent: Outcome, start: int, total: int, st: State): (k: Kids)
    decreases NodesSize(ns), 5
  {
    if ns == [] then Kids(total, st, [])
    else
      var r := RunNode(env, ns[0], Some(parent), start + total, st);
      var total' := total + r.outcome.latency;
      if !r.outcome.success && parent.success then Kids(total', r.st, r.spans)
      else
        var rest := RunKids(env, ns[1..], parent, start, total', r.st);
        Kids(rest.total, rest.st, r.spans + rest.spans)
  }

  /** How an attempt opens: it stops at once, or its children run and it may be forced to fail. */
  datatype Opening = Stopped(outcome: Outcome) | Live(forced: bool, errorType: ErrorType, latency: int)

  /** The checks made once the span is open: crash, ctx.Err, timeout, disconnect, forced error. */
  function Decide(env: Env, edge: Edge, ff: Folded, effective: int, st: State): (Opening, State) {
    if ff.crashed then (Stopped(Plain(false, 0, 500, Crashed)), st)
    else
      var st1 := st.(polls := st.polls + 1);
      if env.canceled(st.polls) then (Stopped(Plain(false, 0, 0, ContextCanceled)), st1)
      else if edge.Edge? && edge.timeout > 0 && effective > edge.timeout then
        (Stopped(TimeoutFailure(edge, Plain(false, edge.timeout, 0, NoError))), st1)
      else if ff.disconnected then (Stopped(Plain(false, effective, 503, ConnectionRefused)), st1)
      else if ff.errorRate > 0.0 then
        var (u, st2) := RandFloat64(env, st1);
        (Live(u < ff.errorRate, ff.errorType, effective), st2)
      else (Live(false, ff.errorType, effective), st1)
  }

  /** Everything an attempt draws and asks before its children, with the instance that was picked. */
  function OpenAttempt(env: Env, node: Node, st: State): (Opening, int, State) {
    var (ff, st1) := FoldFaults(env, node, st);
    var (instance, st2) := RandIntN(env, Replicas(env, node), st1);
    var (base, st3) := SampleEdgeLatency(env, node.edge, st2);
    var (opening, st4) := Decide(env, node.edge, ff, base + ff.inflate, st3);
    (opening, instance, st4)
  }

  function RunSingle(env: Env, node: Node, start: int, st: State): (r: Run)
    decreases NodeSize(node), 1
  {
    var (opening, instance, st1) := OpenAttempt(env, node, st);
    var sent := ProducerSpans(env, node.edge, start);
    match opening
    case Stopped(o) => Finished(node, instance, sent, start, o, st1, [])
    case Live(forced, errorType, latency) =>
      var kids := RunKids(env, node.children, SUCCESS, start, latency, st1);
      Finished(node, instance, sent, start, AttemptOutcome(forced, errorType, kids.total), kids.st, kids.spans)
  }

  function AttemptOutcome(forced: bool, errorType: ErrorType, latency: int): Outcome {
    Plain(!forced, latency, PickStatusCode(forced, errorType),
          if !forced then NoError else if errorType.NoError? then Http(500) else errorType)
  }

  function Finished(node: Node, instance: int, sent: seq<Span>, start: int, o: Outcome, st: State, kids: seq<Span>): Run {
    Run(o, st, sent + [OperationSpanOf(node, instance, start, start + o.latency, o, kids)])
  }

  function Attempts(edge: Edge): nat {
    if edge.Edge? && edge.retries > 0 then 1 + edge.retries else 1
  }

  function RunAttempts(env: Env, node: Node, start: int, k: nat, total: int, st: State): (t: Tries)
    requires k < Attempts(node.edge)
    decreases NodeSize(node), 2, Attempts(node.edge) - k
  {
    var begun := total + RetryBackoffDelay(node.edge, k);
    var r := RunSingle(env, node, start + begun, st);
    var now := begun + r.outcome.latency;
    var tried := [Attempt(start + begun, r.outcome.latency)];
    if r.outcome.success || r.outcome.errorType.ContextCanceled? || k + 1 == Attempts(node.edge) then
      Tries(r.outcome, now, r.st, r.spans, tried)
    else
      var rest := RunAttempts(env, node, start, k + 1, now, r.st);
      Tries(rest.outcome, rest.total, rest.st, r.spans + rest.spans, tried + rest.attempts)
  }

  /** The failed sequence before recovery: capped, and relabelled when it overran. */
  function CloseFailure(edge: Edge, o: Outcome, total: int): Outcome {
    var capped := o.(latency := CapLatencyToTimeout(edge, total));
    if edge.Edge? && edge.timeout > 0 && total > edge.timeout then TimeoutFailure(edge, capped) else capped
  }

  function RunSequence(env: Env, node: Node, start: int, st: State): (r: Run)
    decreases NodeSize(node), 3
  {
    var t := RunAttempts(env, node, start, 0, 0, st);
    if t.outcome.success then Run(t.outcome.(latency := t.total), t.st, t.spans)
    else
      var failure := CloseFailure(node.edge, t.outcome, t.total);
      var recovered :=
        if node.edge.Edge? && node.edge.onFailure.Some? then
          RunFallbacks(env, node.edge.onFailure.value.fallback, node.edge.onFailure.value.onExhausted,
                       failure.(primaryFailed := true), start, t.st)
        else Run(failure, t.st, []);
      if ShouldCascadeChildren(recovered.outcome) then
        var kids := RunKids(env, node.children, recovered.outcome, start + recovered.outcome.latency, 0, recovered.st);
        Run(recovered.outcome, kids.st, t.spans + recovered.spans + kids.spans)
      else Run(recovered.outcome, recovered.st, t.spans + recovered.spans)
  }

  /** The recovery outcome after fallback fb succeeded with result f. */
  function AfterUsed(out: Outcome, f: Outcome, fb: Edge): Outcome {
    out.(latency := out.latency + f.latency, success := true, statusCode := f.statusCode, errorType := NoError,
         fallbackUsed := fb)
  }

  function AfterFailed(out: Outcome, f: Outcome, fb: Edge): Outcome {
    out.(latency := out.latency + f.latency, fallbackAttempts := out.fallbackAttempts + [fb])
  }

  function RunFallbacks(env: Env, fallbacks: seq<Edge>, action: ExhaustedAction, out: Outcome, start: int, st: State): (r: Run)
    decreases EdgesSize(fallbacks), 6
  {
    if fallbacks == [] then Run(Exhaust(action, out), st, [])
    else
      var f := RunFallback(env, fallbacks[0], start + out.latency, st);
      if f.outcome.success then Run(AfterUsed(out, f.outcome, fallbacks[0]), f.st, f.spans)
      else
        var rest := RunFallbacks(env, fallbacks[1..], action, AfterFailed(out, f.outcome, fallbacks[0]), start, f.st);
        Run(rest.outcome, rest.st, f.spans + rest.spans)
  }

  predicate Dialable(env: Env, fb: Edge) {
    fb.Edge? && fb.to.Some? && env.schema.Op(fb.to.value).service.Some?
  }

  /** The synthetic leaf node a fallback edge is executed as. */
  function FallbackNode(env: Env, fb: Edge): (n: Node)
    requires Dialable(env, fb)
    ensures NodeSize(n) == 1 + EdgeSize(fb)
  {
    var target := env.schema.Op(fb.to.value);
    Node(target.service, target.name, fb, [], [], NO_TELEMETRY)
  }

  function RunFallback(env: Env, fb: Edge, start: int, st: State): (r: Run)
    decreases 2 + EdgeSize(fb), 0
  {
    if !Dialable(env, fb) then Run(Plain(false, 0, 503, ConnectionRefused), st, [])
    else RunNode(env, FallbackNode(env, fb), None, start, st)
  }

  // ----- The loops, one turn at a time

  /** rest, with spans emitted before it. */
  ghost function After(spans: seq<Span>, rest: Run): Run {
    Run(rest.outcome, rest.st, spans + rest.spans)
  }

  /** One turn of the fallback loop. */
  lemma OneFallback(env: Env, fs: seq<Edge>, action: ExhaustedAction, out: Outcome, start: int, st: State)
    requires fs != []
    ensures RunFallbacks(env, fs, action, out, start, st)
         == (var f := RunFallback(env, fs[0], start + out.latency, st);
             if f.outcome.success then Run(AfterUsed(out, f.outcome, fs[0]), f.st, f.spans)
             else After(f.spans, RunFallbacks(env, fs[1..], action, AfterFailed(out, f.outcome, fs[0]), start, f.st)))
  {
    hide RunFallback, Exhaust;
  }

  lemma NoFallbacksLeft(env: Env, fs: seq<Edge>, action: ExhaustedAction, out: Outcome, start: int, st: State)
    requires fs == []
    ensures RunFallbacks(env, fs, action, out, start, st) == Run(Exhaust(action, out), st, [])
  {
  }

  function NextParent(parent: Option<Outcome>, o: Outcome): Option<Outcome> {
    if o.success then parent else Some(o)
  }

  /** One turn of the step loop. */
  lemma OneStep(env: Env, ns: seq<Node>, parent: Option<Outcome>, start: int, total: int, last: Outcome, st: State)
    requires ns != []
    ensures RunSteps(env, ns, parent, start, total, last, st)
         == (var r := RunNode(env, ns[0], parent, start + total, st);
             After(r.spans, RunSteps(env, ns[1..], NextParent(parent, r.outcome), start, total + r.outcome.latency, r.outcome, r.st)))
  {
    hide RunNode;
  }

  lemma NoStepsLeft(env: Env, ns: seq<Node>, parent: Option<Outcome>, start: int, total: int, last: Outcome, st: State)
    requires ns == []
    ensures RunSteps(env, ns, parent, start, total, last, st) == Run(last.(latency := total), st, [])
  {
  }

  /** One turn of the loop over children. */
  lemma OneKid(env: Env, ns: seq<Node>, parent: Outcome, start: int, total: int, st: State)
    requires ns != []
    ensures RunKids(env, ns, parent, start, total, st)
         == (var r := RunNode(env, ns[0], Some(parent), start + total, st);
             if !r.outcome.success && parent.success then Kids(total + r.outcome.latency, r.st, r.spans)
             else
               var rest := RunKids(env, ns[1..], parent, start, total + r.outcome.latency, r.st);
               rest.(spans := r.spans + rest.spans))
  {
    hide RunNode;
  }

  lemma NoKidsLeft(env: Env, ns: seq<Node>, parent: Outcome, start: int, total: int, st: State)
    requires ns == []
    ensures RunKids(env, ns, parent, start, total, st) == Kids(total, st, [])
  {
  }
}
