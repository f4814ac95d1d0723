/** Equal of topology/equal.go: identifier equivalence of two schemas, each read through its own objects. */
module Equal {
  import opened Wrappers
  import opened Topology
  import opened Marshal

  function EffectiveRetryBaseDelay(e: Edge): int
    requires e.Edge?
  {
    if e.retryBaseDelay == 0 then DEFAULT_RETRY_BASE_DELAY else e.retryBaseDelay
  }

  function EffectiveServiceNamespace(svc: Service): string {
    if svc.ns == "" then DEFAULT_NAMESPACE else svc.ns
  }

  predicate EqualEdge(s: Schema, t: Schema, a: Edge, b: Edge)
    decreases a
  {
    if a.NilEdge? || b.NilEdge? then a == b
    else
      && IdentifyOp(s, a.from) == IdentifyOp(t, b.from) && IdentifyOp(s, a.to) == IdentifyOp(t, b.to)
      && a.protocol == b.protocol && a.latency == b.latency && a.errorRate == b.errorRate
      && a.timeout == b.timeout && a.retries == b.retries && a.retryBackoff == b.retryBackoff
      && EffectiveRetryBaseDelay(a) == EffectiveRetryBaseDelay(b)
      && match (a.onFailure, b.onFailure)
         case (Some(p), Some(q)) =>
           && p.onExhausted == q.onExhausted && p.defaultResponse == q.defaultResponse
           && |p.fallback| == |q.fallback|
           && forall i | 0 <= i < |p.fallback| :: EqualEdge(s, t, p.fallback[i], q.fallback[i])
         case _ => a.onFailure == b.onFailure
  }

  predicate EqualCallNode(s: Schema, t: Schema, a: CallNode, b: CallNode)
    decreases a, 0
  {
    if a.NilCall? || b.NilCall? then a == b
    else EqualEdge(s, t, a.edge, b.edge) && EqualCalls(s, t, a.parallel, b.parallel)
  }

  predicate EqualCalls(s: Schema, t: Schema, a: seq<CallNode>, b: seq<CallNode>)
    decreases a
  {
    |a| == |b| && forall i | 0 <= i < |a| :: EqualCallNode(s, t, a[i], b[i])
  }

  predicate EqualStep(s: Schema, t: Schema, a: Step, b: Step)
    decreases a, 0
  {
    if a.NilStep? || b.NilStep? then a == b
    else IdentifyOp(s, a.op) == IdentifyOp(t, b.op) && EqualSteps(s, t, a.parallel, b.parallel)
  }

  predicate EqualSteps(s: Schema, t: Schema, a: seq<Step>, b: seq<Step>)
    decreases a
  {
    |a| == |b| && forall i | 0 <= i < |a| :: EqualStep(s, t, a[i], b[i])
  }

  /** Go reads a missing map key as nil. */
  function At<T>(m: map<string, Option<T>>, key: string): Option<T> {
    if key in m then m[key] else None
  }

  predicate EqualOperation(s: Schema, t: Schema, a: Option<OpRef>, b: Option<OpRef>) {
    match (a, b)
    case (Some(p), Some(q)) =>
      IdentifyOp(s, a) == IdentifyOp(t, b) && EqualCalls(s, t, s.Op(p).calls, t.Op(q).calls) && s.Op(p).telemetry == t.Op(q).telemetry
    case _ => a == b
  }

  predicate EqualService(s: Schema, t: Schema, a: Option<SvcRef>, b: Option<SvcRef>) {
    match (a, b)
    case (Some(p), Some(q)) =>
      var x, y := s.Svc(p), t.Svc(q);
      && x.name == y.name && EffectiveServiceNamespace(x) == EffectiveServiceNamespace(y) && x.kind == y.kind
      && x.replicas == y.replicas && x.language == y.language && x.framework == y.framework && x.version == y.version
      && x.metrics == y.metrics
      && |x.operations| == |y.operations|
      && forall name | name in x.operations :: EqualOperation(s, t, x.operations[name], At(y.operations, name))
    case _ => a == b
  }

  predicate EqualJourney(s: Schema, t: Schema, a: Option<Journey>, b: Option<Journey>) {
    match (a, b)
    case (Some(p), Some(q)) => p.name == q.name && p.weight == q.weight && EqualSteps(s, t, p.steps, q.steps)
    case _ => a == b
  }

  function ServiceId(s: Schema, svc: Option<SvcRef>): string {
    match svc
    case None => ""
    case Some(r) => s.Svc(r).name
  }

  function EdgeIdentity(s: Schema, e: Edge): string {
    if e.NilEdge? then "<nil>" else IdentifyOp(s, e.from) + "->" + IdentifyOp(s, e.to)
  }

  predicate EqualFaultTarget(s: Schema, t: Schema, a: FaultTarget, b: FaultTarget) {
    && a.kind == b.kind
    && match a.kind
       case TargetNode => ServiceId(s, a.service) == ServiceId(t, b.service)
       case TargetOperation => IdentifyOp(s, a.operation) == IdentifyOp(t, b.operation)
       case TargetEdge => EdgeIdentity(s, a.edge) == EdgeIdentity(t, b.edge)
  }

  predicate EqualFault(s: Schema, t: Schema, a: FaultSpec, b: FaultSpec) {
    a.kind == b.kind && EqualFaultTarget(s, t, a.target, b.target) && a.severity == b.severity && a.schedule == b.schedule
  }

  predicate EqualSchemas(s: Schema, t: Schema) {
    && EffectiveNamespace(s) == EffectiveNamespace(t)
    && |s.services| == |t.services|
    && (forall id | id in s.services :: EqualService(s, t, s.services[id], At(t.services, id)))
    && |s.journeys| == |t.journeys|
    && (forall name | name in s.journeys :: EqualJourney(s, t, s.journeys[name], At(t.journeys, name)))
    && |s.faults| == |t.faults|
    && (forall i | 0 <= i < |s.faults| :: EqualFault(s, t, s.faults[i], t.faults[i]))
  }
}
