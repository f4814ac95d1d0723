/**
 The resolved topology of topology/types.go.

 Operations and services live in the two heap maps of Schema, are named by
 identities, and may be shared and cyclic; call trees, edges,
 fallbacks and steps are owned by one parent and are plain values.  Their
 nil pointers are the constructors NilCall, NilEdge and NilStep.  An edge carries
 its identity because the fault overlay is keyed by edge pointer.
 */
module Topology {
  import opened Wrappers

  /** Identity of a Service object; the parser allocates one per service key. */
  datatype SvcRef = SvcRef(key: string)

  /** Identity of an Operation object; the parser allocates one per key pair. */
  datatype OpRef = OpRef(svc: string, op: string)

  /** Identity of an Edge object: owning operation and position in its calls. */
  datatype EdgeRef = EdgeRef(owner: OpRef, path: seq<nat>)

  /** An opaque map[string]any payload, only ever copied and compared. */
  datatype Payload = Payload(token: int)

  datatype ServiceKind = Application | Database | ExternalAPI | Cache | Queue | InvalidServiceKind
  datatype Protocol = HTTP | GRPC | Messaging | InvalidProtocol
  datatype ExhaustedAction = Propagate | ReturnDefault | SucceedSilently | InvalidExhausted
  datatype FaultKind = LatencyInflation | ErrorRateOverride | Disconnect | Crash | InvalidFaultKind
  datatype TargetKind = TargetNode | TargetOperation | TargetEdge
  datatype BackoffPolicy = Exponential | Linear | Constant | InvalidBackoff
  datatype MetricType = Counter | Gauge | Histogram | ObservableGauge | ObservableCounter | InvalidMetricType
  datatype LogCondition = Always | OnSuccess | OnError | InvalidCondition
  datatype LogSeverity = Trace | Debug | Info | Warn | Error | Fatal | InvalidSeverity

  const DEFAULT_NAMESPACE := "xk6-otel-gen"
  const MILLISECOND: int := 1_000_000
  const DEFAULT_RETRY_BASE_DELAY: int := 100 * MILLISECOND

  datatype LatencyDist = LatencyDist(distribution: string, p50: int, p95: int)

  datatype Edge = NilEdge | Edge(
    id: EdgeRef,
    from: Option<OpRef>,
    to: Option<OpRef>,
    protocol: Protocol,
    latency: LatencyDist,
    errorRate: real,
    timeout: int,
    retries: int,
    retryBackoff: BackoffPolicy,
    retryBaseDelay: int,
    onFailure: Option<RecoveryPolicy>)

  datatype RecoveryPolicy = RecoveryPolicy(
    fallback: seq<Edge>,
    onExhausted: ExhaustedAction,
    defaultResponse: Payload)

  datatype CallNode = NilCall | CallNode(edge: Edge, parallel: seq<CallNode>)

  datatype Step = NilStep | Step(op: Option<OpRef>, parallel: seq<Step>)

  datatype Journey = Journey(name: string, steps: seq<Step>, weight: real)

  datatype MetricFaultLink = MetricFaultLink(kind: FaultKind, delta: real, value: real, hasValue: bool)

  datatype MetricSpec = MetricSpec(
    name: string, typ: MetricType, unit: string, baseline: real, condition: LogCondition,
    attributes: Payload, whenFault: Option<MetricFaultLink>)

  datatype MetricSourceSpec = MetricSourceSpec(accumulator: string, minus: string)

  datatype ObservableMetricSpec = ObservableMetricSpec(
    name: string, typ: MetricType, unit: string, baseline: real, attributes: Payload,
    whenFault: Option<MetricFaultLink>, source: Option<MetricSourceSpec>)

  datatype StateUpdateSpec = StateUpdateSpec(
    key: string, delta: real, condition: LogCondition, whenFault: Option<MetricFaultLink>)

  datatype LogEventSpec = LogEventSpec(
    name: string, severity: LogSeverity, condition: LogCondition, body: string, attributes: Payload)

  datatype StackSample = StackSample(frames: seq<string>, weight: real)

  datatype ProfileSpec = ProfileSpec(
    enabled: bool, sampleRate: int, baseline: seq<StackSample>, incident: seq<StackSample>,
    whenFault: Option<FaultKind>)

  /** The declarative telemetry an operation carries and a plan node copies. */
  datatype Telemetry = Telemetry(
    logEvents: seq<LogEventSpec>, metrics: seq<MetricSpec>,
    stateUpdates: seq<StateUpdateSpec>, profile: Option<ProfileSpec>)

  datatype Operation = Operation(
    name: string, service: Option<SvcRef>, calls: seq<CallNode>, telemetry: Telemetry)

  datatype Service = Service(
    name: string, ns: string, kind: ServiceKind, replicas: int,
    language: string, framework: string, version: string,
    operations: map<string, Option<OpRef>>, metrics: seq<ObservableMetricSpec>)

  datatype FaultTarget = FaultTarget(
    kind: TargetKind, service: Option<SvcRef>, operation: Option<OpRef>, edge: Edge)

  datatype SeverityParams = SeverityParams(probability: real, multiplier: real, add: int, value: real)

  datatype FaultSchedulePoint = FaultSchedulePoint(at: int, intensity: real)

  datatype FaultSpec = FaultSpec(
    target: FaultTarget, kind: FaultKind, severity: SeverityParams, schedule: seq<FaultSchedulePoint>)

  datatype Schema = Schema(
    ns: string,
    services: map<string, Option<SvcRef>>,
    journeys: map<string, Option<Journey>>,
    faults: seq<FaultSpec>,
    svcs: map<SvcRef, Service>,
    ops: map<OpRef, Operation>)
  {
    /** Dereferences an operation.  Go has no dangling pointers; here one reads as a bare object. */
    function Op(r: OpRef): Operation {
      if r in ops then ops[r] else Operation("", None, [], Telemetry([], [], [], None))
    }

    function Svc(r: SvcRef): Service {
      if r in svcs then svcs[r] else Service("", "", InvalidServiceKind, 0, "", "", "", map[], [])
    }
  }

  /** Primary edges of a call list with their first-level fallbacks, in visiting order. */
  function EdgesInCalls(calls: seq<CallNode>): (es: seq<Edge>)
    decreases calls, 0
  {
    if calls == [] then [] else EdgesInNode(calls[0]) + EdgesInCalls(calls[1..])
  }

  function EdgesInNode(node: CallNode): (es: seq<Edge>)
    decreases node, 1
  {
    if node.NilCall? then []
    else
      (if node.edge.NilEdge? then [] else [node.edge] + NonNil(Fallbacks(node.edge)))
      + EdgesInCalls(node.parallel)
  }

  function Fallbacks(e: Edge): seq<Edge> {
    if e.Edge? && e.onFailure.Some? then e.onFailure.value.fallback else []
  }

  function NonNil(es: seq<Edge>): seq<Edge> {
    if es == [] then [] else (if es[0].Edge? then [es[0]] else []) + NonNil(es[1..])
  }

  /** The operations the edges lead to, nil targets dropped. */
  function EdgeTargets(edges: seq<Edge>): seq<OpRef> {
    if edges == [] then []
    else (if edges[0].Edge? && edges[0].to.Some? then [edges[0].to.value] else []) + EdgeTargets(edges[1..])
  }

  function OutgoingTargets(s: Schema, op: OpRef): seq<OpRef> {
    EdgeTargets(EdgesInCalls(s.Op(op).calls))
  }

  /** A position of the services map that holds a non-nil operation. */
  datatype Slot = Slot(id: string, name: string)

  predicate IsSlot(s: Schema, slot: Slot) {
    && slot.id in s.services
    && s.services[slot.id].Some?
    && slot.name in s.Svc(s.services[slot.id].value).operations
    && s.Svc(s.services[slot.id].value).operations[slot.name].Some?
  }

  function SlotOp(s: Schema, slot: Slot): OpRef
    requires IsSlot(s, slot)
  {
    s.Svc(s.services[slot.id].value).operations[slot.name].value
  }

  ghost predicate InSchema(s: Schema, op: OpRef) {
    exists slot :: IsSlot(s, slot) && SlotOp(s, slot) == op
  }

  /** Two different positions of the services map hold the same operation object. */
  ghost predicate Aliased(s: Schema, op: OpRef) {
    exists a, b :: a != b && IsSlot(s, a) && IsSlot(s, b) && SlotOp(s, a) == op && SlotOp(s, b) == op
  }
}
