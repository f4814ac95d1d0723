/**
 Values of the journey executor: outcomes, spans, the environment of a run, and
 the pure decisions of journey/executor.go and journey/fault.go.

 Times and latencies are unbounded nanosecond counts; only the retry delay, whose
 shift and product leave int64 first, wraps.  Probabilities are reals.
 */
module ExecModel {
  import opened Wrappers
  import opened Topology
  import opened Plan

  // ----- Outcomes

  datatype ErrorType =
    | NoError | Timeout | ConnectionRefused | DnsFailure | Http(code: int)
    | GrpcUnavailable | GrpcDeadlineExceeded | GrpcUnauthenticated
    | DbConnectionLost | DbConstraintViolation | Crashed | CircuitOpen | RateLimited | ContextCanceled

  /** AllowedErrorTypes of journey/errors.go. */
  const ALLOWED_ERROR_TYPES: set<ErrorType> := {
    Timeout, ConnectionRefused, DnsFailure, Http(500), Http(502), Http(503), Http(504),
    GrpcUnavailable, GrpcDeadlineExceeded, GrpcUnauthenticated,
    DbConnectionLost, DbConstraintViolation, Crashed, CircuitOpen, RateLimited, ContextCanceled}

  datatype Outcome = Outcome(
    success: bool, latency: int, statusCode: int, errorType: ErrorType, cascaded: bool,
    primaryFailed: bool, fallbackAttempts: seq<Edge>, fallbackUsed: Edge,
    defaultUsed: bool, silentlySucceeded: bool)

  function Plain(success: bool, latency: int, statusCode: int, errorType: ErrorType): Outcome {
    Outcome(success, latency, statusCode, errorType, false, false, [], NilEdge, false, false)
  }

  const SUCCESS := Plain(true, 0, 200, NoError)

  // ----- Spans

  datatype SpanRole = OperationSpan | ProducerSpan

  datatype SpanInfo = SpanInfo(
    role: SpanRole, service: Option<SvcRef>, operation: string, edge: Option<EdgeRef>, instance: int)

  datatype Ending = Ending(success: bool, statusCode: int, errorType: ErrorType, cascaded: bool)

  /** A finished span with the spans begun and finished while it was open. */
  datatype Span = Span(info: SpanInfo, start: int, end: int, ending: Ending, kids: seq<Span>)

  function EndingOf(o: Outcome): Ending {
    Ending(o.success, o.statusCode, o.errorType, o.cascaded)
  }

  function EdgeRefOf(e: Edge): Option<EdgeRef> {
    if e.Edge? then Some(e.id) else None
  }

  // ----- The environment of a run

  datatype Overlay = Overlay(
    nodes: map<SvcRef, seq<FaultSpec>>, operations: map<OpRef, seq<FaultSpec>>, edges: map<EdgeRef, seq<FaultSpec>>)
  {
    function NodeFaults(r: SvcRef): seq<FaultSpec> {
      if r in nodes then nodes[r] else []
    }

    function OperationFaults(r: OpRef): seq<FaultSpec> {
      if r in operations then operations[r] else []
    }

    function EdgeFaults(r: EdgeRef): seq<FaultSpec> {
      if r in edges then edges[r] else []
    }
  }

  const EMPTY_OVERLAY := Overlay(map[], map[], map[])

  /**
   What a run reads from outside: the seeded random stream, indexed by how much of
   it has been consumed, the lognormal transform of two draws, the answers of
   ctx.Err and of the clock, and the fault intensities.
   */
  datatype Env = Env(
    schema: Schema, overlay: Overlay,
    globalIntensity: real, targetIntensity: map<string, real>,
    intn: (nat, int) -> int, float: nat -> real, lognormal: (int, int, real, real) -> int,
    canceled: nat -> bool, elapsed: nat -> int)

  /** The stream and the transform deliver what math/rand and math.Exp do. */
  ghost predicate Sane(env: Env) {
    && (forall c: nat, n | n > 1 :: 0 <= env.intn(c, n) < n)
    && (forall c: nat :: 0.0 <= env.float(c) < 1.0)
    && (forall a, b, u, v | a > 0 :: env.lognormal(a, b, u, v) >= 0)
  }

  /** Random draws consumed, ctx.Err calls made, clock readings taken. */
  datatype State = State(cursor: nat, polls: nat, readings: nat)

  function RandIntN(env: Env, n: int, st: State): (int, State) {
    if n <= 1 then (0, st) else (env.intn(st.cursor, n), st.(cursor := st.cursor + 1))
  }

  function RandFloat64(env: Env, st: State): (real, State) {
    (env.float(st.cursor), st.(cursor := st.cursor + 1))
  }

  // ----- Latency

  const DEFAULT_ENTRY_LATENCY: int := 10 * MILLISECOND

  function SampleEdgeLatency(env: Env, edge: Edge, st: State): (int, State) {
    if edge.NilEdge? then (DEFAULT_ENTRY_LATENCY, st)
    else
      var d := edge.latency;
      if d.distribution == "lognormal" then SampleLognormal(env, d.p50, d.p95, st)
      else if d.distribution == "uniform" then SampleUniform(env, d.p50, d.p95, st)
      else (d.p50, st)
  }

  function SampleLognormal(env: Env, p50: int, p95: int, st: State): (int, State) {
    if p50 <= 0 then (0, st)
    else if p95 <= p50 then (p50, st)
    else
      var (u1, st1) := RandFloat64(env, st);
      var (u2, st2) := RandFloat64(env, st1);
      (env.lognormal(p50, p95, u1, u2), st2)
  }

  function UniformOffset(u: real, width: int): int {
    (u * width as real).Floor
  }

  function SampleUniform(env: Env, p50: int, p95: int, st: State): (int, State) {
    if p95 <= p50 then (p50, st)
    else
      var (u, st1) := RandFloat64(env, st);
      (p50 + UniformOffset(u, p95 - p50), st1)
  }

  function MessagingPublishLatency(edge: Edge): int {
    if edge.Edge? && edge.latency.p50 > 0 then edge.latency.p50 / 4 else DEFAULT_ENTRY_LATENCY
  }

  // ----- Retry delays

  function Pow2(n: nat): nat {
    if n == 0 then 1 else 2 * Pow2(n - 1)
  }

  /** Two's-complement int64 truncation. */
  function Wrap64(x: int): int {
    (x + 0x8000_0000_0000_0000) % 0x1_0000_0000_0000_0000 - 0x8000_0000_0000_0000
  }

  /** 1 << n on an int64: bits shifted past the word are lost. */
  function Shl64(n: nat): int {
    if n >= 64 then 0 else Wrap64(Pow2(n))
  }

  function RetryBase(edge: Edge): int {
    if edge.NilEdge? then 0 else if edge.retryBaseDelay == 0 then DEFAULT_RETRY_BASE_DELAY else edge.retryBaseDelay
  }

  function RetryBackoffDelay(edge: Edge, retryAttempt: int): int {
    if edge.NilEdge? || retryAttempt <= 0 then 0
    else
      match edge.retryBackoff
      case Constant => RetryBase(edge)
      case Linear => Wrap64(retryAttempt * RetryBase(edge))
      case _ => Wrap64(Shl64(retryAttempt - 1) * RetryBase(edge))
  }

  // ----- Failure decisions

  function PickStatusCode(failed: bool, errorType: ErrorType): int {
    if !failed then 200
    else
      match errorType
      case Http(code) => code
      case GrpcUnavailable => 14
      case GrpcDeadlineExceeded => 4
      case GrpcUnauthenticated => 16
      case ContextCanceled => 0
      case _ => 500
  }

  function CapLatencyToTimeout(edge: Edge, latency: int): int {
    if edge.Edge? && edge.timeout > 0 && latency > edge.timeout then edge.timeout else latency
  }

  function TimeoutFailure(edge: Edge, o: Outcome): Outcome {
    if edge.Edge? && edge.protocol.GRPC? then
      o.(success := false, statusCode := 4, errorType := GrpcDeadlineExceeded)
    else
      o.(success := false, statusCode := 504, errorType := Timeout)
  }

  predicate CascadeClass(t: ErrorType) {
    t.Crashed? || t.ConnectionRefused? || t.ContextCanceled? || t.Timeout? || t.GrpcDeadlineExceeded?
  }

  predicate ShouldCascadeChildren(o: Outcome) {
    !o.success && CascadeClass(o.errorType)
  }

  /** One branch folded into the aggregate: the larger latency, and the failure if it is the first. */
  function AggregateOne(agg: Outcome, o: Outcome): Outcome {
    var slower := if o.latency > agg.latency then agg.(latency := o.latency) else agg;
    if !o.success && slower.success then
      slower.(success := false, statusCode := o.statusCode, errorType := o.errorType, cascaded := o.cascaded)
    else slower
  }

  /** The left fold of aggregateParallelOutcomes. */
  function AggregateFrom(agg: Outcome, outcomes: seq<Outcome>): Outcome
    decreases outcomes
  {
    if outcomes == [] then agg else AggregateFrom(AggregateOne(agg, outcomes[0]), outcomes[1..])
  }

  /** The outcome once every fallback has failed. */
  function Exhaust(action: ExhaustedAction, o: Outcome): Outcome {
    match action
    case ReturnDefault => o.(success := true, statusCode := 200, errorType := NoError, defaultUsed := true)
    case SucceedSilently => o.(success := true, statusCode := 200, errorType := NoError, silentlySucceeded := true)
    case _ => o.(success := false)
  }

  // ----- Faults

  datatype Folded = Folded(crashed: bool, disconnected: bool, errorRate: real, errorType: ErrorType, inflate: int)

  const NO_FAULT := Folded(false, false, 0.0, NoError, 0)

  function ClampProbability(v: real): real {
    if v < 0.0 then 0.0 else if v > 1.0 then 1.0 else v
  }

  function ScaledProbability(p: real, intensity: real): real {
    ClampProbability(p * intensity)
  }

  function OperationString(s: Schema, op: Option<OpRef>): string {
    if op.None? then ""
    else if s.Op(op.value).service.None? then "." + s.Op(op.value).name
    else s.Svc(s.Op(op.value).service.value).name + "." + s.Op(op.value).name
  }

  function FaultTargetString(s: Schema, t: FaultTarget): string {
    match t.kind
    case TargetNode => if t.service.None? then "" else "node:" + s.Svc(t.service.value).name
    case TargetOperation => if t.operation.None? then "" else "operation:" + OperationString(s, t.operation)
    case TargetEdge =>
      if t.edge.NilEdge? then ""
      else "edge:" + OperationString(s, t.edge.from) + "->" + OperationString(s, t.edge.to)
  }

  /** The step function a schedule denotes, read off by a scan that stops at the first later point. */
  function ScanSchedule(points: seq<FaultSchedulePoint>, elapsed: int, intensity: real): real {
    if points == [] || elapsed < points[0].at then intensity
    else ScanSchedule(points[1..], elapsed, points[0].intensity)
  }

  function ScheduledIntensity(points: seq<FaultSchedulePoint>, elapsed: int): real {
    var intensity := ScanSchedule(points, elapsed, 0.0);
    if intensity < 0.0 then 0.0 else intensity
  }

  function FaultIntensityFor(env: Env, spec: FaultSpec, st: State): (real, State) {
    var target := FaultTargetString(env.schema, spec.target);
    if target != "" && target in env.targetIntensity then (env.targetIntensity[target], st)
    else if |spec.schedule| > 0 then
      (ScheduledIntensity(spec.schedule, env.elapsed(st.readings)), st.(readings := st.readings + 1))
    else (env.globalIntensity, st)
  }

  function FaultActive(env: Env, spec: FaultSpec, intensity: real, st: State): (bool, State) {
    var eff := ScaledProbability(spec.severity.probability, intensity);
    if eff <= 0.0 then (false, st)
    else if eff >= 1.0 then (true, st)
    else
      var (u, st1) := RandFloat64(env, st);
      (u < eff, st1)
  }

  function SampleInflation(spec: FaultSpec, intensity: real): int {
    var add := if spec.severity.add < 0 then 0 else spec.severity.add;
    var level := if intensity < 0.0 then 0.0 else intensity;
    if spec.severity.multiplier <= 1.0 then (add as real * level).Floor
    else
      var base := add + ((spec.severity.multiplier - 1.0) * DEFAULT_ENTRY_LATENCY as real).Floor;
      (base as real * level).Floor
  }

  function DefaultFaultErrorType(s: Schema, node: Node): ErrorType {
    if node.service.Some? && (s.Svc(node.service.value).kind.Database? || s.Svc(node.service.value).kind.Cache?) then
      DbConnectionLost
    else if node.edge.Edge? && node.edge.protocol.GRPC? then GrpcUnavailable
    else Http(500)
  }

  /** A latency_inflation spec, on whichever of the three targets it sits. */
  function Inflate(env: Env, spec: FaultSpec, intensity: real, ff: Folded, st: State): (Folded, State) {
    var (active, st1) := FaultActive(env, spec, intensity, st);
    (if active then ff.(inflate := ff.inflate + SampleInflation(spec, intensity)) else ff, st1)
  }

  function NodeFault(env: Env, spec: FaultSpec, ff: Folded, st: State): (Folded, State) {
    var (intensity, st1) := FaultIntensityFor(env, spec, st);
    match spec.kind
    case Crash =>
      var (active, st2) := FaultActive(env, spec, intensity, st1);
      (if active then ff.(crashed := true) else ff, st2)
    case LatencyInflation => Inflate(env, spec, intensity, ff, st1)
    case _ => (ff, st1)
  }

  function EdgeFault(env: Env, spec: FaultSpec, ff: Folded, st: State): (Folded, State) {
    var (intensity, st1) := FaultIntensityFor(env, spec, st);
    match spec.kind
    case Disconnect =>
      var (active, st2) := FaultActive(env, spec, intensity, st1);
      (if active then ff.(disconnected := true) else ff, st2)
    case LatencyInflation => Inflate(env, spec, intensity, ff, st1)
    case _ => (ff, st1)
  }

  function OverrideRate(spec: FaultSpec, intensity: real): real {
    ScaledProbability(spec.severity.value, intensity)
  }

  function OperationFault(env: Env, node: Node, spec: FaultSpec, ff: Folded, st: State): (Folded, State) {
    var (intensity, st1) := FaultIntensityFor(env, spec, st);
    match spec.kind
    case ErrorRateOverride =>
      (ff.(errorRate := OverrideRate(spec, intensity),
           errorType := DefaultFaultErrorType(env.schema, node)), st1)
    case LatencyInflation => Inflate(env, spec, intensity, ff, st1)
    case _ => (ff, st1)
  }

  function FoldNodeFaults(env: Env, specs: seq<FaultSpec>, ff: Folded, st: State): (Folded, State) {
    if specs == [] then (ff, st)
    else
      var (ff1, st1) := NodeFault(env, specs[0], ff, st);
      FoldNodeFaults(env, specs[1..], ff1, st1)
  }

  function FoldEdgeFaults(env: Env, specs: seq<FaultSpec>, ff: Folded, st: State): (Folded, State) {
    if specs == [] then (ff, st)
    else
      var (ff1, st1) := EdgeFault(env, specs[0], ff, st);
      FoldEdgeFaults(env, specs[1..], ff1, st1)
  }

  function FoldOperationFaults(env: Env, node: Node, specs: seq<FaultSpec>, ff: Folded, st: State): (Folded, State) {
    if specs == [] then (ff, st)
    else
      var (ff1, st1) := OperationFault(env, node, specs[0], ff, st);
      FoldOperationFaults(env, node, specs[1..], ff1, st1)
  }

  function SpecsOfNode(env: Env, node: Node): seq<FaultSpec> {
    if node.service.Some? then env.overlay.NodeFaults(node.service.value) else []
  }

  function SpecsOfEdge(env: Env, node: Node): seq<FaultSpec> {
    if node.edge.Edge? then env.overlay.EdgeFaults(node.edge.id) else []
  }

  /** The faults of the operation the node's service lists under the node's operation name. */
  function SpecsOfOperation(env: Env, node: Node): seq<FaultSpec> {
    if node.service.None? then []
    else
      var table := env.schema.Svc(node.service.value).operations;
      if node.operation in table && table[node.operation].Some? then
        env.overlay.OperationFaults(table[node.operation].value)
      else []
  }

  function NativeErrorRate(env: Env, node: Node, ff: Folded): Folded {
    if node.edge.Edge? && node.edge.errorRate > 0.0 then
      ff.(errorRate := ClampProbability(node.edge.errorRate), errorType := DefaultFaultErrorType(env.schema, node))
    else ff
  }

  function FoldFaults(env: Env, node: Node, st: State): (Folded, State) {
    var (ff1, st1) := FoldNodeFaults(env, SpecsOfNode(env, node), NO_FAULT, st);
    var (ff2, st2) := FoldEdgeFaults(env, SpecsOfEdge(env, node), NativeErrorRate(env, node, ff1), st1);
    FoldOperationFaults(env, node, SpecsOfOperation(env, node), ff2, st2)
  }
}
