/**
 Printing a schema back as a raw document: topology/marshal.go.  Defaults are
 elided, inherited namespaces are dropped and fault targets become strings.  These
 functions are the specification; Marshaller.dfy holds the loops.
 */
module Marshal {
  import opened Wrappers
  import opened Strings
  import opened Topology
  import opened RawDocument
  import opened Tokens

  function NonZero(v: real): Option<real> {
    if v == 0.0 then None else Some(v)
  }

  function NonZeroInt(v: int): Option<int> {
    if v == 0 then None else Some(v)
  }

  /** identifyOp. */
  function IdentifyOp(s: Schema, op: Option<OpRef>): string {
    match op
    case None => "<nil>"
    case Some(r) =>
      match s.Op(r).service
      case None => "<nil>." + s.Op(r).name
      case Some(svc) => s.Svc(svc).name + "." + s.Op(r).name
  }

  // ----- Call trees

  function MarshalCallTarget(s: Schema, op: Option<OpRef>): RawCallTarget {
    match op
    case None => RawCallTarget("", "")
    case Some(r) =>
      RawCallTarget(match s.Op(r).service case None => "" case Some(svc) => s.Svc(svc).name, s.Op(r).name)
  }

  function MarshalLatency(l: LatencyDist): Option<RawLatency> {
    var distribution := if l.distribution == "" then "constant" else l.distribution;
    if distribution == "constant" && l.p50 == 0 && l.p95 == 0 then None
    else Some(RawLatency(if distribution == "constant" then "" else distribution, NonZeroInt(l.p50),
                         if l.p95 == l.p50 then None else NonZeroInt(l.p95)))
  }

  function MarshalEdge(s: Schema, e: Edge): RawCallNode
    decreases e, 0
  {
    if e.NilEdge? then EMPTY_CALL
    else
      RawCallNode(Some(MarshalCallTarget(s, e.to)), [], PrintProtocol(e.protocol), MarshalLatency(e.latency),
                  NonZero(e.errorRate), NonZeroInt(e.timeout), NonZeroInt(e.retries),
                  if e.retryBackoff == Exponential then "" else PrintBackoff(e.retryBackoff),
                  if e.retryBaseDelay == DEFAULT_RETRY_BASE_DELAY then None else NonZeroInt(e.retryBaseDelay),
                  match e.onFailure
                  case None => None
                  case Some(rp) =>
                    Some(RawRecoveryPolicy(MarshalFallbacks(s, rp.fallback),
                                           if rp.onExhausted == Propagate then "" else PrintExhausted(rp.onExhausted),
                                           rp.defaultResponse)))
  }

  function MarshalFallbacks(s: Schema, es: seq<Edge>): seq<RawCallNode>
    decreases es
  {
    if es == [] then [] else MarshalFallbacks(s, es[..|es| - 1]) + [MarshalEdge(s, es[|es| - 1])]
  }

  function MarshalCallNode(s: Schema, n: CallNode): RawCallNode
    decreases n, 0
  {
    if n.NilCall? then EMPTY_CALL
    else if n.edge.Edge? then MarshalEdge(s, n.edge)
    else EMPTY_CALL.(parallel := MarshalCallNodes(s, n.parallel))
  }

  function MarshalCallNodes(s: Schema, ns: seq<CallNode>): seq<RawCallNode>
    decreases ns
  {
    if ns == [] then [] else MarshalCallNodes(s, ns[..|ns| - 1]) + [MarshalCallNode(s, ns[|ns| - 1])]
  }

  // ----- Journey steps

  function MarshalStep(s: Schema, st: Step): RawStep
    decreases st, 0
  {
    if st.NilStep? then RawStep("", "", [])
    else
      match st.op
      case Some(_) =>
        var target := MarshalCallTarget(s, st.op);
        RawStep(target.service, target.operation, [])
      case None => RawStep("", "", MarshalSteps(s, st.parallel))
  }

  function MarshalSteps(s: Schema, sts: seq<Step>): seq<RawStep>
    decreases sts
  {
    if sts == [] then [] else MarshalSteps(s, sts[..|sts| - 1]) + [MarshalStep(s, sts[|sts| - 1])]
  }

  // ----- Telemetry

  function PrintConditionField(c: LogCondition): string {
    if c == Always then "" else PrintCondition(c)
  }

  /** A link with a value drops its delta. */
  function MarshalFaultLink(l: MetricFaultLink): RawFaultLink {
    RawFaultLink(PrintFaultKind(l.kind), if l.hasValue then None else NonZero(l.delta), if l.hasValue then Some(l.value) else None)
  }

  function MarshalLink(l: Option<MetricFaultLink>): Option<RawFaultLink> {
    match l
    case None => None
    case Some(l) => Some(MarshalFaultLink(l))
  }

  function MarshalLogEvent(ev: LogEventSpec): RawLogEvent {
    RawLogEvent(ev.name, if ev.severity == Info then "" else PrintSeverity(ev.severity), PrintConditionField(ev.condition),
                ev.body, ev.attributes)
  }

  function MarshalMetric(m: MetricSpec): RawMetric {
    RawMetric(m.name, PrintMetricType(m.typ), m.unit, NonZero(m.baseline), PrintConditionField(m.condition), m.attributes,
              MarshalLink(m.whenFault), None)
  }

  function MarshalObservable(m: ObservableMetricSpec): RawMetric {
    RawMetric(m.name, PrintMetricType(m.typ), m.unit, NonZero(m.baseline), "", m.attributes, MarshalLink(m.whenFault),
              match m.source
              case None => None
              case Some(src) => Some(RawMetricSource(src.accumulator, src.minus)))
  }

  function MarshalStateUpdate(u: StateUpdateSpec): RawStateUpdate {
    RawStateUpdate(u.key, NonZero(u.delta), PrintConditionField(u.condition), MarshalLink(u.whenFault))
  }

  function MarshalStack(st: StackSample): RawStack {
    RawStack(st.frames, st.weight)
  }

  /** A sample rate of 0 is elided like the default of 100. */
  function MarshalProfile(p: Option<ProfileSpec>): Option<RawProfile> {
    match p
    case None => None
    case Some(p) =>
      Some(RawProfile(p.enabled, if p.sampleRate == 100 then None else NonZeroInt(p.sampleRate),
                      Present(Map(MarshalStack, p.baseline)), Present(Map(MarshalStack, p.incident)),
                      match p.whenFault
                      case None => None
                      case Some(kind) => Some(PrintFaultKind(kind))))
  }

  // ----- Services and journeys

  function MarshalOperation(s: Schema, name: string, op: Option<OpRef>): RawOperation {
    match op
    case None => EMPTY_OPERATION.(name := name)
    case Some(r) =>
      var o := s.Op(r);
      RawOperation(o.name, MarshalCallNodes(s, o.calls), Present(Map(MarshalLogEvent, o.telemetry.logEvents)),
                   Present(Map(MarshalMetric, o.telemetry.metrics)), Present(Map(MarshalStateUpdate, o.telemetry.stateUpdates)),
                   MarshalProfile(o.telemetry.profile))
  }

  function MarshalOperations(s: Schema, ops: map<string, Option<OpRef>>, names: seq<string>): (ros: seq<RawOperation>)
    requires forall k | k in names :: k in ops
    ensures |ros| == |names| && forall i | 0 <= i < |names| :: ros[i] == MarshalOperation(s, names[i], ops[names[i]])
  {
    seq(|names|, i requires 0 <= i < |names| => MarshalOperation(s, names[i], ops[names[i]]))
  }

  function EffectiveNamespace(s: Schema): string {
    if s.ns == "" then DEFAULT_NAMESPACE else s.ns
  }

  ghost function MarshalService(s: Schema, ref: Option<SvcRef>): RawService {
    match ref
    case None => EMPTY_SERVICE
    case Some(r) =>
      var svc := s.Svc(r);
      RawService(if svc.ns == EffectiveNamespace(s) then "" else svc.ns, PrintServiceKind(svc.kind),
                 if svc.replicas == 1 then None else Some(svc.replicas), svc.language, svc.framework, svc.version,
                 Present(Map(MarshalObservable, svc.metrics)),
                 MarshalOperations(s, svc.operations, Ascending(svc.operations.Keys)))
  }

  function MarshalJourney(s: Schema, j: Option<Journey>): RawJourney {
    match j
    case None => EMPTY_JOURNEY
    case Some(j) => RawJourney(MarshalSteps(s, j.steps), if j.weight == 1.0 then None else Some(j.weight))
  }

  // ----- Faults

  function MarshalFaultTarget(s: Schema, t: FaultTarget): string {
    match t.kind
    case TargetNode => "node:" + (match t.service case None => "" case Some(svc) => s.Svc(svc).name)
    case TargetOperation => "operation:" + IdentifyOp(s, t.operation)
    case TargetEdge =>
      "edge:" + (if t.edge.NilEdge? then "" else IdentifyOp(s, t.edge.from) + "->" + IdentifyOp(s, t.edge.to))
  }

  function MarshalSeverity(v: SeverityParams): Option<RawSeverity> {
    if v == SeverityParams(0.0, 0.0, 0, 0.0) then None
    else Some(RawSeverity(NonZero(v.probability), NonZero(v.multiplier), NonZeroInt(v.add), NonZero(v.value)))
  }

  function MarshalPoint(p: FaultSchedulePoint): RawSchedulePoint {
    RawSchedulePoint(Some(p.at), Some(p.intensity))
  }

  function MarshalFault(s: Schema, f: FaultSpec): RawFault {
    RawFault(MarshalFaultTarget(s, f.target), PrintFaultKind(f.kind), MarshalSeverity(f.severity),
             Present(Map(MarshalPoint, f.schedule)))
  }

  function MarshalFaults(s: Schema, fs: seq<FaultSpec>): (rfs: seq<Option<RawFault>>)
    ensures |rfs| == |fs| && forall i | 0 <= i < |fs| :: rfs[i] == Some(MarshalFault(s, fs[i]))
  {
    seq(|fs|, i requires 0 <= i < |fs| => Some(MarshalFault(s, fs[i])))
  }

  // ----- The whole schema

  ghost function MarshalSchema(s: Schema): RawSchema {
    RawSchema(if s.ns == DEFAULT_NAMESPACE then "" else s.ns,
              map id | id in s.services :: Some(MarshalService(s, s.services[id])),
              map name | name in s.journeys :: Some(MarshalJourney(s, s.journeys[name])),
              MarshalFaults(s, s.faults))
  }
}
