/**
 Turning a raw document into a schema: buildSchema and resolveReferences of
 topology/parse.go.  These functions are the specification; Resolver.dfy holds
 the loops.  Names are looked up in a directory of operation names by service.
 */
module Resolve {
  import opened Wrappers
  import opened Strings
  import opened Topology
  import opened RawDocument
  import opened Tokens

  datatype ParseError =
    | CallRequired | CallVariantRequired | FallbackNotEdge
    | StepRequired | StepVariantRequired
    | ServiceRequired | OperationRequired | ServiceNotFound | OperationNotFound
    | FaultRequired | TargetMalformed | OperationRefMalformed | EdgeTargetMalformed | EdgeNotFound | TargetUnsupported

  type Directory = map<string, set<string>>

  /** Values resolved so far and the errors met so far; a list fails when any element did. */
  datatype Collected<T> = Collected(values: seq<T>, errs: seq<ParseError>) {
    function Add(r: Result<T, seq<ParseError>>): Collected<T> {
      match r
      case Ok(v) => Collected(values + [v], errs)
      case Err(more) => Collected(values, errs + more)
    }
  }

  function DirectoryOf(s: Schema): Directory {
    map id | id in s.services && s.services[id].Some? :: s.Svc(s.services[id].value).operations.Keys
  }

  // ----- References

  function Lookup(dir: Directory, svc: string, op: string): (r: Result<OpRef, seq<ParseError>>)
    ensures r.Err? ==> r.error != []
  {
    if svc == "" then Err([ServiceRequired])
    else if op == "" then Err([OperationRequired])
    else if svc !in dir then Err([ServiceNotFound])
    else if op !in dir[svc] then Err([OperationNotFound])
    else Ok(OpRef(svc, op))
  }

  function ParseOperationRef(spec: string): Result<(string, string), seq<ParseError>> {
    match Cut(spec, ".")
    case Some((svc, op)) => if svc == "" || op == "" then Err([OperationRefMalformed]) else Ok((svc, op))
    case None => Err([OperationRefMalformed])
  }

  // ----- Call trees

  function ResolveLatency(rl: Option<RawLatency>): LatencyDist {
    match rl
    case None => LatencyDist("constant", 0, 0)
    case Some(l) =>
      var p50 := l.p50.GetOr(0);
      LatencyDist(if l.distribution == "" then "constant" else l.distribution, p50, l.p95.GetOr(p50))
  }

  function EdgeOf(owner: OpRef, to: OpRef, rc: RawCallNode, path: seq<nat>, policy: Option<RecoveryPolicy>): Edge
    requires rc.RawCallNode?
  {
    Edge(EdgeRef(owner, path), Some(owner), Some(to), ParseProtocol(rc.protocol), ResolveLatency(rc.latency),
         rc.errorRate.GetOr(0.0), rc.timeout.GetOr(0), rc.retries.GetOr(0), ParseBackoff(rc.retryBackoff),
         rc.retryBaseDelay.GetOr(DEFAULT_RETRY_BASE_DELAY), policy)
  }

  function ResolveCallNode(dir: Directory, owner: OpRef, rc: RawCallNode, path: seq<nat>): (r: Result<CallNode, seq<ParseError>>)
    ensures r.Err? ==> r.error != []
    decreases rc, 1
  {
    if rc.NilRawCall? then Err([CallRequired])
    else if rc.to.Some? == (rc.parallel != []) then Err([CallVariantRequired])
    else if rc.to.None? then
      var children := ResolveCallNodes(dir, owner, rc.parallel, path);
      if children.errs == [] then Ok(CallNode(NilEdge, children.values)) else Err(children.errs)
    else
      match Lookup(dir, rc.to.value.service, rc.to.value.operation)
      case Err(e) => Err(e)
      case Ok(to) =>
        match rc.onFailure
        case None => Ok(CallNode(EdgeOf(owner, to, rc, path, None), []))
        case Some(rp) =>
          var fallbacks := ResolveFallbacks(dir, owner, rp.fallback, path);
          if fallbacks.errs != [] then Err(fallbacks.errs)
          else
            var policy := RecoveryPolicy(fallbacks.values, ParseExhausted(rp.onExhausted), rp.defaultResponse);
            Ok(CallNode(EdgeOf(owner, to, rc, path, Some(policy)), []))
  }

  function ResolveCallNodes(dir: Directory, owner: OpRef, rcs: seq<RawCallNode>, path: seq<nat>): Collected<CallNode>
    decreases rcs, 0
  {
    if rcs == [] then Collected([], [])
    else
      var n := |rcs| - 1;
      ResolveCallNodes(dir, owner, rcs[..n], path).Add(ResolveCallNode(dir, owner, rcs[n], path + [n]))
  }

  /** A fallback is a call node that must come out as a single edge. */
  function AsFallback(r: Result<CallNode, seq<ParseError>>): Result<Edge, seq<ParseError>> {
    match r
    case Err(e) => Err(e)
    case Ok(node) => if node.CallNode? && node.edge.Edge? then Ok(node.edge) else Err([FallbackNotEdge])
  }

  function ResolveFallbacks(dir: Directory, owner: OpRef, rcs: seq<RawCallNode>, path: seq<nat>): Collected<Edge>
    decreases rcs, 0
  {
    if rcs == [] then Collected([], [])
    else
      var n := |rcs| - 1;
      ResolveFallbacks(dir, owner, rcs[..n], path).Add(AsFallback(ResolveCallNode(dir, owner, rcs[n], path + [n])))
  }

  // ----- Journey steps

  function ResolveStep(dir: Directory, rs: RawStep): (r: Result<Step, seq<ParseError>>)
    ensures r.Err? ==> r.error != []
    decreases rs, 1
  {
    if rs.NilRawStep? then Err([StepRequired])
    else if (rs.service != "" || rs.operation != "") == (rs.parallel != []) then Err([StepVariantRequired])
    else if rs.parallel != [] then
      var children := ResolveSteps(dir, rs.parallel);
      if children.errs == [] then Ok(Step(None, children.values)) else Err(children.errs)
    else
      match Lookup(dir, rs.service, rs.operation)
      case Err(e) => Err(e)
      case Ok(op) => Ok(Step(Some(op), []))
  }

  function ResolveSteps(dir: Directory, rss: seq<RawStep>): Collected<Step>
    decreases rss, 0
  {
    if rss == [] then Collected([], [])
    else ResolveSteps(dir, rss[..|rss| - 1]).Add(ResolveStep(dir, rss[|rss| - 1]))
  }

  // ----- Telemetry

  function ResolveFaultLink(l: RawFaultLink): MetricFaultLink {
    MetricFaultLink(ParseFaultKind(l.kind), l.delta.GetOr(0.0), l.value.GetOr(0.0), l.value.Some?)
  }

  function ResolveLink(l: Option<RawFaultLink>): Option<MetricFaultLink> {
    match l
    case None => None
    case Some(l) => Some(ResolveFaultLink(l))
  }

  function ResolveLogEvent(r: RawLogEvent): LogEventSpec {
    LogEventSpec(r.name, ParseSeverity(r.severity), ParseCondition(r.condition), r.body, r.attributes)
  }

  function ResolveMetric(r: RawMetric): MetricSpec {
    MetricSpec(r.name, ParseMetricType(r.typ), r.unit, r.baseline.GetOr(0.0), ParseCondition(r.condition), r.attributes,
               ResolveLink(r.whenFault))
  }

  function ResolveObservable(r: RawMetric): ObservableMetricSpec {
    ObservableMetricSpec(r.name, ParseMetricType(r.typ), r.unit, r.baseline.GetOr(0.0), r.attributes,
                         ResolveLink(r.whenFault),
                         match r.source
                         case None => None
                         case Some(src) => Some(MetricSourceSpec(src.accumulator, src.minus)))
  }

  function ResolveStateUpdate(r: RawStateUpdate): StateUpdateSpec {
    StateUpdateSpec(r.key, r.delta.GetOr(0.0), ParseCondition(r.condition), ResolveLink(r.whenFault))
  }

  function ResolveStack(r: RawStack): StackSample {
    StackSample(r.frames, r.weight)
  }

  function ResolveProfile(p: Option<RawProfile>): Option<ProfileSpec> {
    match p
    case None => None
    case Some(p) =>
      Some(ProfileSpec(p.enabled, p.sampleRate.GetOr(100), Map(ResolveStack, Somes(p.baseline)),
                       Map(ResolveStack, Somes(p.incident)),
                       match p.whenFault
                       case None => None
                       case Some(kind) => Some(ParseFaultKind(kind))))
  }

  function ResolveTelemetry(ro: RawOperation): Telemetry
    requires ro.RawOperation?
  {
    Telemetry(Map(ResolveLogEvent, Somes(ro.logEvents)), Map(ResolveMetric, Somes(ro.metrics)),
              Map(ResolveStateUpdate, Somes(ro.stateUpdates)), ResolveProfile(ro.profile))
  }

  // ----- Services and operations

  /** A nil list element is read as an operation with every field empty. */
  function OrEmpty(ro: RawOperation): (r: RawOperation)
    ensures r.RawOperation?
  {
    if ro.NilRawOperation? then EMPTY_OPERATION else ro
  }

  function Named(ros: seq<RawOperation>): set<string> {
    set ro | ro in ros :: OrEmpty(ro).name
  }

  /** The list element an operation name stands for: a later duplicate replaces an earlier one. */
  function LastNamed(ros: seq<RawOperation>, name: string): (r: RawOperation)
    requires name in Named(ros)
    ensures r.RawOperation? && r.name == name
  {
    if OrEmpty(ros[|ros| - 1]).name == name then OrEmpty(ros[|ros| - 1]) else LastNamed(ros[..|ros| - 1], name)
  }

  /** The call list that ends up on an operation: references are resolved for the non-nil elements only. */
  function LastCalls(ros: seq<RawOperation>, name: string): seq<RawCallNode> {
    if ros == [] then []
    else
      var last := ros[|ros| - 1];
      if last.RawOperation? && last.name == name then last.calls else LastCalls(ros[..|ros| - 1], name)
  }

  function ServiceAt(raw: RawSchema, id: string): RawService
    requires id in raw.services
  {
    raw.services[id].GetOr(EMPTY_SERVICE)
  }

  function NamespaceOf(raw: RawSchema): string {
    if raw.ns == "" then DEFAULT_NAMESPACE else raw.ns
  }

  function ServiceOf(raw: RawSchema, id: string): Service
    requires id in raw.services
  {
    var rs := ServiceAt(raw, id);
    Service(id, if rs.ns == "" then NamespaceOf(raw) else rs.ns, ParseServiceKind(rs.kind), rs.replicas.GetOr(1),
            rs.language, rs.framework, rs.version,
            map name | name in Named(rs.operations) :: Some(OpRef(id, name)),
            Map(ResolveObservable, Somes(rs.metrics)))
  }

  function OperationOf(raw: RawSchema, ref: OpRef): Operation
    requires ref in AllRefs(raw)
  {
    Operation(ref.op, Some(SvcRef(ref.svc)), [], ResolveTelemetry(LastNamed(ServiceAt(raw, ref.svc).operations, ref.op)))
  }

  function AllRefs(raw: RawSchema): set<OpRef> {
    set id, name | id in raw.services && name in Named(ServiceAt(raw, id).operations) :: OpRef(id, name)
  }

  function AllServices(raw: RawSchema): set<SvcRef> {
    set id | id in raw.services :: SvcRef(id)
  }

  /** buildSchema: every service and operation, references still unresolved. */
  function Built(raw: RawSchema): Schema {
    Schema(NamespaceOf(raw),
           map id | id in raw.services :: Some(SvcRef(id)),
           map[], [],
           map svc: SvcRef | svc in AllServices(raw) :: ServiceOf(raw, svc.key),
           map ref: OpRef | ref in AllRefs(raw) :: OperationOf(raw, ref))
  }

  // ----- References of the whole document

  function CallsOf(raw: RawSchema, dir: Directory, ref: OpRef): Collected<CallNode>
    requires ref in AllRefs(raw)
  {
    ResolveCallNodes(dir, ref, LastCalls(ServiceAt(raw, ref.svc).operations, ref.op), [])
  }

  /** Every non-nil operation entry, replaced duplicates included, must resolve. */
  predicate CallsResolve(raw: RawSchema, dir: Directory) {
    forall id | id in raw.services :: OperationsResolve(ServiceAt(raw, id).operations, dir, id)
  }

  predicate OperationsResolve(ros: seq<RawOperation>, dir: Directory, id: string) {
    forall k | 0 <= k < |ros| :: ros[k].RawOperation? ==> ResolveCallNodes(dir, OpRef(id, ros[k].name), ros[k].calls, []).errs == []
  }

  function JourneyAt(raw: RawSchema, name: string): RawJourney
    requires name in raw.journeys
  {
    raw.journeys[name].GetOr(EMPTY_JOURNEY)
  }

  function JourneyOf(raw: RawSchema, dir: Directory, name: string): Journey
    requires name in raw.journeys
  {
    Journey(name, ResolveSteps(dir, JourneyAt(raw, name).steps).values, JourneyAt(raw, name).weight.GetOr(1.0))
  }

  predicate JourneysResolve(raw: RawSchema, dir: Directory) {
    forall name | name in raw.journeys :: ResolveSteps(dir, JourneyAt(raw, name).steps).errs == []
  }

  // ----- Faults

  /** The first edge between two operations in visiting order. */
  function FirstMatch(edges: seq<Edge>, from: OpRef, to: OpRef): Edge {
    if edges == [] then NilEdge
    else if edges[0].Edge? && edges[0].from == Some(from) && edges[0].to == Some(to) then edges[0]
    else FirstMatch(edges[1..], from, to)
  }

  function CallsIn(ops: map<OpRef, Operation>, op: OpRef): seq<CallNode> {
    if op in ops then ops[op].calls else []
  }

  function ResolveEdgeTarget(dir: Directory, ops: map<OpRef, Operation>, rest: string): Result<FaultTarget, seq<ParseError>> {
    match Cut(rest, "->")
    case None => Err([EdgeTargetMalformed])
    case Some((fromSpec, toSpec)) =>
      if fromSpec == "" || toSpec == "" then Err([EdgeTargetMalformed])
      else
        var fromRef :- ParseOperationRef(fromSpec);
        var toRef :- ParseOperationRef(toSpec);
        var from :- Lookup(dir, fromRef.0, fromRef.1);
        var to :- Lookup(dir, toRef.0, toRef.1);
        var edge := FirstMatch(EdgesInCalls(CallsIn(ops, from)), from, to);
        if edge.NilEdge? then Err([EdgeNotFound]) else Ok(FaultTarget(TargetEdge, None, None, edge))
  }

  function ResolveFaultTarget(dir: Directory, ops: map<OpRef, Operation>, spec: string): Result<FaultTarget, seq<ParseError>> {
    match Cut(spec, ":")
    case None => Err([TargetMalformed])
    case Some((kind, rest)) =>
      if rest == "" then Err([TargetMalformed])
      else if kind == "node" then
        if rest in dir then Ok(FaultTarget(TargetNode, Some(SvcRef(rest)), None, NilEdge)) else Err([ServiceNotFound])
      else if kind == "operation" then
        var ref :- ParseOperationRef(rest);
        var op :- Lookup(dir, ref.0, ref.1);
        Ok(FaultTarget(TargetOperation, None, Some(op), NilEdge))
      else if kind == "edge" then ResolveEdgeTarget(dir, ops, rest)
      else Err([TargetUnsupported])
  }

  function ResolveSeverity(rs: Option<RawSeverity>): SeverityParams {
    match rs
    case None => SeverityParams(0.0, 0.0, 0, 0.0)
    case Some(r) => SeverityParams(r.probability.GetOr(0.0), r.multiplier.GetOr(0.0), r.add.GetOr(0), r.value.GetOr(0.0))
  }

  /** A nil schedule point stands for full intensity from the start. */
  function ResolvePoint(p: Option<RawSchedulePoint>): FaultSchedulePoint {
    match p
    case None => FaultSchedulePoint(0, 1.0)
    case Some(p) => FaultSchedulePoint(p.at.GetOr(0), p.intensity.GetOr(1.0))
  }

  function ResolveFault(dir: Directory, ops: map<OpRef, Operation>, rf: Option<RawFault>): Result<FaultSpec, seq<ParseError>> {
    match rf
    case None => Err([FaultRequired])
    case Some(f) =>
      var target :- ResolveFaultTarget(dir, ops, f.target);
      Ok(FaultSpec(target, ParseFaultKind(f.kind), ResolveSeverity(f.severity), Map(ResolvePoint, f.schedule)))
  }

  function ResolveFaults(dir: Directory, ops: map<OpRef, Operation>, rfs: seq<Option<RawFault>>): Collected<FaultSpec> {
    if rfs == [] then Collected([], [])
    else ResolveFaults(dir, ops, rfs[..|rfs| - 1]).Add(ResolveFault(dir, ops, rfs[|rfs| - 1]))
  }

  // ----- The whole document

  function Referenced(raw: RawSchema): Schema {
    var built := Built(raw);
    var dir := DirectoryOf(built);
    built.(ops := map ref: OpRef | ref in AllRefs(raw) :: OperationOf(raw, ref).(calls := CallsOf(raw, dir, ref).values),
           journeys := map name | name in raw.journeys :: Some(JourneyOf(raw, dir, name)))
  }

  /** What Parse hands to Validate: no schema when any reference failed to resolve. */
  function ResolveSchema(raw: RawSchema): Option<Schema> {
    var dir := DirectoryOf(Built(raw));
    var referenced := Referenced(raw);
    var faults := ResolveFaults(dir, referenced.ops, raw.faults);
    if CallsResolve(raw, dir) && JourneysResolve(raw, dir) && faults.errs == [] then Some(referenced.(faults := faults.values))
    else None
  }
}
