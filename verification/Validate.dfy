/**
 Validate of topology/validate.go.  Each rule is a predicate saying what a clean
 report means; the validators that walk trees and lists are methods that append
 to a list of reports, proved to return none exactly when the predicate holds.
 Report texts and paths are not modelled.
 */
module Validate {
  import opened Wrappers
  import opened Topology
  import opened CallGraph
  import opened DagCheck

  datatype Rule =
    | MapKeyConsistency | BackPointer | OrphanReference | CycleDetected
    | JourneyReachability | FaultTargetShape | CallVariant | RecoveryOwnership | DomainRange

  // ----- R-STR-1 and R-STR-2

  predicate KeysConsistent(s: Schema) {
    forall id | id in s.services :: s.services[id].Some? && s.Svc(s.services[id].value).name == id
  }

  predicate BackPointersOk(s: Schema) {
    forall id, name | id in s.services && s.services[id].Some? && name in s.Svc(s.services[id].value).operations ::
      var entry := s.Svc(s.services[id].value).operations[name];
      entry.Some? && s.Op(entry.value).service == s.services[id] && s.Op(entry.value).name == name
  }

  lemma NotAliased(s: Schema, x: OpRef)
    requires KeysConsistent(s) && BackPointersOk(s)
    ensures !Aliased(s, x)
  {
    forall a, b | IsSlot(s, a) && IsSlot(s, b) && SlotOp(s, a) == x && SlotOp(s, b) == x
      ensures a == b
    {
      assert s.services[a.id] == s.Op(x).service == s.services[b.id];
    }
  }

  method ValidateMapKeyConsistency(s: Schema) returns (errs: seq<Rule>)
    ensures errs == [] <==> KeysConsistent(s)
  {
    errs := [];
    var ids := s.services.Keys;
    while ids != {}
      invariant ids <= s.services.Keys
      invariant errs == [] <==> forall id | id in s.services && id !in ids ::
          s.services[id].Some? && s.Svc(s.services[id].value).name == id
    {
      var id :| id in ids;
      ids := ids - {id};
      if s.services[id].None? {
        errs := errs + [MapKeyConsistency];
      } else if s.Svc(s.services[id].value).name != id {
        errs := errs + [MapKeyConsistency];
      }
    }
  }

  predicate EntryOk(s: Schema, id: string, name: string)
    requires id in s.services && s.services[id].Some? && name in s.Svc(s.services[id].value).operations
  {
    var entry := s.Svc(s.services[id].value).operations[name];
    entry.Some? && s.Op(entry.value).service == s.services[id] && s.Op(entry.value).name == name
  }

  method ValidateBackPointers(s: Schema) returns (errs: seq<Rule>)
    ensures errs == [] <==> BackPointersOk(s)
  {
    errs := [];
    var ids := s.services.Keys;
    while ids != {}
      invariant ids <= s.services.Keys
      invariant errs == [] <==> forall id, name | id in s.services && id !in ids && s.services[id].Some?
                                  && name in s.Svc(s.services[id].value).operations :: EntryOk(s, id, name)
    {
      var id :| id in ids;
      if s.services[id].Some? {
        var table := s.Svc(s.services[id].value).operations;
        var names := table.Keys;
        var before := errs;
        while names != {}
          invariant names <= table.Keys
          invariant errs == [] <==> before == [] && forall name | name in table && name !in names :: EntryOk(s, id, name)
        {
          var name :| name in names;
          names := names - {name};
          if table[name].None? {
            errs := errs + [BackPointer];
          } else {
            if s.Op(table[name].value).service != s.services[id] { errs := errs + [BackPointer]; }
            if s.Op(table[name].value).name != name { errs := errs + [BackPointer]; }
          }
        }
      }
      ids := ids - {id};
    }
    assert errs == [] <==> BackPointersOk(s) by {
      if BackPointersOk(s) {
        forall id, name | id in s.services && s.services[id].Some? && name in s.Svc(s.services[id].value).operations
          ensures EntryOk(s, id, name)
        {
        }
      }
      if errs == [] {
        forall id, name | id in s.services && s.services[id].Some? && name in s.Svc(s.services[id].value).operations
          ensures EntryOk(s, id, name)
        {
        }
      }
    }
  }

  // ----- R-STR-3

  predicate EndpointsListed(e: Edge, listed: set<OpRef>) {
    e.Edge? && e.from.Some? && e.from.value in listed && e.to.Some? && e.to.value in listed
  }

  predicate EdgeListed(e: Edge, listed: set<OpRef>) {
    e.Edge? ==> EndpointsListed(e, listed) && forall i | 0 <= i < |Fallbacks(e)| :: EndpointsListed(Fallbacks(e)[i], listed)
  }

  predicate NoOrphans(nodes: seq<CallNode>, listed: set<OpRef>)
    decreases nodes
  {
    forall i | 0 <= i < |nodes| ::
      nodes[i].CallNode? ==> EdgeListed(nodes[i].edge, listed) && NoOrphans(nodes[i].parallel, listed)
  }

  method ValidateNoOrphanCallReferences(nodes: seq<CallNode>, listed: set<OpRef>) returns (errs: seq<Rule>)
    ensures errs == [] <==> NoOrphans(nodes, listed)
    decreases nodes
  {
    errs := [];
    for i := 0 to |nodes|
      invariant errs == [] <==> NoOrphans(nodes[..i], listed)
    {
      assert nodes[..i + 1] == nodes[..i] + [nodes[i]];
      if nodes[i].CallNode? {
        if nodes[i].edge.Edge? {
          if !EndpointsListed(nodes[i].edge, listed) { errs := errs + [OrphanReference]; }
          var fallbacks := Fallbacks(nodes[i].edge);
          var before := errs;
          for j := 0 to |fallbacks|
            invariant errs == [] <==> before == [] && forall k | 0 <= k < j :: EndpointsListed(fallbacks[k], listed)
          {
            if !EndpointsListed(fallbacks[j], listed) { errs := errs + [OrphanReference]; }
          }
        }
        var inner := ValidateNoOrphanCallReferences(nodes[i].parallel, listed);
        errs := errs + inner;
      }
    }
    assert nodes[..|nodes|] == nodes;
  }

  // ----- R-STR-5

  predicate StepsReachable(steps: seq<Step>, listed: set<OpRef>)
    decreases steps
  {
    forall i | 0 <= i < |steps| ::
      && steps[i].Step?
      && (steps[i].op.Some? <==> steps[i].parallel == [])
      && (steps[i].op.Some? ==> steps[i].op.value in listed)
      && StepsReachable(steps[i].parallel, listed)
  }

  method ValidateStepsReachable(steps: seq<Step>, listed: set<OpRef>) returns (errs: seq<Rule>)
    ensures errs == [] <==> StepsReachable(steps, listed)
    decreases steps
  {
    errs := [];
    for i := 0 to |steps|
      invariant errs == [] <==> StepsReachable(steps[..i], listed)
    {
      assert steps[..i + 1] == steps[..i] + [steps[i]];
      if steps[i].NilStep? {
        errs := errs + [JourneyReachability];
      } else {
        var hasOp, hasParallel := steps[i].op.Some?, |steps[i].parallel| > 0;
        if hasOp == hasParallel { errs := errs + [JourneyReachability]; }
        if hasOp && steps[i].op.value !in listed { errs := errs + [JourneyReachability]; }
        if hasParallel {
          var inner := ValidateStepsReachable(steps[i].parallel, listed);
          errs := errs + inner;
        }
      }
    }
    assert steps[..|steps|] == steps;
  }

  // ----- R-STR-6

  /** Identities of the listed operations' primary and first-level fallback edges. */
  function EdgeIds(s: Schema, listed: set<OpRef>): set<EdgeRef> {
    set op, e | op in listed && e in EdgesInCalls(s.Op(op).calls) && e.Edge? :: e.id
  }

  /** Exactly the pointer the kind asks for is set, and it points into the schema. */
  predicate FaultTargetOk(s: Schema, listed: set<OpRef>, t: FaultTarget) {
    match t.kind
    case TargetNode =>
      t.service.Some? && t.operation.None? && t.edge.NilEdge? && t.service in s.services.Values
    case TargetOperation =>
      t.service.None? && t.operation.Some? && t.edge.NilEdge? && t.operation.value in listed
    case TargetEdge =>
      t.service.None? && t.operation.None? && t.edge.Edge? && t.edge.id in EdgeIds(s, listed)
  }

  method ValidateFaultTarget(s: Schema, listed: set<OpRef>, t: FaultTarget) returns (errs: seq<Rule>)
    ensures errs == [] <==> FaultTargetOk(s, listed, t)
  {
    errs := [];
    var setCount := 0;
    if t.service.Some? { setCount := setCount + 1; }
    if t.operation.Some? { setCount := setCount + 1; }
    if t.edge.Edge? { setCount := setCount + 1; }
    if setCount != 1 {
      return [FaultTargetShape];
    }
    match t.kind {
      case TargetNode =>
        if t.service.None? || t.service !in s.services.Values { errs := [FaultTargetShape]; }
      case TargetOperation =>
        if t.operation.None? || t.operation.value !in listed { errs := [FaultTargetShape]; }
      case TargetEdge =>
        if t.edge.NilEdge? || t.edge.id !in EdgeIds(s, listed) { errs := [FaultTargetShape]; }
    }
  }

  // ----- R-STR-7

  predicate CallVariantsOk(nodes: seq<CallNode>)
    decreases nodes
  {
    forall i | 0 <= i < |nodes| ::
      nodes[i].CallNode? && (nodes[i].edge.Edge? <==> nodes[i].parallel == []) && CallVariantsOk(nodes[i].parallel)
  }

  method ValidateCallNodeVariantList(nodes: seq<CallNode>) returns (errs: seq<Rule>)
    ensures errs == [] <==> CallVariantsOk(nodes)
    decreases nodes
  {
    errs := [];
    for i := 0 to |nodes|
      invariant errs == [] <==> CallVariantsOk(nodes[..i])
    {
      assert nodes[..i + 1] == nodes[..i] + [nodes[i]];
      if nodes[i].NilCall? {
        errs := errs + [CallVariant];
      } else {
        if nodes[i].edge.Edge? == (|nodes[i].parallel| > 0) { errs := errs + [CallVariant]; }
        if |nodes[i].parallel| > 0 {
          var inner := ValidateCallNodeVariantList(nodes[i].parallel);
          errs := errs + inner;
        }
      }
    }
    assert nodes[..|nodes|] == nodes;
  }

  // ----- R-STR-8

  /** Every fallback, at any depth, is non-nil and starts where its owner starts. */
  predicate OwnershipOk(e: Edge)
    decreases e
  {
    e.Edge? && e.onFailure.Some? ==>
      forall i | 0 <= i < |e.onFailure.value.fallback| ::
        var fb := e.onFailure.value.fallback[i];
        fb.Edge? && fb.from == e.from && OwnershipOk(fb)
  }

  method ValidateRecoveryPolicyOwnership(e: Edge) returns (errs: seq<Rule>)
    ensures errs == [] <==> OwnershipOk(e)
    decreases e
  {
    errs := [];
    if e.NilEdge? || e.onFailure.None? {
      return;
    }
    var fallbacks := e.onFailure.value.fallback;
    for i := 0 to |fallbacks|
      invariant errs == [] <==> forall k | 0 <= k < i ::
          fallbacks[k].Edge? && fallbacks[k].from == e.from && OwnershipOk(fallbacks[k])
    {
      if fallbacks[i].NilEdge? {
        errs := errs + [RecoveryOwnership];
      } else {
        if fallbacks[i].from != e.from { errs := errs + [RecoveryOwnership]; }
        var inner := ValidateRecoveryPolicyOwnership(fallbacks[i]);
        errs := errs + inner;
      }
    }
  }

  // ----- Domain ranges

  /** len of a Go string: the bytes of its UTF-8 form. */
  function ByteLength(s: string): nat {
    if s == "" then 0
    else
      var code := s[0] as int;
      (if code < 0x80 then 1 else if code < 0x800 then 2 else if code < 0x1_0000 then 3 else 4) + ByteLength(s[1..])
  }

  predicate ShortName(name: string) {
    0 < ByteLength(name) <= 120
  }

  predicate LinkOk(link: Option<MetricFaultLink>) {
    link.Some? ==> !link.value.kind.InvalidFaultKind?
  }

  predicate ObservableMetricOk(m: ObservableMetricSpec) {
    && ShortName(m.name)
    && (m.typ.ObservableGauge? || m.typ.ObservableCounter?)
    && LinkOk(m.whenFault)
    && (m.source.Some? ==>
          m.source.value.accumulator != "" && (m.source.value.minus != "" ==> m.typ.ObservableGauge?))
  }

  predicate LogEventOk(ev: LogEventSpec) {
    ShortName(ev.name) && !ev.severity.InvalidSeverity? && !ev.condition.InvalidCondition?
  }

  predicate MetricOk(m: MetricSpec) {
    && ShortName(m.name)
    && (m.typ.Counter? || m.typ.Gauge? || m.typ.Histogram?)
    && !m.condition.InvalidCondition?
    && LinkOk(m.whenFault)
  }

  predicate StateUpdateOk(u: StateUpdateSpec) {
    u.key != "" && !u.condition.InvalidCondition? && LinkOk(u.whenFault)
  }

  predicate StackOk(stack: StackSample) {
    stack.frames != [] && stack.weight >= 0.0
  }

  predicate ProfileOk(p: ProfileSpec) {
    p.enabled ==>
      && p.baseline != [] && p.sampleRate > 0
      && (forall i | 0 <= i < |p.baseline| :: StackOk(p.baseline[i]))
      && (forall i | 0 <= i < |p.incident| :: StackOk(p.incident[i]))
      && (p.whenFault.Some? ==> !p.whenFault.value.InvalidFaultKind? && p.incident != [])
  }

  predicate TelemetryOk(t: Telemetry) {
    && (forall i | 0 <= i < |t.logEvents| :: LogEventOk(t.logEvents[i]))
    && (forall i | 0 <= i < |t.metrics| :: MetricOk(t.metrics[i]))
    && (forall i | 0 <= i < |t.stateUpdates| :: StateUpdateOk(t.stateUpdates[i]))
    && (t.profile.Some? ==> ProfileOk(t.profile.value))
  }

  predicate ServiceDomainOk(svc: Service) {
    && svc.replicas >= 1
    && !svc.kind.InvalidServiceKind?
    && |svc.operations| > 0
    && (forall i | 0 <= i < |svc.metrics| :: ObservableMetricOk(svc.metrics[i]))
  }

  predicate OperationDomainOk(op: Operation) {
    ShortName(op.name) && TelemetryOk(op.telemetry)
  }

  predicate ProbabilityOk(v: real) {
    0.0 <= v <= 1.0
  }

  predicate EdgeDomainOk(e: Edge) {
    e.Edge? ==>
      && !e.protocol.InvalidProtocol?
      && ProbabilityOk(e.errorRate)
      && e.timeout >= 0 && e.retries >= 0 && e.retryBaseDelay >= 0
      && e.latency.p50 >= 0 && e.latency.p95 >= e.latency.p50
      && e.latency.distribution in ["constant", "lognormal", "normal", "exponential"]
      && !e.retryBackoff.InvalidBackoff?
      && (e.onFailure.Some? ==> !e.onFailure.value.onExhausted.InvalidExhausted?)
  }

  method ValidateEdgeDomain(e: Edge) returns (errs: seq<Rule>)
    ensures errs == [] <==> EdgeDomainOk(e)
  {
    errs := [];
    if e.NilEdge? {
      return;
    }
    if e.protocol !in {HTTP, GRPC, Messaging} { errs := errs + [DomainRange]; }
    if e.errorRate < 0.0 || e.errorRate > 1.0 { errs := errs + [DomainRange]; }
    if e.timeout < 0 { errs := errs + [DomainRange]; }
    if e.retries < 0 { errs := errs + [DomainRange]; }
    if e.retryBaseDelay < 0 { errs := errs + [DomainRange]; }
    if e.latency.p50 < 0 { errs := errs + [DomainRange]; }
    if e.latency.p95 < e.latency.p50 { errs := errs + [DomainRange]; }
    var d := e.latency.distribution;
    if d != "constant" && d != "lognormal" && d != "normal" && d != "exponential" { errs := errs + [DomainRange]; }
    if e.retryBackoff !in {Exponential, Linear, Constant} { errs := errs + [DomainRange]; }
    if e.onFailure.Some? && e.onFailure.value.onExhausted !in {Propagate, ReturnDefault, SucceedSilently} {
      errs := errs + [DomainRange];
    }
  }

  method ValidateName(name: string) returns (errs: seq<Rule>)
    ensures errs == [] <==> ShortName(name)
  {
    errs := [];
    if name == "" { errs := errs + [DomainRange]; }
    if ByteLength(name) > 120 { errs := errs + [DomainRange]; }
  }

  method ValidateMetricFaultLink(link: Option<MetricFaultLink>) returns (errs: seq<Rule>)
    ensures errs == [] <==> LinkOk(link)
  {
    errs := [];
    if link.Some? && link.value.kind !in {LatencyInflation, ErrorRateOverride, Disconnect, Crash} {
      errs := errs + [DomainRange];
    }
  }

  method ValidateObservableMetricSpec(m: ObservableMetricSpec) returns (errs: seq<Rule>)
    ensures errs == [] <==> ObservableMetricOk(m)
  {
    errs := ValidateName(m.name);
    if m.typ != ObservableGauge && m.typ != ObservableCounter { errs := errs + [DomainRange]; }
    var link := ValidateMetricFaultLink(m.whenFault);
    errs := errs + link;
    if m.source.Some? {
      if m.source.value.accumulator == "" { errs := errs + [DomainRange]; }
      if m.source.value.minus != "" && m.typ != ObservableGauge { errs := errs + [DomainRange]; }
    }
  }

  method ValidateLogEvent(ev: LogEventSpec) returns (errs: seq<Rule>)
    ensures errs == [] <==> LogEventOk(ev)
  {
    errs := ValidateName(ev.name);
    if ev.severity !in {Trace, Debug, Info, Warn, Error, Fatal} { errs := errs + [DomainRange]; }
    if ev.condition !in {Always, OnSuccess, OnError} { errs := errs + [DomainRange]; }
  }

  method ValidateMetric(m: MetricSpec) returns (errs: seq<Rule>)
    ensures errs == [] <==> MetricOk(m)
  {
    errs := ValidateName(m.name);
    if m.typ !in {Counter, Gauge, Histogram} { errs := errs + [DomainRange]; }
    if m.condition !in {Always, OnSuccess, OnError} { errs := errs + [DomainRange]; }
    var link := ValidateMetricFaultLink(m.whenFault);
    errs := errs + link;
  }

  method ValidateStateUpdate(u: StateUpdateSpec) returns (errs: seq<Rule>)
    ensures errs == [] <==> StateUpdateOk(u)
  {
    errs := [];
    if u.key == "" { errs := errs + [DomainRange]; }
    if u.condition !in {Always, OnSuccess, OnError} { errs := errs + [DomainRange]; }
    var link := ValidateMetricFaultLink(u.whenFault);
    errs := errs + link;
  }

  method ValidateStacks(stacks: seq<StackSample>) returns (errs: seq<Rule>)
    ensures errs == [] <==> forall i | 0 <= i < |stacks| :: StackOk(stacks[i])
  {
    errs := [];
    for i := 0 to |stacks|
      invariant errs == [] <==> forall k | 0 <= k < i :: StackOk(stacks[k])
    {
      if |stacks[i].frames| == 0 { errs := errs + [DomainRange]; }
      if stacks[i].weight < 0.0 { errs := errs + [DomainRange]; }
    }
  }

  method ValidateProfile(p: ProfileSpec) returns (errs: seq<Rule>)
    ensures errs == [] <==> ProfileOk(p)
  {
    errs := [];
    if !p.enabled {
      return;
    }
    if |p.baseline| == 0 { errs := errs + [DomainRange]; }
    if p.sampleRate <= 0 { errs := errs + [DomainRange]; }
    var baseline := ValidateStacks(p.baseline);
    var incident := ValidateStacks(p.incident);
    errs := errs + baseline + incident;
    if p.whenFault.Some? {
      if p.whenFault.value !in {LatencyInflation, ErrorRateOverride, Disconnect, Crash} { errs := errs + [DomainRange]; }
      if |p.incident| == 0 { errs := errs + [DomainRange]; }
    }
  }

  /** The name of an operation and everything its telemetry declares. */
  method ValidateOperationDomain(op: Operation) returns (errs: seq<Rule>)
    ensures errs == [] <==> OperationDomainOk(op)
  {
    hide ShortName, LogEventOk, MetricOk, StateUpdateOk, ProfileOk;
    var t := op.telemetry;
    errs := ValidateName(op.name);
    var named := errs == [];
    for i := 0 to |t.logEvents|
      invariant errs == [] <==> named && forall k | 0 <= k < i :: LogEventOk(t.logEvents[k])
    {
      var more := ValidateLogEvent(t.logEvents[i]);
      errs := errs + more;
    }
    var logged := errs == [];
    for i := 0 to |t.metrics|
      invariant errs == [] <==> logged && forall k | 0 <= k < i :: MetricOk(t.metrics[k])
    {
      var more := ValidateMetric(t.metrics[i]);
      errs := errs + more;
    }
    var measured := errs == [];
    for i := 0 to |t.stateUpdates|
      invariant errs == [] <==> measured && forall k | 0 <= k < i :: StateUpdateOk(t.stateUpdates[k])
    {
      var more := ValidateStateUpdate(t.stateUpdates[i]);
      errs := errs + more;
    }
    if t.profile.Some? {
      var more := ValidateProfile(t.profile.value);
      errs := errs + more;
    }
  }

  method ValidateServiceDomain(svc: Service) returns (errs: seq<Rule>)
    ensures errs == [] <==> ServiceDomainOk(svc)
  {
    errs := [];
    if svc.replicas < 1 { errs := errs + [DomainRange]; }
    if svc.kind !in {Application, Database, ExternalAPI, Cache, Queue} { errs := errs + [DomainRange]; }
    if |svc.operations| == 0 { errs := errs + [DomainRange]; }
    var before := errs;
    for i := 0 to |svc.metrics|
      invariant errs == [] <==> before == [] && forall k | 0 <= k < i :: ObservableMetricOk(svc.metrics[k])
    {
      var more := ValidateObservableMetricSpec(svc.metrics[i]);
      errs := errs + more;
    }
  }

  ghost predicate ScheduleOk(points: seq<FaultSchedulePoint>) {
    && (forall i | 0 <= i < |points| :: points[i].at >= 0 && points[i].intensity >= 0.0)
    && (forall i, j | 0 <= i < j < |points| :: points[i].at < points[j].at)
  }

  /** The loop compares neighbours only; all pairs follow. */
  method ValidateFaultSchedule(points: seq<FaultSchedulePoint>) returns (errs: seq<Rule>)
    ensures errs == [] <==> ScheduleOk(points)
  {
    errs := [];
    var previous := 0;
    for i := 0 to |points|
      invariant errs == [] <==> ScheduleOk(points[..i])
      invariant i > 0 ==> previous == points[i - 1].at
    {
      assert points[..i + 1] == points[..i] + [points[i]];
      if points[i].at < 0 { errs := errs + [DomainRange]; }
      if i > 0 && points[i].at <= previous { errs := errs + [DomainRange]; }
      if points[i].intensity < 0.0 { errs := errs + [DomainRange]; }
      previous := points[i].at;
    }
    assert points[..|points|] == points;
  }

  ghost predicate FaultDomainOk(f: FaultSpec) {
    && !f.kind.InvalidFaultKind?
    && ProbabilityOk(f.severity.probability)
    && (f.kind.LatencyInflation? ==> f.severity.multiplier > 0.0)
    && ScheduleOk(f.schedule)
  }

  predicate JourneyDomainOk(name: string, j: Journey) {
    j.name == name && j.weight > 0.0 && j.steps != []
  }

  // ----- The whole report

  function Listed(s: Schema): set<OpRef> {
    set id, name | id in s.services && s.services[id].Some?
                   && name in s.Svc(s.services[id].value).operations
                   && s.Svc(s.services[id].value).operations[name].Some?
                 :: s.Svc(s.services[id].value).operations[name].value
  }

  lemma ListedIsInSchemaSet(s: Schema, op: OpRef)
    ensures op in Listed(s) <==> InSchema(s, op)
  {
    if op in Listed(s) {
      var id, name :| id in s.services && s.services[id].Some?
                      && name in s.Svc(s.services[id].value).operations
                      && s.Svc(s.services[id].value).operations[name] == Some(op);
      assert IsSlot(s, Slot(id, name)) && SlotOp(s, Slot(id, name)) == op;
    }
  }

  /** Rules on one operation of the schema. */
  ghost predicate OperationOk(s: Schema, listed: set<OpRef>, op: OpRef) {
    && NoOrphans(s.Op(op).calls, listed)
    && CallVariantsOk(s.Op(op).calls)
    && (forall e | e in EdgesInCalls(s.Op(op).calls) :: OwnershipOk(e) && EdgeDomainOk(e))
    && OperationDomainOk(s.Op(op))
  }

  predicate ServicesOk(s: Schema) {
    forall id | id in s.services && s.services[id].Some? :: ServiceDomainOk(s.Svc(s.services[id].value))
  }

  predicate JourneyOk(name: string, j: Option<Journey>, listed: set<OpRef>) {
    j.Some? && StepsReachable(j.value.steps, listed) && JourneyDomainOk(name, j.value)
  }

  ghost predicate DagOk(s: Schema) {
    forall g | IsGraphOf(g, s) :: Acyclic(g)
  }

  ghost predicate Valid(s: Schema) {
    && KeysConsistent(s)
    && BackPointersOk(s)
    && DagOk(s)
    && (forall op | op in Listed(s) :: OperationOk(s, Listed(s), op))
    && |s.services| > 0 && |s.journeys| > 0
    && ServicesOk(s)
    && (forall name | name in s.journeys :: JourneyOk(name, s.journeys[name], Listed(s)))
    && (forall i | 0 <= i < |s.faults| :: FaultTargetOk(s, Listed(s), s.faults[i].target) && FaultDomainOk(s.faults[i]))
  }

  method ValidateOperation(s: Schema, listed: set<OpRef>, op: OpRef) returns (errs: seq<Rule>)
    ensures errs == [] <==> OperationOk(s, listed, op)
  {
    var calls := s.Op(op).calls;
    errs := ValidateNoOrphanCallReferences(calls, listed);
    var more := ValidateCallNodeVariantList(calls);
    errs := errs + more;
    var edges := EdgesInCalls(calls);
    var before := errs;
    for i := 0 to |edges|
      invariant errs == [] <==> before == [] && forall k | 0 <= k < i :: OwnershipOk(edges[k]) && EdgeDomainOk(edges[k])
    {
      var owned := ValidateRecoveryPolicyOwnership(edges[i]);
      errs := errs + owned;
      var ranged := ValidateEdgeDomain(edges[i]);
      errs := errs + ranged;
    }
    var named := ValidateOperationDomain(s.Op(op));
    errs := errs + named;
  }

  /** The unaliased graph has no stuck operation exactly when it is acyclic. */
  lemma DagMeansAcyclic(s: Schema, g: Graph)
    requires IsGraphOf(g, s)
    ensures DagOk(s) <==> Acyclic(g)
  {
    forall h | IsGraphOf(h, s)
      ensures h == g
    {
      assert h.nodes == g.nodes && h.doubled == g.doubled;
      assert h.targets == g.targets;
    }
  }

  method ValidateJourneys(s: Schema, listed: set<OpRef>) returns (errs: seq<Rule>)
    ensures errs == [] <==> forall name | name in s.journeys :: JourneyOk(name, s.journeys[name], listed)
  {
    errs := [];
    var names := s.journeys.Keys;
    while names != {}
      invariant names <= s.journeys.Keys
      invariant errs == [] <==>
                forall name | name in s.journeys && name !in names :: JourneyOk(name, s.journeys[name], listed)
    {
      var name :| name in names;
      names := names - {name};
      if s.journeys[name].None? {
        errs := errs + [JourneyReachability];
      } else {
        var inner := ValidateStepsReachable(s.journeys[name].value.steps, listed);
        errs := errs + inner;
        var j := s.journeys[name].value;
        if j.name != name { errs := errs + [DomainRange]; }
        if j.weight <= 0.0 { errs := errs + [DomainRange]; }
        if |j.steps| == 0 { errs := errs + [DomainRange]; }
      }
    }
  }

  method ValidateFaults(s: Schema, listed: set<OpRef>) returns (errs: seq<Rule>)
    ensures errs == [] <==>
            forall i | 0 <= i < |s.faults| :: FaultTargetOk(s, listed, s.faults[i].target) && FaultDomainOk(s.faults[i])
  {
    errs := [];
    for i := 0 to |s.faults|
      invariant errs == [] <==>
                forall k | 0 <= k < i :: FaultTargetOk(s, listed, s.faults[k].target) && FaultDomainOk(s.faults[k])
    {
      var f := s.faults[i];
      var shape := ValidateFaultTarget(s, listed, f.target);
      errs := errs + shape;
      if f.kind == InvalidFaultKind { errs := errs + [DomainRange]; }
      if !(0.0 <= f.severity.probability <= 1.0) { errs := errs + [DomainRange]; }
      if f.kind == LatencyInflation && f.severity.multiplier <= 0.0 { errs := errs + [DomainRange]; }
      var inner := ValidateFaultSchedule(f.schedule);
      errs := errs + inner;
    }
  }

  /** R-STR-1, R-STR-2 and R-STR-4 together: an unaliased acyclic graph. */
  method ValidateGraph(s: Schema) returns (errs: seq<Rule>)
    ensures errs == [] <==> KeysConsistent(s) && BackPointersOk(s) && DagOk(s)
  {
    errs := ValidateMapKeyConsistency(s);
    var more := ValidateBackPointers(s);
    errs := errs + more;
    var ok, _, g, _ := ValidateDAG(s);
    if !ok { errs := errs + [CycleDetected]; }
    DagMeansAcyclic(s, g);
    if KeysConsistent(s) && BackPointersOk(s) {
      forall x | x in g.doubled
        ensures false
      {
        NotAliased(s, x);
      }
    }
  }

  method ValidateOperations(s: Schema, listed: set<OpRef>) returns (errs: seq<Rule>)
    requires listed == Listed(s)
    ensures errs == [] <==> forall op | op in listed :: OperationOk(s, listed, op)
  {
    var ops, slots := AllSchemaOperations(s);
    forall x
      ensures x in ops <==> x in listed
    {
      ListedIsInSchemaSet(s, x);
      ListedIsInSchema(s, slots, ops, x);
    }
    errs := [];
    for i := 0 to |ops|
      invariant errs == [] <==> forall k | 0 <= k < i :: OperationOk(s, listed, ops[k])
    {
      var inner := ValidateOperation(s, listed, ops[i]);
      errs := errs + inner;
    }
  }

  method ValidateServices(s: Schema) returns (errs: seq<Rule>)
    ensures errs == [] <==> ServicesOk(s)
  {
    errs := [];
    var ids := s.services.Keys;
    while ids != {}
      invariant ids <= s.services.Keys
      invariant errs == [] <==> forall id | id in s.services && id !in ids && s.services[id].Some? ::
          ServiceDomainOk(s.Svc(s.services[id].value))
    {
      var id :| id in ids;
      ids := ids - {id};
      if s.services[id].Some? {
        var more := ValidateServiceDomain(s.Svc(s.services[id].value));
        errs := errs + more;
      }
    }
  }

  /** Validate reports nothing exactly on the valid schemas. */
  method Validate(s: Schema) returns (errs: seq<Rule>)
    ensures errs == [] <==> Valid(s)
  {
    hide KeysConsistent, BackPointersOk, DagOk, OperationOk, ServicesOk, JourneyOk, FaultTargetOk, FaultDomainOk, Listed;
    var listed := Listed(s);
    errs := ValidateGraph(s);
    var more := ValidateOperations(s, listed);
    errs := errs + more;
    if |s.services| == 0 { errs := errs + [DomainRange]; }
    if |s.journeys| == 0 { errs := errs + [DomainRange]; }
    more := ValidateServices(s);
    errs := errs + more;
    more := ValidateJourneys(s, listed);
    errs := errs + more;
    more := ValidateFaults(s, listed);
    errs := errs + more;
  }
}
