/**
 Printing a resolved schema and reading the document back.  Kept is what survives:
 the schema with three small repairs.  Printing is a normal form for every schema
 the resolver can produce, and the reloaded schema is Equal exactly when
 none of the three repairs changed anything Equal looks at.
 */
module RoundTrip {
  import opened Wrappers
  import opened Strings
  import opened Topology
  import opened RawDocument
  import opened Tokens
  import opened Resolve
  import opened Marshal

  // ----- What survives

  /** A zero P95 is not printed and comes back as P50. */
  function KeptLatency(l: LatencyDist): LatencyDist {
    if l.p95 == 0 then l.(p95 := l.p50) else l
  }

  function KeptEdge(e: Edge): (r: Edge)
    ensures r.Edge? <==> e.Edge?
    decreases e, 0
  {
    if e.NilEdge? then e
    else
      e.(latency := KeptLatency(e.latency),
         retryBaseDelay := if e.retryBaseDelay == 0 then DEFAULT_RETRY_BASE_DELAY else e.retryBaseDelay,
         onFailure := match e.onFailure
                      case None => None
                      case Some(rp) => Some(rp.(fallback := KeptEdges(rp.fallback))))
  }

  function KeptEdges(es: seq<Edge>): (r: seq<Edge>)
    ensures |r| == |es|
    decreases es
  {
    if es == [] then [] else KeptEdges(es[..|es| - 1]) + [KeptEdge(es[|es| - 1])]
  }

  function KeptCallNode(n: CallNode): CallNode
    decreases n, 0
  {
    if n.NilCall? then n else CallNode(KeptEdge(n.edge), KeptCallNodes(n.parallel))
  }

  function KeptCallNodes(ns: seq<CallNode>): (r: seq<CallNode>)
    ensures |r| == |ns|
    decreases ns
  {
    if ns == [] then [] else KeptCallNodes(ns[..|ns| - 1]) + [KeptCallNode(ns[|ns| - 1])]
  }

  /** A link with a value loses its delta. */
  function KeptFaultLink(l: MetricFaultLink): MetricFaultLink {
    if l.hasValue then l.(delta := 0.0) else l
  }

  function KeptLink(l: Option<MetricFaultLink>): Option<MetricFaultLink> {
    match l
    case None => None
    case Some(l) => Some(KeptFaultLink(l))
  }

  function KeptMetric(m: MetricSpec): MetricSpec {
    m.(whenFault := KeptLink(m.whenFault))
  }

  function KeptObservable(m: ObservableMetricSpec): ObservableMetricSpec {
    m.(whenFault := KeptLink(m.whenFault))
  }

  function KeptStateUpdate(u: StateUpdateSpec): StateUpdateSpec {
    u.(whenFault := KeptLink(u.whenFault))
  }

  /** A sample rate of 0 comes back as 100. */
  function KeptProfile(p: Option<ProfileSpec>): Option<ProfileSpec> {
    match p
    case None => None
    case Some(p) => Some(p.(sampleRate := if p.sampleRate == 0 then 100 else p.sampleRate))
  }

  function KeptTelemetry(t: Telemetry): Telemetry {
    Telemetry(t.logEvents, Map(KeptMetric, t.metrics), Map(KeptStateUpdate, t.stateUpdates), KeptProfile(t.profile))
  }

  function KeptOperation(o: Operation): Operation {
    o.(calls := KeptCallNodes(o.calls), telemetry := KeptTelemetry(o.telemetry))
  }

  function KeptService(svc: Service): Service {
    svc.(metrics := Map(KeptObservable, svc.metrics))
  }

  function KeptTarget(t: FaultTarget): FaultTarget {
    t.(edge := KeptEdge(t.edge))
  }

  function KeptFault(f: FaultSpec): FaultSpec {
    f.(target := KeptTarget(f.target))
  }

  function Kept(s: Schema): Schema {
    s.(svcs := map r | r in s.svcs :: KeptService(s.svcs[r]),
       ops := map r | r in s.ops :: KeptOperation(s.ops[r]),
       faults := Map(KeptFault, s.faults))
  }

  // ----- The shape every resolved schema has

  predicate Known(dir: Directory, op: Option<OpRef>) {
    op.Some? && Lookup(dir, op.value.svc, op.value.op) == Ok(op.value)
  }

  predicate ShapedEdge(dir: Directory, owner: OpRef, e: Edge, path: seq<nat>)
    decreases e
  {
    && e.Edge? && e.id == EdgeRef(owner, path) && e.from == Some(owner) && Known(dir, e.to)
    && e.latency.distribution != ""
    && (e.onFailure.Some? ==>
          forall i | 0 <= i < |e.onFailure.value.fallback| :: ShapedEdge(dir, owner, e.onFailure.value.fallback[i], path + [i]))
  }

  predicate ShapedCallNode(dir: Directory, owner: OpRef, n: CallNode, path: seq<nat>)
    decreases n, 0
  {
    && n.CallNode?
    && if n.edge.Edge? then n.parallel == [] && ShapedEdge(dir, owner, n.edge, path)
       else n.parallel != [] && ShapedCallNodes(dir, owner, n.parallel, path)
  }

  predicate ShapedCallNodes(dir: Directory, owner: OpRef, ns: seq<CallNode>, path: seq<nat>)
    decreases ns
  {
    forall i | 0 <= i < |ns| :: ShapedCallNode(dir, owner, ns[i], path + [i])
  }

  predicate ShapedStep(dir: Directory, st: Step)
    decreases st, 0
  {
    && st.Step?
    && if st.op.Some? then st.parallel == [] && Known(dir, st.op) else st.parallel != [] && ShapedSteps(dir, st.parallel)
  }

  predicate ShapedSteps(dir: Directory, sts: seq<Step>)
    decreases sts
  {
    forall i | 0 <= i < |sts| :: ShapedStep(dir, sts[i])
  }

  predicate ShapedLink(l: Option<MetricFaultLink>) {
    l.Some? && !l.value.hasValue ==> l.value.value == 0.0
  }

  predicate ShapedTelemetry(t: Telemetry) {
    && (forall i | 0 <= i < |t.metrics| :: ShapedLink(t.metrics[i].whenFault))
    && (forall i | 0 <= i < |t.stateUpdates| :: ShapedLink(t.stateUpdates[i].whenFault))
  }

  predicate ShapedService(svc: Service, id: string) {
    && svc.name == id && svc.ns != ""
    && (forall name | name in svc.operations :: svc.operations[name] == Some(OpRef(id, name)))
    && (forall i | 0 <= i < |svc.metrics| :: ShapedLink(svc.metrics[i].whenFault))
  }

  predicate ShapedOperation(dir: Directory, o: Operation, ref: OpRef) {
    && o.name == ref.op && o.service == Some(SvcRef(ref.svc))
    && ShapedCallNodes(dir, ref, o.calls, [])
    && ShapedTelemetry(o.telemetry)
  }

  /** Objects are where their names say they are. */
  predicate ShapedHeap(s: Schema) {
    && (forall id | id in s.services :: s.services[id] == Some(SvcRef(id)))
    && s.svcs.Keys == (set id | id in s.services :: SvcRef(id))
    && (forall id | id in s.services :: ShapedService(s.Svc(SvcRef(id)), id))
    && s.ops.Keys == RefsOf(DirectoryOf(s))
  }

  function RefsOf(dir: Directory): set<OpRef> {
    set id, name | id in dir && name in dir[id] :: OpRef(id, name)
  }

  predicate Shaped(s: Schema) {
    && s.ns != ""
    && ShapedHeap(s)
    && (forall ref | ref in s.ops :: ShapedOperation(DirectoryOf(s), s.ops[ref], ref))
    && (forall name | name in s.journeys ::
          s.journeys[name].Some? && s.journeys[name].value.name == name && ShapedSteps(DirectoryOf(s), s.journeys[name].value.steps))
    && (forall i | 0 <= i < |s.faults| ::
          ResolveFaultTarget(DirectoryOf(s), s.ops, MarshalFaultTarget(s, s.faults[i].target)) == Ok(s.faults[i].target))
  }

  // ----- Trees read back

  /** The objects behind a known reference carry its names. */
  predicate Truthful(s: Schema, dir: Directory) {
    && (forall svc | svc in dir :: s.Svc(SvcRef(svc)).name == svc)
    && (forall svc, op | svc in dir && op in dir[svc] ::
          s.Op(OpRef(svc, op)).name == op && s.Op(OpRef(svc, op)).service == Some(SvcRef(svc)))
  }

  lemma NamedHeapIsTruthful(s: Schema)
    requires ShapedHeap(s)
    requires forall ref | ref in s.ops :: s.ops[ref].name == ref.op && s.ops[ref].service == Some(SvcRef(ref.svc))
    ensures Truthful(s, DirectoryOf(s))
  {
    var dir := DirectoryOf(s);
    forall svc | svc in dir
      ensures s.Svc(SvcRef(svc)).name == svc
    {
      assert ShapedService(s.Svc(SvcRef(svc)), svc);
    }
    forall svc, op | svc in dir && op in dir[svc]
      ensures s.Op(OpRef(svc, op)).name == op && s.Op(OpRef(svc, op)).service == Some(SvcRef(svc))
    {
      assert OpRef(svc, op) in RefsOf(dir);
    }
  }

  lemma TargetReadsBack(s: Schema, dir: Directory, op: Option<OpRef>)
    requires Truthful(s, dir) && Known(dir, op)
    ensures MarshalCallTarget(s, op) == RawCallTarget(op.value.svc, op.value.op)
    ensures IdentifyOp(s, op) == op.value.svc + "." + op.value.op
  {
  }

  lemma KnownIsNamed(dir: Directory, op: Option<OpRef>)
    requires Known(dir, op)
    ensures op.value.svc in dir && op.value.op in dir[op.value.svc] && op.value.svc != "" && op.value.op != ""
  {
  }

  lemma LatencyReadsBack(l: LatencyDist)
    requires l.distribution != ""
    ensures ResolveLatency(MarshalLatency(l)) == KeptLatency(l)
  {
  }

  lemma {:induction false} EdgeReadsBack(s: Schema, dir: Directory, owner: OpRef, e: Edge, path: seq<nat>)
    requires Truthful(s, dir) && ShapedEdge(dir, owner, e, path)
    ensures ResolveCallNode(dir, owner, MarshalEdge(s, e), path) == Ok(CallNode(KeptEdge(e), []))
    decreases e, 0
  {
    hide ParseProtocol, ParseBackoff, ParseExhausted, PrintProtocol, PrintBackoff, PrintExhausted, MarshalLatency,
      ResolveLatency, KeptLatency, MarshalCallTarget;
    TargetReadsBack(s, dir, e.to);
    LatencyReadsBack(e.latency);
    ProtocolRoundTrip(e.protocol);
    BackoffRoundTrip(e.retryBackoff);
    DefaultTokens();
    if e.onFailure.Some? {
      FallbacksReadBack(s, dir, owner, e.onFailure.value.fallback, path);
      ExhaustedRoundTrip(e.onFailure.value.onExhausted);
    }
  }

  lemma {:induction false} FallbacksReadBack(s: Schema, dir: Directory, owner: OpRef, es: seq<Edge>, path: seq<nat>)
    requires Truthful(s, dir) && forall i | 0 <= i < |es| :: ShapedEdge(dir, owner, es[i], path + [i])
    ensures ResolveFallbacks(dir, owner, MarshalFallbacks(s, es), path) == Collected(KeptEdges(es), [])
    decreases es
  {
    hide Truthful, ResolveCallNode, MarshalEdge, KeptEdge;
    if es != [] {
      var n := |es| - 1;
      FallbacksReadBack(s, dir, owner, es[..n], path);
      EdgeReadsBack(s, dir, owner, es[n], path + [n]);
      MarshalFallbacksLast(s, es);
    }
  }

  lemma {:induction false} MarshalFallbacksLast(s: Schema, es: seq<Edge>)
    ensures |MarshalFallbacks(s, es)| == |es|
    ensures es != [] ==> MarshalFallbacks(s, es)[..|es| - 1] == MarshalFallbacks(s, es[..|es| - 1])
    decreases es
  {
    if es != [] { MarshalFallbacksLast(s, es[..|es| - 1]); }
  }

  lemma {:induction false} MarshalCallNodesLast(s: Schema, ns: seq<CallNode>)
    ensures |MarshalCallNodes(s, ns)| == |ns|
    ensures ns != [] ==> MarshalCallNodes(s, ns)[..|ns| - 1] == MarshalCallNodes(s, ns[..|ns| - 1])
    decreases ns
  {
    if ns != [] { MarshalCallNodesLast(s, ns[..|ns| - 1]); }
  }

  lemma {:induction false} CallNodeReadsBack(s: Schema, dir: Directory, owner: OpRef, n: CallNode, path: seq<nat>)
    requires Truthful(s, dir) && ShapedCallNode(dir, owner, n, path)
    ensures ResolveCallNode(dir, owner, MarshalCallNode(s, n), path) == Ok(KeptCallNode(n))
    decreases n, 0
  {
    if n.edge.Edge? {
      EdgeReadsBack(s, dir, owner, n.edge, path);
    } else {
      CallNodesReadBack(s, dir, owner, n.parallel, path);
      MarshalCallNodesLast(s, n.parallel);
    }
  }

  lemma {:induction false} CallNodesReadBack(s: Schema, dir: Directory, owner: OpRef, ns: seq<CallNode>, path: seq<nat>)
    requires Truthful(s, dir) && ShapedCallNodes(dir, owner, ns, path)
    ensures ResolveCallNodes(dir, owner, MarshalCallNodes(s, ns), path) == Collected(KeptCallNodes(ns), [])
    decreases ns
  {
    hide Truthful;
    if ns != [] {
      var n := |ns| - 1;
      CallNodesReadBack(s, dir, owner, ns[..n], path);
      CallNodeReadsBack(s, dir, owner, ns[n], path + [n]);
      MarshalCallNodesLast(s, ns);
    }
  }

  lemma {:induction false} MarshalStepsLast(s: Schema, sts: seq<Step>)
    ensures |MarshalSteps(s, sts)| == |sts|
    ensures sts != [] ==> MarshalSteps(s, sts)[..|sts| - 1] == MarshalSteps(s, sts[..|sts| - 1])
    decreases sts
  {
    if sts != [] { MarshalStepsLast(s, sts[..|sts| - 1]); }
  }

  lemma {:induction false} StepReadsBack(s: Schema, dir: Directory, st: Step)
    requires Truthful(s, dir) && ShapedStep(dir, st)
    ensures ResolveStep(dir, MarshalStep(s, st)) == Ok(st)
    decreases st, 0
  {
    hide Truthful, MarshalCallTarget, Lookup;
    if st.op.Some? {
      TargetReadsBack(s, dir, st.op);
      KnownIsNamed(dir, st.op);
    } else {
      StepsReadBack(s, dir, st.parallel);
      MarshalStepsLast(s, st.parallel);
    }
  }

  lemma {:induction false} StepsReadBack(s: Schema, dir: Directory, sts: seq<Step>)
    requires Truthful(s, dir) && ShapedSteps(dir, sts)
    ensures ResolveSteps(dir, MarshalSteps(s, sts)) == Collected(sts, [])
    decreases sts
  {
    if sts != [] {
      var n := |sts| - 1;
      StepsReadBack(s, dir, sts[..n]);
      StepReadsBack(s, dir, sts[n]);
      MarshalStepsLast(s, sts);
      assert sts == sts[..n] + [sts[n]];
    }
  }

  // ----- Records read back

  lemma LinkReadsBack(l: Option<MetricFaultLink>)
    requires ShapedLink(l)
    ensures ResolveLink(MarshalLink(l)) == KeptLink(l)
  {
    hide ParseFaultKind, PrintFaultKind;
    if l.Some? { FaultKindRoundTrip(l.value.kind); }
  }

  lemma LogEventReadsBack(ev: LogEventSpec)
    ensures ResolveLogEvent(MarshalLogEvent(ev)) == ev
  {
    hide ParseSeverity, PrintSeverity, ParseCondition, PrintCondition;
    SeverityRoundTrip(ev.severity);
    ConditionRoundTrip(ev.condition);
    DefaultTokens();
  }

  lemma MetricReadsBack(m: MetricSpec)
    requires ShapedLink(m.whenFault)
    ensures ResolveMetric(MarshalMetric(m)) == KeptMetric(m)
  {
    hide ParseMetricType, PrintMetricType, ParseCondition, PrintCondition, ResolveLink, MarshalLink, KeptLink;
    MetricTypeRoundTrip(m.typ);
    ConditionRoundTrip(m.condition);
    DefaultTokens();
    LinkReadsBack(m.whenFault);
  }

  lemma ObservableReadsBack(m: ObservableMetricSpec)
    requires ShapedLink(m.whenFault)
    ensures ResolveObservable(MarshalObservable(m)) == KeptObservable(m)
  {
    hide ParseMetricType, PrintMetricType, ResolveLink, MarshalLink, KeptLink;
    MetricTypeRoundTrip(m.typ);
    LinkReadsBack(m.whenFault);
  }

  lemma StateUpdateReadsBack(u: StateUpdateSpec)
    requires ShapedLink(u.whenFault)
    ensures ResolveStateUpdate(MarshalStateUpdate(u)) == KeptStateUpdate(u)
  {
    hide ParseCondition, PrintCondition, ResolveLink, MarshalLink, KeptLink;
    ConditionRoundTrip(u.condition);
    DefaultTokens();
    LinkReadsBack(u.whenFault);
  }

  function Same<T>(x: T): T {
    x
  }

  lemma MapSame<T>(xs: seq<T>)
    ensures Map(Same, xs) == xs
  {
  }

  lemma ProfileReadsBack(p: Option<ProfileSpec>)
    ensures ResolveProfile(MarshalProfile(p)) == KeptProfile(p)
  {
    hide ParseFaultKind, PrintFaultKind;
    if p.Some? {
      if p.value.whenFault.Some? { FaultKindRoundTrip(p.value.whenFault.value); }
      ListRoundTrip(p.value.baseline, MarshalStack, ResolveStack, Same);
      ListRoundTrip(p.value.incident, MarshalStack, ResolveStack, Same);
      MapSame(p.value.baseline);
      MapSame(p.value.incident);
    }
  }

  lemma OperationReadsBack(s: Schema, dir: Directory, name: string, ref: OpRef)
    requires Truthful(s, dir) && ShapedOperation(dir, s.Op(ref), ref)
    ensures var ro := MarshalOperation(s, name, Some(ref));
            && ro.RawOperation? && ro.name == ref.op
            && ResolveTelemetry(ro) == KeptTelemetry(s.Op(ref).telemetry)
            && ResolveCallNodes(dir, ref, ro.calls, []) == Collected(KeptCallNodes(s.Op(ref).calls), [])
  {
    hide Truthful, ResolveCallNodes, MarshalCallNodes, KeptCallNodes, ShapedCallNodes, ResolveProfile, MarshalProfile, KeptProfile,
      ResolveMetric, MarshalMetric, KeptMetric, ResolveLogEvent, MarshalLogEvent, ResolveStateUpdate, MarshalStateUpdate, KeptStateUpdate;
    var o := s.Op(ref);
    CallNodesReadBack(s, dir, ref, o.calls, []);
    forall i | 0 <= i < |o.telemetry.logEvents|
      ensures ResolveLogEvent(MarshalLogEvent(o.telemetry.logEvents[i])) == Same(o.telemetry.logEvents[i])
    {
      LogEventReadsBack(o.telemetry.logEvents[i]);
    }
    ListRoundTrip(o.telemetry.logEvents, MarshalLogEvent, ResolveLogEvent, Same);
    MapSame(o.telemetry.logEvents);
    forall i | 0 <= i < |o.telemetry.metrics|
      ensures ResolveMetric(MarshalMetric(o.telemetry.metrics[i])) == KeptMetric(o.telemetry.metrics[i])
    {
      MetricReadsBack(o.telemetry.metrics[i]);
    }
    ListRoundTrip(o.telemetry.metrics, MarshalMetric, ResolveMetric, KeptMetric);
    forall i | 0 <= i < |o.telemetry.stateUpdates|
      ensures ResolveStateUpdate(MarshalStateUpdate(o.telemetry.stateUpdates[i])) == KeptStateUpdate(o.telemetry.stateUpdates[i])
    {
      StateUpdateReadsBack(o.telemetry.stateUpdates[i]);
    }
    ListRoundTrip(o.telemetry.stateUpdates, MarshalStateUpdate, ResolveStateUpdate, KeptStateUpdate);
    ProfileReadsBack(o.telemetry.profile);
  }

  lemma SeverityReadsBack(v: SeverityParams)
    ensures ResolveSeverity(MarshalSeverity(v)) == v
  {
  }

  lemma ScheduleReadsBack(points: seq<FaultSchedulePoint>)
    ensures Map(ResolvePoint, Present(Map(MarshalPoint, points))) == points
  {
  }

  // ----- Operation lists read back

  lemma {:induction false} LastInListing(s: Schema, svc: Service, id: string, names: seq<string>, name: string)
    requires ShapedService(svc, id) && name in names && forall k | k in names :: k in svc.operations && s.Op(OpRef(id, k)).name == k
    ensures var ros := MarshalOperations(s, svc.operations, names);
            && name in Named(ros)
            && LastNamed(ros, name) == MarshalOperation(s, name, Some(OpRef(id, name)))
            && LastCalls(ros, name) == MarshalOperation(s, name, Some(OpRef(id, name))).calls
    decreases names
  {
    hide MarshalCallNodes, MarshalProfile;
    var ros, n := MarshalOperations(s, svc.operations, names), |names| - 1;
    assert svc.operations[names[n]] == Some(OpRef(id, names[n]));
    assert ros[n] in ros && OrEmpty(ros[n]).name == names[n];
    if names[n] != name {
      assert ros[..n] == MarshalOperations(s, svc.operations, names[..n]);
      LastInListing(s, svc, id, names[..n], name);
      var ro :| ro in ros[..n] && OrEmpty(ro).name == name;
      assert ro in ros;
    }
  }

  lemma NamesOfListing(s: Schema, svc: Service, id: string, names: seq<string>)
    requires ShapedService(svc, id) && forall k | k in names :: k in svc.operations && s.Op(OpRef(id, k)).name == k
    ensures Named(MarshalOperations(s, svc.operations, names)) == set k | k in names
  {
    hide MarshalCallNodes, MarshalProfile;
    var ros := MarshalOperations(s, svc.operations, names);
    forall i | 0 <= i < |names|
      ensures OrEmpty(ros[i]).name == names[i]
    {
      assert svc.operations[names[i]] == Some(OpRef(id, names[i]));
    }
    forall k | k in names
      ensures k in Named(ros)
    {
      LastInListing(s, svc, id, names, k);
    }
  }
}
