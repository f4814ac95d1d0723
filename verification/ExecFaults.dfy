/**
 What foldFaults means, read off the overlay: every fault that applies to a node is
 judged once, in order, against its own intensity and at most one draw; the folded
 fault says exactly which of them are active.
 */
module ExecFaults {
  import opened Wrappers
  import opened Topology
  import opened Plan
  import opened ExecModel

  // ----- The faults that apply to a node

  datatype Place = OnService | OnEdge | OnOperation

  datatype Applied = Applied(place: Place, spec: FaultSpec)

  function Put(place: Place, specs: seq<FaultSpec>): (applied: seq<Applied>)
    ensures |applied| == |specs| && forall i | 0 <= i < |specs| :: applied[i] == Applied(place, specs[i])
  {
    seq(|specs|, i requires 0 <= i < |specs| => Applied(place, specs[i]))
  }

  function ServiceSpecs(env: Env, node: Node): seq<FaultSpec> {
    if node.service.Some? && node.service.value in env.overlay.nodes then env.overlay.nodes[node.service.value] else []
  }

  function EdgeSpecs(env: Env, node: Node): seq<FaultSpec> {
    if node.edge.Edge? && node.edge.id in env.overlay.edges then env.overlay.edges[node.edge.id] else []
  }

  /** The operation a node runs: the one its service lists under its name. */
  function Running(env: Env, node: Node): Option<OpRef> {
    if node.service.Some? && node.operation in env.schema.Svc(node.service.value).operations then
      env.schema.Svc(node.service.value).operations[node.operation]
    else None
  }

  function OperationSpecs(env: Env, node: Node): seq<FaultSpec> {
    var op := Running(env, node);
    if op.Some? && op.value in env.overlay.operations then env.overlay.operations[op.value] else []
  }

  /** In the order in which they are judged: the service's, the edge's, the operation's. */
  function Applying(env: Env, node: Node): seq<Applied> {
    Put(OnService, ServiceSpecs(env, node)) + Put(OnEdge, EdgeSpecs(env, node)) + Put(OnOperation, OperationSpecs(env, node))
  }

  // ----- Judging one fault

  datatype Verdict = Verdict(intensity: real, active: bool)

  /** Kinds that strike with a probability, each in its own place; an inflation does in any. */
  predicate Strikes(a: Applied) {
    || a.spec.kind.LatencyInflation?
    || (a.place.OnService? && a.spec.kind.Crash?)
    || (a.place.OnEdge? && a.spec.kind.Disconnect?)
  }

  function OwnerName(s: Schema, op: Option<OpRef>): string {
    match op
    case None => ""
    case Some(r) => (if s.Op(r).service.Some? then s.Svc(s.Op(r).service.value).name else "") + "." + s.Op(r).name
  }

  /** The key under which an intensity is set for one target; the empty key stands for no target. */
  function TargetKey(s: Schema, t: FaultTarget): string {
    if t.kind.TargetNode? && t.service.Some? then "node:" + s.Svc(t.service.value).name
    else if t.kind.TargetOperation? && t.operation.Some? then "operation:" + OwnerName(s, t.operation)
    else if t.kind.TargetEdge? && t.edge.Edge? then "edge:" + OwnerName(s, t.edge.from) + "->" + OwnerName(s, t.edge.to)
    else ""
  }

  /** The first k points have come, the next has not. */
  predicate Come(points: seq<FaultSchedulePoint>, elapsed: int, k: nat) {
    && k <= |points| && (forall i | 0 <= i < k :: points[i].at <= elapsed) && (k < |points| ==> elapsed < points[k].at)
  }

  /** A schedule is in force with the last point that has come, never below zero. */
  ghost predicate ScheduleGives(points: seq<FaultSchedulePoint>, elapsed: int, intensity: real) {
    exists k :: Come(points, elapsed, k)
      && intensity == if k == 0 || points[k - 1].intensity < 0.0 then 0.0 else points[k - 1].intensity
  }

  lemma ScheduleGivesOne(points: seq<FaultSchedulePoint>, elapsed: int, a: real, b: real)
    requires ScheduleGives(points, elapsed, a) && ScheduleGives(points, elapsed, b)
    ensures a == b
  {
    var j, k :| Come(points, elapsed, j) && Come(points, elapsed, k)
      && a == (if j == 0 || points[j - 1].intensity < 0.0 then 0.0 else points[j - 1].intensity)
      && b == (if k == 0 || points[k - 1].intensity < 0.0 then 0.0 else points[k - 1].intensity);
    assert j == k;
  }

  lemma {:induction false} ScanFinds(points: seq<FaultSchedulePoint>, elapsed: int, start: real) returns (k: nat)
    ensures Come(points, elapsed, k)
    ensures ScanSchedule(points, elapsed, start) == if k == 0 then start else points[k - 1].intensity
    decreases points
  {
    if points == [] || elapsed < points[0].at {
      k := 0;
    } else {
      var k' := ScanFinds(points[1..], elapsed, points[0].intensity);
      k := k' + 1;
      forall i | 0 <= i < k
        ensures points[i].at <= elapsed
      {
        if i > 0 { assert points[1..][i - 1] == points[i]; }
      }
    }
  }

  lemma ScheduleMeans(points: seq<FaultSchedulePoint>, elapsed: int)
    ensures ScheduleGives(points, elapsed, ScheduledIntensity(points, elapsed))
  {
    var k := ScanFinds(points, elapsed, 0.0);
    assert Come(points, elapsed, k);
  }

  /** The intensity in force: the target's own, else the schedule's at the clock reading, else the global one. */
  ghost predicate InForce(env: Env, spec: FaultSpec, intensity: real, from: State, to: State) {
    var key := TargetKey(env.schema, spec.target);
    && to.readings == from.readings + (if (key == "" || key !in env.targetIntensity) && spec.schedule != [] then 1 else 0)
    && (key != "" && key in env.targetIntensity ==> intensity == env.targetIntensity[key])
    && (key == "" || key !in env.targetIntensity ==>
          if spec.schedule == [] then intensity == env.globalIntensity
          else ScheduleGives(spec.schedule, env.elapsed(from.readings), intensity))
  }

  /** A draw decides only between impossible and certain. */
  ghost predicate Decided(env: Env, a: Applied, v: Verdict, from: State, to: State) {
    var p := a.spec.severity.probability * v.intensity;
    && to.cursor == from.cursor + (if Strikes(a) && 0.0 < p < 1.0 then 1 else 0)
    && (v.active <==> Strikes(a) && 0.0 < p && (p >= 1.0 || env.float(from.cursor) < p))
  }

  ghost predicate Judged(env: Env, a: Applied, v: Verdict, from: State, to: State) {
    to.polls == from.polls && InForce(env, a.spec, v.intensity, from, to) && Decided(env, a, v, from, to)
  }

  /** One after the other, from the first state of sts to the last. */
  ghost predicate AllJudged(env: Env, applied: seq<Applied>, vs: seq<Verdict>, sts: seq<State>) {
    && |vs| == |applied| && |sts| == |applied| + 1
    && forall i | 0 <= i < |applied| :: Judged(env, applied[i], vs[i], sts[i], sts[i + 1])
  }

  // ----- What the verdicts add up to

  ghost predicate Struck(applied: seq<Applied>, vs: seq<Verdict>, place: Place, kind: FaultKind)
    requires |vs| == |applied|
  {
    exists i | 0 <= i < |applied| :: applied[i].place == place && applied[i].spec.kind == kind && vs[i].active
  }

  predicate Overrides(a: Applied) {
    a.place.OnOperation? && a.spec.kind.ErrorRateOverride?
  }

  function Clamped(v: real): real {
    if v <= 0.0 then 0.0 else if v >= 1.0 then 1.0 else v
  }

  function OverridingRate(a: Applied, v: Verdict): real {
    Clamped(a.spec.severity.value * v.intensity)
  }

  ghost predicate LastOverride(applied: seq<Applied>, i: nat)
    requires i < |applied|
  {
    Overrides(applied[i]) && forall j | i < j < |applied| :: !Overrides(applied[j])
  }

  ghost predicate NoOverride(applied: seq<Applied>) {
    forall a | a in applied :: !Overrides(a)
  }

  /** The last override sets the rate; without any, the edge's own rate stands. */
  ghost predicate RateIs(applied: seq<Applied>, vs: seq<Verdict>, edge: Edge, rate: real)
    requires |vs| == |applied|
  {
    && (forall i | 0 <= i < |applied| && LastOverride(applied, i) ::
          rate == OverridingRate(applied[i], vs[i]))
    && (NoOverride(applied) ==> rate == if edge.Edge? then Clamped(edge.errorRate) else 0.0)
  }

  /** Added latency grows with the intensity: the fixed part and what a multiplier over 1 adds to 10ms. */
  function Added(v: SeverityParams, intensity: real): int {
    var fixed := if v.add > 0 then v.add else 0;
    var stretched := if v.multiplier > 1.0 then ((v.multiplier - 1.0) * 10_000_000.0).Floor else 0;
    if intensity <= 0.0 then 0 else ((fixed + stretched) as real * intensity).Floor
  }

  function AddedAll(applied: seq<Applied>, vs: seq<Verdict>): int
    requires |vs| == |applied|
  {
    if applied == [] then 0
    else
      var n := |applied| - 1;
      AddedAll(applied[..n], vs[..n])
      + (if applied[n].spec.kind.LatencyInflation? && vs[n].active then Added(applied[n].spec.severity, vs[n].intensity) else 0)
  }

  /** Data stores lose their connection, gRPC calls become unavailable, everything else answers 500. */
  function ForcedError(s: Schema, node: Node): ErrorType {
    if node.service.Some? && s.Svc(node.service.value).kind in {Database, Cache} then DbConnectionLost
    else if node.edge.Edge? && node.edge.protocol == GRPC then GrpcUnavailable
    else Http(500)
  }

  ghost predicate AddsUp(env: Env, node: Node, applied: seq<Applied>, vs: seq<Verdict>, ff: Folded)
    requires |vs| == |applied|
  {
    && (ff.crashed <==> Struck(applied, vs, OnService, Crash))
    && (ff.disconnected <==> Struck(applied, vs, OnEdge, Disconnect))
    && RateIs(applied, vs, node.edge, ff.errorRate)
    && ff.errorType == (if !NoOverride(applied) || (node.edge.Edge? && node.edge.errorRate > 0.0)
                        then ForcedError(env.schema, node) else NoError)
    && ff.inflate == AddedAll(applied, vs)
  }

  // ----- Judgments are what the folding computes

  lemma TargetsNamed(s: Schema, t: FaultTarget)
    ensures FaultTargetString(s, t) == TargetKey(s, t)
  {
    hide OperationString, OwnerName;
    if t.edge.Edge? {
      OwnersNamed(s, t.edge.from);
      OwnersNamed(s, t.edge.to);
    }
    OwnersNamed(s, t.operation);
  }

  lemma OwnersNamed(s: Schema, op: Option<OpRef>)
    ensures OperationString(s, op) == OwnerName(s, op)
  {
    if op.Some? { assert "" + "." == "."; }
  }

  lemma IntensityMeans(env: Env, spec: FaultSpec, st: State)
    ensures var (intensity, next) := FaultIntensityFor(env, spec, st);
            InForce(env, spec, intensity, st, next) && next.polls == st.polls && next.cursor == st.cursor
  {
    hide ScheduledIntensity, FaultTargetString, TargetKey, ScheduleGives;
    TargetsNamed(env.schema, spec.target);
    ScheduleMeans(spec.schedule, env.elapsed(st.readings));
  }

  lemma ClampKeeps(p: real)
    ensures ClampProbability(p) == Clamped(p)
  {
  }

  lemma ActiveMeans(env: Env, a: Applied, intensity: real, st: State)
    requires Strikes(a)
    ensures var (active, next) := FaultActive(env, a.spec, intensity, st);
            Decided(env, a, Verdict(intensity, active), st, next) && next == st.(cursor := next.cursor)
  {
    hide ScaledProbability, ClampProbability;
    var q := a.spec.severity.probability;
    var p := q * intensity;
    ClampKeeps(p);
    assert ScaledProbability(q, intensity) == Clamped(p) by { ScaledMeans(q, intensity); }
    assert Strikes(a);
    hide Strikes;
  }

  lemma ScaledMeans(p: real, intensity: real)
    ensures ScaledProbability(p, intensity) == Clamped(p * intensity)
  {
    var chance := p * intensity;
    ClampKeeps(chance);
    assert ScaledProbability(p, intensity) == ClampProbability(chance);
  }

  lemma AddedMeans(spec: FaultSpec, intensity: real)
    ensures SampleInflation(spec, intensity) == Added(spec.severity, intensity)
  {
    var v := spec.severity;
    assert DEFAULT_ENTRY_LATENCY as real == 10_000_000.0;
    var fixed := if v.add > 0 then v.add else 0;
    if intensity <= 0.0 {
      assert fixed as real * 0.0 == 0.0;
    }
  }

  lemma ErrorMeans(s: Schema, node: Node)
    ensures DefaultFaultErrorType(s, node) == ForcedError(s, node)
  {
  }

  /** One fault of any place, as the source folds it. */
  function Fault(env: Env, node: Node, a: Applied, ff: Folded, st: State): (Folded, State) {
    match a.place
    case OnService => NodeFault(env, a.spec, ff, st)
    case OnEdge => EdgeFault(env, a.spec, ff, st)
    case OnOperation => OperationFault(env, node, a.spec, ff, st)
  }

  function Faults(env: Env, node: Node, applied: seq<Applied>, ff: Folded, st: State): (Folded, State) {
    if applied == [] then (ff, st)
    else
      var (ff1, st1) := Fault(env, node, applied[0], ff, st);
      Faults(env, node, applied[1..], ff1, st1)
  }

  /** What one verdict changes. */
  ghost function Changed(s: Schema, node: Node, a: Applied, v: Verdict, ff: Folded): Folded {
    Folded(ff.crashed || (a.place.OnService? && a.spec.kind.Crash? && v.active),
           ff.disconnected || (a.place.OnEdge? && a.spec.kind.Disconnect? && v.active),
           if Overrides(a) then OverridingRate(a, v) else ff.errorRate,
           if Overrides(a) then ForcedError(s, node) else ff.errorType,
           ff.inflate + (if a.spec.kind.LatencyInflation? && v.active then Added(a.spec.severity, v.intensity) else 0))
  }

  /** The three folding steps differ only in which kinds they heed. */
  lemma FaultShape(env: Env, node: Node, a: Applied, ff: Folded, st: State, active: bool, next: State)
    requires var (intensity, st1) := FaultIntensityFor(env, a.spec, st);
             if Strikes(a) then (active, next) == FaultActive(env, a.spec, intensity, st1) else !active && next == st1
    ensures var intensity := FaultIntensityFor(env, a.spec, st).0;
            Fault(env, node, a, ff, st) == (
              Folded(ff.crashed || (a.place.OnService? && a.spec.kind.Crash? && active),
                     ff.disconnected || (a.place.OnEdge? && a.spec.kind.Disconnect? && active),
                     if Overrides(a) then OverrideRate(a.spec, intensity) else ff.errorRate,
                     if Overrides(a) then DefaultFaultErrorType(env.schema, node) else ff.errorType,
                     ff.inflate + (if a.spec.kind.LatencyInflation? && active then SampleInflation(a.spec, intensity) else 0)),
              next)
  {
    hide FaultIntensityFor, FaultActive, SampleInflation, OverrideRate, DefaultFaultErrorType;
  }

  lemma FaultJudged(env: Env, node: Node, a: Applied, ff: Folded, st: State) returns (v: Verdict)
    ensures var (ff', st') := Fault(env, node, a, ff, st);
            Judged(env, a, v, st, st') && ff' == Changed(env.schema, node, a, v, ff)
  {
    hide FaultIntensityFor, FaultActive, InForce, SampleInflation, Added, OverrideRate, DefaultFaultErrorType, ForcedError,
      OverridingRate, Fault, Judged, Strikes, Overrides;
    var (intensity, st1) := FaultIntensityFor(env, a.spec, st);
    IntensityMeans(env, a.spec, st);
    AddedMeans(a.spec, intensity);
    ErrorMeans(env.schema, node);
    var active, next := false, st1;
    if Strikes(a) {
      active, next := FaultActive(env, a.spec, intensity, st1).0, FaultActive(env, a.spec, intensity, st1).1;
      ActiveMeans(env, a, intensity, st1);
    }
    v := Verdict(intensity, active);
    FaultShape(env, node, a, ff, st, active, next);
    OverrideMeans(a, v);
    SameFrom(env, a, v, st, st1, next);
  }

  lemma OverrideMeans(a: Applied, v: Verdict)
    ensures OverrideRate(a.spec, v.intensity) == OverridingRate(a, v)
  {
    ScaledMeans(a.spec.severity.value, v.intensity);
  }

  /** Reading the clock moves no other stream. */
  lemma SameFrom(env: Env, a: Applied, v: Verdict, st: State, middle: State, next: State)
    requires InForce(env, a.spec, v.intensity, st, middle) && middle.cursor == st.cursor && middle.polls == st.polls
    requires if Strikes(a) then Decided(env, a, v, middle, next) && next == middle.(cursor := next.cursor)
             else next == middle && !v.active
    ensures Judged(env, a, v, st, next)
  {
    hide ScheduleGives, TargetKey;
  }

  /** ff is what base becomes under the verdicts. */
  ghost predicate SoFar(s: Schema, node: Node, applied: seq<Applied>, vs: seq<Verdict>, base: Folded, ff: Folded)
    requires |vs| == |applied|
  {
    && (ff.crashed <==> base.crashed || Struck(applied, vs, OnService, Crash))
    && (ff.disconnected <==> base.disconnected || Struck(applied, vs, OnEdge, Disconnect))
    && (forall i | 0 <= i < |applied| && LastOverride(applied, i) ::
          ff.errorRate == OverridingRate(applied[i], vs[i]))
    && (NoOverride(applied) ==> ff.errorRate == base.errorRate)
    && ff.errorType == (if NoOverride(applied) then base.errorType else ForcedError(s, node))
    && ff.inflate == base.inflate + AddedAll(applied, vs)
  }

  lemma OneMore(s: Schema, node: Node, applied: seq<Applied>, vs: seq<Verdict>, a: Applied, v: Verdict, base: Folded, ff: Folded)
    requires |vs| == |applied| && SoFar(s, node, applied, vs, base, ff)
    ensures SoFar(s, node, applied + [a], vs + [v], base, Changed(s, node, a, v, ff))
  {
    hide OverridingRate, Added, ForcedError, Overrides, LastOverride, NoOverride, Struck;
    var all, verdicts := applied + [a], vs + [v];
    assert all[..|applied|] == applied && verdicts[..|vs|] == vs;
    assert all[|applied|] == a && verdicts[|vs|] == v;
    StruckMore(applied, vs, a, v, OnService, Crash);
    StruckMore(applied, vs, a, v, OnEdge, Disconnect);
    LastMore(applied, a);
    forall i | 0 <= i < |all| && LastOverride(all, i)
      ensures Changed(s, node, a, v, ff).errorRate == OverridingRate(all[i], verdicts[i])
    {
      LastMore(applied, a);
      if i < |applied| {
        assert all[i] == applied[i] && verdicts[i] == vs[i];
        assert LastOverride(applied, i);
      }
    }
  }

  lemma LastMore(applied: seq<Applied>, a: Applied)
    ensures NoOverride(applied + [a]) <==> NoOverride(applied) && !Overrides(a)
    ensures forall i: nat | i < |applied| + 1 ::
              LastOverride(applied + [a], i) <==> if i == |applied| then Overrides(a) else !Overrides(a) && LastOverride(applied, i)
  {
    hide Overrides;
    var all := applied + [a];
    assert all[|applied|] == a && forall b :: b in all <==> b in applied || b == a;
    forall i: nat | i < |all|
      ensures LastOverride(all, i) <==> if i == |applied| then Overrides(a) else !Overrides(a) && LastOverride(applied, i)
    {
      assert forall j | 0 <= j < |applied| :: all[j] == applied[j];
    }
  }

  lemma StruckMore(applied: seq<Applied>, vs: seq<Verdict>, a: Applied, v: Verdict, place: Place, kind: FaultKind)
    requires |vs| == |applied|
    ensures Struck(applied + [a], vs + [v], place, kind)
       <==> Struck(applied, vs, place, kind) || (a.place == place && a.spec.kind == kind && v.active)
  {
    var all, verdicts := applied + [a], vs + [v];
    assert all[|applied|] == a && verdicts[|vs|] == v;
    if Struck(applied, vs, place, kind) {
      var i :| 0 <= i < |applied| && applied[i].place == place && applied[i].spec.kind == kind && vs[i].active;
      assert all[i] == applied[i] && verdicts[i] == vs[i];
    }
  }

  lemma {:induction false} FaultsJudged(env: Env, node: Node, done: seq<Applied>, vs: seq<Verdict>, sts: seq<State>,
                                        more: seq<Applied>, base: Folded, ff: Folded)
    returns (vs': seq<Verdict>, sts': seq<State>)
    requires AllJudged(env, done, vs, sts) && SoFar(env.schema, node, done, vs, base, ff)
    ensures var (ff', st') := Faults(env, node, more, ff, sts[|done|]);
            && AllJudged(env, done + more, vs', sts') && SoFar(env.schema, node, done + more, vs', base, ff')
            && sts'[0] == sts[0] && sts'[|sts'| - 1] == st'
    decreases more
  {
    hide Fault, Judged, SoFar;
    if more == [] {
      assert done + more == done;
      vs', sts' := vs, sts;
    } else {
      var v := FaultJudged(env, node, more[0], ff, sts[|done|]);
      var (ff1, st1) := Fault(env, node, more[0], ff, sts[|done|]);
      OneMore(env.schema, node, done, vs, more[0], v, base, ff);
      assert done + more == (done + [more[0]]) + more[1..];
      vs', sts' := FaultsJudged(env, node, done + [more[0]], vs + [v], sts + [st1], more[1..], base, ff1);
    }
  }

  lemma {:induction false} ListsFold(env: Env, node: Node, specs: seq<FaultSpec>, ff: Folded, st: State)
    ensures FoldNodeFaults(env, specs, ff, st) == Faults(env, node, Put(OnService, specs), ff, st)
    ensures FoldEdgeFaults(env, specs, ff, st) == Faults(env, node, Put(OnEdge, specs), ff, st)
    ensures FoldOperationFaults(env, node, specs, ff, st) == Faults(env, node, Put(OnOperation, specs), ff, st)
    decreases specs
  {
    hide NodeFault, EdgeFault, OperationFault;
    if specs != [] {
      var n := NodeFault(env, specs[0], ff, st);
      var e := EdgeFault(env, specs[0], ff, st);
      var o := OperationFault(env, node, specs[0], ff, st);
      ListsFold(env, node, specs[1..], n.0, n.1);
      ListsFold(env, node, specs[1..], e.0, e.1);
      ListsFold(env, node, specs[1..], o.0, o.1);
      assert Put(OnService, specs)[1..] == Put(OnService, specs[1..]);
      assert Put(OnEdge, specs)[1..] == Put(OnEdge, specs[1..]);
      assert Put(OnOperation, specs)[1..] == Put(OnOperation, specs[1..]);
    }
  }

  lemma SpecsMean(env: Env, node: Node)
    ensures SpecsOfNode(env, node) == ServiceSpecs(env, node) && SpecsOfEdge(env, node) == EdgeSpecs(env, node)
    ensures SpecsOfOperation(env, node) == OperationSpecs(env, node)
  {
  }

  /**
   Every fault the overlay holds for the node's service, edge and operation is judged once, in that order,
   and the folded fault is what their verdicts add up to.
   */
  lemma FoldedFromOverlay(env: Env, node: Node, st: State) returns (vs: seq<Verdict>, sts: seq<State>)
    ensures AllJudged(env, Applying(env, node), vs, sts)
    ensures sts[0] == st && sts[|sts| - 1] == FoldFaults(env, node, st).1
    ensures AddsUp(env, node, Applying(env, node), vs, FoldFaults(env, node, st).0)
  {
    hide FoldNodeFaults, FoldEdgeFaults, FoldOperationFaults, SpecsOfNode, SpecsOfEdge, SpecsOfOperation, Judged,
      ServiceSpecs, EdgeSpecs, OperationSpecs, Faults, SoFar, AddsUp;
    SpecsMean(env, node);
    var a, b, c := Put(OnService, ServiceSpecs(env, node)), Put(OnEdge, EdgeSpecs(env, node)), Put(OnOperation, OperationSpecs(env, node));
    var (ff1, st1) := FoldNodeFaults(env, SpecsOfNode(env, node), NO_FAULT, st);
    var native := NativeErrorRate(env, node, ff1);
    var (ff2, st2) := FoldEdgeFaults(env, SpecsOfEdge(env, node), native, st1);
    ListsFold(env, node, ServiceSpecs(env, node), NO_FAULT, st);
    ListsFold(env, node, EdgeSpecs(env, node), native, st1);
    ListsFold(env, node, OperationSpecs(env, node), ff2, st2);
    NothingYet(env.schema, node, NO_FAULT);
    vs, sts := FaultsJudged(env, node, [], [], [st], a, NO_FAULT, NO_FAULT);
    assert [] + a == a;
    NativeSet(env, node, a, vs, ff1);
    var base := NativeErrorRate(env, node, NO_FAULT);
    vs, sts := FaultsJudged(env, node, a, vs, sts, b, base, native);
    vs, sts := FaultsJudged(env, node, a + b, vs, sts, c, base, ff2);
    FromBase(env, node, a + b + c, vs, FoldFaults(env, node, st).0);
  }

  lemma NothingYet(s: Schema, node: Node, base: Folded)
    ensures SoFar(s, node, [], [], base, base)
  {
  }

  /** Between the service's faults and the rest the edge's own rate is set; no override has come yet. */
  lemma NativeSet(env: Env, node: Node, a: seq<Applied>, vs: seq<Verdict>, ff: Folded)
    requires |vs| == |a| && SoFar(env.schema, node, a, vs, NO_FAULT, ff) && forall x | x in a :: x.place.OnService?
    ensures SoFar(env.schema, node, a, vs, NativeErrorRate(env, node, NO_FAULT), NativeErrorRate(env, node, ff))
  {
    assert NoOverride(a);
    assert forall i | 0 <= i < |a| :: a[i] in a;
  }

  lemma FromBase(env: Env, node: Node, applied: seq<Applied>, vs: seq<Verdict>, ff: Folded)
    requires |vs| == |applied| && SoFar(env.schema, node, applied, vs, NativeErrorRate(env, node, NO_FAULT), ff)
    ensures AddsUp(env, node, applied, vs, ff)
  {
    hide Struck, AddedAll, LastOverride, NoOverride, ForcedError, Clamped, NativeErrorRate;
    NativeMeans(env, node);
  }

  lemma NativeMeans(env: Env, node: Node)
    ensures NativeErrorRate(env, node, NO_FAULT)
         == Folded(false, false, if node.edge.Edge? then Clamped(node.edge.errorRate) else 0.0,
                   if node.edge.Edge? && node.edge.errorRate > 0.0 then ForcedError(env.schema, node) else NoError, 0)
  {
    hide ForcedError, DefaultFaultErrorType;
    ErrorMeans(env.schema, node);
    if node.edge.Edge? { ClampKeeps(node.edge.errorRate); }
  }

  /** The verdicts are determined: there is one way to judge the faults from a given state. */
  lemma {:induction false} OneJudgment(env: Env, applied: seq<Applied>, vs: seq<Verdict>, sts: seq<State>,
                                       vs': seq<Verdict>, sts': seq<State>)
    requires AllJudged(env, applied, vs, sts) && AllJudged(env, applied, vs', sts') && sts[0] == sts'[0]
    ensures vs == vs' && sts == sts'
    decreases applied
  {
    hide InForce, Decided;
    if applied != [] {
      assert Judged(env, applied[0], vs[0], sts[0], sts[1]) && Judged(env, applied[0], vs'[0], sts'[0], sts'[1]);
      SameJudgment(env, applied[0], vs[0], sts[0], sts[1], vs'[0], sts'[1]);
      forall i | 0 <= i < |applied| - 1
        ensures Judged(env, applied[1..][i], vs[1..][i], sts[1..][i], sts[1..][i + 1])
        ensures Judged(env, applied[1..][i], vs'[1..][i], sts'[1..][i], sts'[1..][i + 1])
      {
        assert Judged(env, applied[i + 1], vs[i + 1], sts[i + 1], sts[i + 2]);
        assert Judged(env, applied[i + 1], vs'[i + 1], sts'[i + 1], sts'[i + 2]);
      }
      OneJudgment(env, applied[1..], vs[1..], sts[1..], vs'[1..], sts'[1..]);
    }
  }

  lemma SameJudgment(env: Env, a: Applied, v: Verdict, from: State, to: State, v': Verdict, to': State)
    requires Judged(env, a, v, from, to) && Judged(env, a, v', from, to')
    ensures v == v' && to == to'
  {
    hide TargetKey, ScheduleGives;
    var points, elapsed := a.spec.schedule, env.elapsed(from.readings);
    if ScheduleGives(points, elapsed, v.intensity) && ScheduleGives(points, elapsed, v'.intensity) {
      ScheduleGivesOne(points, elapsed, v.intensity, v'.intensity);
    }
    assert v.intensity == v'.intensity;
  }

  // ----- Certain faults

  /** A disconnect or crash set on the call that is certain at the global intensity always strikes. */
  lemma CertainFaultStrikes(env: Env, node: Node, st: State, spec: FaultSpec)
    requires env.targetIntensity == map[] && spec.schedule == [] && spec.severity.probability * env.globalIntensity >= 1.0
    ensures spec in EdgeSpecs(env, node) && spec.kind == Disconnect ==> FoldFaults(env, node, st).0.disconnected
    ensures spec in ServiceSpecs(env, node) && spec.kind == Crash ==> FoldFaults(env, node, st).0.crashed
  {
    hide FoldFaults, Judged, RateIs, AddedAll;
    var applied := Applying(env, node);
    var vs, sts := FoldedFromOverlay(env, node, st);
    var chance := spec.severity.probability * env.globalIntensity;
    if spec in EdgeSpecs(env, node) {
      var a := Applied(OnEdge, spec);
      var k :| 0 <= k < |EdgeSpecs(env, node)| && EdgeSpecs(env, node)[k] == spec;
      var i := |ServiceSpecs(env, node)| + k;
      assert applied[i] == a;
      if spec.kind == Disconnect { CertainVerdict(env, a, vs[i], sts[i], sts[i + 1]); }
    }
    if spec in ServiceSpecs(env, node) {
      var a := Applied(OnService, spec);
      var i :| 0 <= i < |ServiceSpecs(env, node)| && ServiceSpecs(env, node)[i] == spec;
      assert applied[i] == a;
      if spec.kind == Crash { CertainVerdict(env, a, vs[i], sts[i], sts[i + 1]); }
    }
  }

  lemma CertainVerdict(env: Env, a: Applied, v: Verdict, from: State, to: State)
    requires env.targetIntensity == map[] && a.spec.schedule == [] && a.spec.severity.probability * env.globalIntensity >= 1.0
    requires Strikes(a) && Judged(env, a, v, from, to)
    ensures v.active
  {
    hide TargetKey, Strikes;
    assert v.intensity == env.globalIntensity;
  }
}
