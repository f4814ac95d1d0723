/** The loops of topology/marshal.go, each meeting its function in Marshal.dfy. */
module Marshaller {
  import opened Wrappers
  import opened Strings
  import opened Topology
  import opened RawDocument
  import opened Tokens
  import Spec = Marshal

  method MarshalCallNodes(s: Schema, nodes: seq<CallNode>) returns (out: seq<RawCallNode>)
    ensures out == Spec.MarshalCallNodes(s, nodes)
    decreases nodes, 0
  {
    out := [];
    for i := 0 to |nodes|
      invariant out == Spec.MarshalCallNodes(s, nodes[..i])
    {
      var node := MarshalCallNode(s, nodes[i]);
      out := out + [node];
      assert nodes[..i + 1][..i] == nodes[..i];
    }
    assert nodes[..|nodes|] == nodes;
  }

  method MarshalCallNode(s: Schema, n: CallNode) returns (out: RawCallNode)
    ensures out == Spec.MarshalCallNode(s, n)
    decreases n, 1
  {
    if n.NilCall? { return EMPTY_CALL; }
    if n.edge.Edge? {
      out := MarshalEdge(s, n.edge);
      return;
    }
    var children := MarshalCallNodes(s, n.parallel);
    out := EMPTY_CALL.(parallel := children);
  }

  /** The fields common to all edges first, then a patch for every field that is not at its default. */
  method MarshalEdge(s: Schema, e: Edge) returns (rc: RawCallNode)
    ensures rc == Spec.MarshalEdge(s, e)
    decreases e, 1
  {
    if e.NilEdge? { return EMPTY_CALL; }
    var onFailure := MarshalRecoveryPolicy(s, e.onFailure);
    rc := EMPTY_CALL.(to := Some(Spec.MarshalCallTarget(s, e.to)), protocol := PrintProtocol(e.protocol),
                      latency := Spec.MarshalLatency(e.latency), retryBackoff := PrintBackoff(e.retryBackoff), onFailure := onFailure);
    if e.errorRate != 0.0 { rc := rc.(errorRate := Some(e.errorRate)); }
    if e.timeout != 0 { rc := rc.(timeout := Some(e.timeout)); }
    if e.retries != 0 { rc := rc.(retries := Some(e.retries)); }
    if e.retryBaseDelay != 0 && e.retryBaseDelay != DEFAULT_RETRY_BASE_DELAY {
      rc := rc.(retryBaseDelay := Some(e.retryBaseDelay));
    }
    if e.retryBackoff == Exponential { rc := rc.(retryBackoff := ""); }
  }

  method MarshalRecoveryPolicy(s: Schema, policy: Option<RecoveryPolicy>) returns (out: Option<RawRecoveryPolicy>)
    ensures out == match policy
                   case None => None
                   case Some(rp) =>
                     Some(RawRecoveryPolicy(Spec.MarshalFallbacks(s, rp.fallback),
                                            if rp.onExhausted == Propagate then "" else PrintExhausted(rp.onExhausted),
                                            rp.defaultResponse))
    decreases policy, 1
  {
    if policy.None? { return None; }
    var rp, fallback := policy.value, [];
    for i := 0 to |rp.fallback|
      invariant fallback == Spec.MarshalFallbacks(s, rp.fallback[..i])
    {
      var edge := MarshalEdge(s, rp.fallback[i]);
      fallback := fallback + [edge];
      assert rp.fallback[..i + 1][..i] == rp.fallback[..i];
    }
    assert rp.fallback[..|rp.fallback|] == rp.fallback;
    var raw := RawRecoveryPolicy(fallback, "", rp.defaultResponse);
    if rp.onExhausted != Propagate { raw := raw.(onExhausted := PrintExhausted(rp.onExhausted)); }
    out := Some(raw);
  }

  method MarshalSteps(s: Schema, steps: seq<Step>) returns (out: seq<RawStep>)
    ensures out == Spec.MarshalSteps(s, steps)
    decreases steps, 0
  {
    out := [];
    for i := 0 to |steps|
      invariant out == Spec.MarshalSteps(s, steps[..i])
    {
      var step := MarshalStep(s, steps[i]);
      out := out + [step];
      assert steps[..i + 1][..i] == steps[..i];
    }
    assert steps[..|steps|] == steps;
  }

  method MarshalStep(s: Schema, step: Step) returns (out: RawStep)
    ensures out == Spec.MarshalStep(s, step)
    decreases step, 1
  {
    if step.NilStep? { return RawStep("", "", []); }
    if step.op.Some? {
      var target := Spec.MarshalCallTarget(s, step.op);
      return RawStep(target.service, target.operation, []);
    }
    var children := MarshalSteps(s, step.parallel);
    out := RawStep("", "", children);
  }

  /** Operations are listed in ascending order of name. */
  method MarshalOperations(s: Schema, ops: map<string, Option<OpRef>>) returns (out: seq<RawOperation>)
    ensures out == Spec.MarshalOperations(s, ops, Ascending(ops.Keys))
  {
    var names := SortKeys(ops.Keys);
    out := [];
    for i := 0 to |names|
      invariant |out| == i && forall k | 0 <= k < i :: out[k] == Spec.MarshalOperation(s, names[k], ops[names[k]])
    {
      if ops[names[i]].None? {
        out := out + [EMPTY_OPERATION.(name := names[i])];
      } else {
        var o := s.Op(ops[names[i]].value);
        var calls := MarshalCallNodes(s, o.calls);
        out := out + [RawOperation(o.name, calls, Present(Map(Spec.MarshalLogEvent, o.telemetry.logEvents)),
                                   Present(Map(Spec.MarshalMetric, o.telemetry.metrics)),
                                   Present(Map(Spec.MarshalStateUpdate, o.telemetry.stateUpdates)),
                                   Spec.MarshalProfile(o.telemetry.profile))];
      }
    }
  }

  method MarshalService(s: Schema, ref: Option<SvcRef>) returns (rs: RawService)
    ensures rs == Spec.MarshalService(s, ref)
  {
    hide Spec.MarshalOperations;
    if ref.None? { return EMPTY_SERVICE; }
    var svc := s.Svc(ref.value);
    var operations := MarshalOperations(s, svc.operations);
    rs := RawService("", PrintServiceKind(svc.kind), None, svc.language, svc.framework, svc.version,
                     Present(Map(Spec.MarshalObservable, svc.metrics)), operations);
    if svc.ns != "" && svc.ns != Spec.EffectiveNamespace(s) { rs := rs.(ns := svc.ns); }
    if svc.replicas != 1 { rs := rs.(replicas := Some(svc.replicas)); }
  }

  method MarshalServices(s: Schema) returns (services: map<string, Option<RawService>>)
    ensures services == map id | id in s.services :: Some(Spec.MarshalService(s, s.services[id]))
  {
    hide Spec.MarshalService;
    services := map[];
    var ids := SortKeys(s.services.Keys);
    for i := 0 to |ids|
      invariant services == map id | id in ids[..i] :: Some(Spec.MarshalService(s, s.services[id]))
    {
      var rs := MarshalService(s, s.services[ids[i]]);
      services := services[ids[i] := Some(rs)];
      assert ids[..i + 1] == ids[..i] + [ids[i]];
    }
    assert ids[..|ids|] == ids;
  }

  method MarshalJourneys(s: Schema) returns (journeys: map<string, Option<RawJourney>>)
    ensures journeys == map name | name in s.journeys :: Some(Spec.MarshalJourney(s, s.journeys[name]))
  {
    hide Spec.MarshalJourney;
    journeys := map[];
    var names := SortKeys(s.journeys.Keys);
    for i := 0 to |names|
      invariant journeys == map name | name in names[..i] :: Some(Spec.MarshalJourney(s, s.journeys[name]))
    {
      var rj := MarshalJourney(s, s.journeys[names[i]]);
      journeys := journeys[names[i] := Some(rj)];
      assert names[..i + 1] == names[..i] + [names[i]];
    }
    assert names[..|names|] == names;
  }

  method MarshalYAML(s: Schema) returns (raw: RawSchema)
    ensures raw == Spec.MarshalSchema(s)
  {
    hide Spec.MarshalService, Spec.MarshalJourney, Spec.MarshalFault;
    var services := MarshalServices(s);
    var journeys := MarshalJourneys(s);
    var faults := [];
    for i := 0 to |s.faults|
      invariant |faults| == i && forall k | 0 <= k < i :: faults[k] == Some(Spec.MarshalFault(s, s.faults[k]))
    {
      faults := faults + [Some(Spec.MarshalFault(s, s.faults[i]))];
    }
    raw := RawSchema(if s.ns == "" || s.ns == DEFAULT_NAMESPACE then "" else s.ns, services, journeys, faults);
  }

  method MarshalJourney(s: Schema, j: Option<Journey>) returns (raw: RawJourney)
    ensures raw == Spec.MarshalJourney(s, j)
  {
    if j.None? { return EMPTY_JOURNEY; }
    var steps := MarshalSteps(s, j.value.steps);
    raw := RawJourney(steps, None);
    if j.value.weight != 1.0 { raw := raw.(weight := Some(j.value.weight)); }
  }
}
