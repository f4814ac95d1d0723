/**
 What a printed document leaves out.  Reading back cannot tell an elided default from
 a printed one; here every field is absent exactly when it is its default, and the
 names of nil objects are those of the source.
 */
module MarshalMeaning {
  import opened Wrappers
  import opened Strings
  import opened Topology
  import opened RawDocument
  import opened Tokens
  import opened Marshal
  import opened Equal

  lemma TokensPrinted()
    ensures forall b: BackoffPolicy :: PrintBackoff(b) != ""
    ensures forall a: ExhaustedAction :: PrintExhausted(a) != ""
    ensures forall c: LogCondition :: PrintCondition(c) != ""
    ensures forall v: LogSeverity :: PrintSeverity(v) != ""
  {
  }

  predicate Unset<T>(v: Option<T>, isDefault: bool) {
    v.None? <==> isDefault
  }

  /** A latency is left out when it is constantly 0; a tail when it is 0 or the median. */
  lemma LatencyElides(l: LatencyDist)
    ensures var r, plain := MarshalLatency(l), l.distribution == "" || l.distribution == "constant";
      && Unset(r, plain && l.p50 == 0 && l.p95 == 0)
      && (r.Some? ==>
            && (r.value.distribution == "" <==> plain)
            && Unset(r.value.p50, l.p50 == 0) && Unset(r.value.p95, l.p95 == 0 || l.p95 == l.p50))
  {
  }

  /** Of an edge only the target and the protocol are always printed. */
  lemma EdgeElides(s: Schema, e: Edge)
    requires e.Edge?
    ensures var r := MarshalEdge(s, e);
      && r.RawCallNode? && r.to.Some? && r.parallel == [] && r.protocol != ""
      && r.latency == MarshalLatency(e.latency)
      && Unset(r.errorRate, e.errorRate == 0.0) && Unset(r.timeout, e.timeout == 0) && Unset(r.retries, e.retries == 0)
      && (r.retryBackoff == "" <==> e.retryBackoff == Exponential)
      && Unset(r.retryBaseDelay, e.retryBaseDelay == 0 || e.retryBaseDelay == 100_000_000)
      && Unset(r.onFailure, e.onFailure.None?)
      && (e.onFailure.Some? ==> (r.onFailure.value.onExhausted == "" <==> e.onFailure.value.onExhausted == Propagate))
  {
    hide MarshalLatency, MarshalCallTarget, MarshalFallbacks;
    TokensPrinted();
  }

  /** Telemetry: zero numbers, the usual severity, condition and sample rate are left out. */
  lemma TelemetryElides(l: MetricFaultLink, ev: LogEventSpec, m: MetricSpec, o: ObservableMetricSpec, u: StateUpdateSpec, p: ProfileSpec)
    ensures Unset(MarshalFaultLink(l).delta, l.hasValue || l.delta == 0.0) && Unset(MarshalFaultLink(l).value, !l.hasValue)
    ensures (MarshalLogEvent(ev).severity == "" <==> ev.severity == Info) && (MarshalLogEvent(ev).condition == "" <==> ev.condition == Always)
    ensures Unset(MarshalMetric(m).baseline, m.baseline == 0.0) && (MarshalMetric(m).condition == "" <==> m.condition == Always)
    ensures MarshalMetric(m).source.None?
    ensures Unset(MarshalObservable(o).baseline, o.baseline == 0.0) && MarshalObservable(o).condition == ""
    ensures Unset(MarshalObservable(o).source, o.source.None?)
    ensures Unset(MarshalStateUpdate(u).delta, u.delta == 0.0) && (MarshalStateUpdate(u).condition == "" <==> u.condition == Always)
    ensures Unset(MarshalProfile(Some(p)).value.sampleRate, p.sampleRate == 100 || p.sampleRate == 0)
    ensures MarshalProfile(None).None?
  {
    hide MarshalLink, PrintFaultKind, PrintMetricType, Map, Present;
    TokensPrinted();
  }

  /** Services, journeys and faults: the inherited namespace, a single replica, weight 1 and severities of nothing but zeros. */
  lemma SchemaElides(s: Schema, svc: SvcRef, j: Journey, v: SeverityParams)
    ensures var r := MarshalService(s, Some(svc));
      && (r.ns == "" <==> s.Svc(svc).ns in {"", if s.ns == "" then "xk6-otel-gen" else s.ns})
      && Unset(r.replicas, s.Svc(svc).replicas == 1)
    ensures Unset(MarshalJourney(s, Some(j)).weight, j.weight == 1.0)
    ensures var r := MarshalSeverity(v);
      && Unset(r, v.probability == 0.0 && v.multiplier == 0.0 && v.add == 0 && v.value == 0.0)
      && (r.Some? ==>
            && Unset(r.value.probability, v.probability == 0.0) && Unset(r.value.multiplier, v.multiplier == 0.0)
            && Unset(r.value.add, v.add == 0) && Unset(r.value.value, v.value == 0.0))
    ensures MarshalSchema(s).ns == "" <==> s.ns in {"", "xk6-otel-gen"}
  {
    hide MarshalSteps, MarshalOperations, Map, Present, PrintServiceKind;
  }

  /** Nil objects: an empty entry where a list element is nil, and a name that says so. */
  lemma NilPrints(s: Schema, name: string, r: OpRef)
    ensures MarshalEdge(s, NilEdge) == MarshalCallNode(s, NilCall) == RawCallNode(None, [], "", None, None, None, None, "", None, None)
    ensures MarshalCallTarget(s, None) == RawCallTarget("", "") && MarshalStep(s, NilStep) == RawStep("", "", [])
    ensures MarshalOperation(s, name, None) == RawOperation(name, [], [], [], [], None)
    ensures MarshalService(s, None) == RawService("", "", None, "", "", "", [], [])
    ensures MarshalJourney(s, None) == RawJourney([], None)
    ensures IdentifyOp(s, None) == "<nil>" && (s.Op(r).service.None? ==> IdentifyOp(s, Some(r)) == "<nil>." + s.Op(r).name)
    ensures MarshalFaultTarget(s, FaultTarget(TargetNode, None, None, NilEdge)) == "node:"
    ensures MarshalFaultTarget(s, FaultTarget(TargetOperation, None, None, NilEdge)) == "operation:<nil>"
    ensures MarshalFaultTarget(s, FaultTarget(TargetEdge, None, None, NilEdge)) == "edge:"
    ensures ServiceId(s, None) == "" && EdgeIdentity(s, NilEdge) == "<nil>"
  {
    assert "node:" + "" == "node:" && "edge:" + "" == "edge:" && "operation:" + "<nil>" == "operation:<nil>";
  }
}
