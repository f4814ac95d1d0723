/**
 What reloading a parsed schema gives: a schema that validates, and that is Equal
 to the original exactly when the document could carry everything Equal compares.
 */
module Reload {
  import opened Wrappers
  import opened Topology
  import opened RawDocument
  import opened CallGraph
  import opened DagCheck
  import opened Validate
  import opened Resolve
  import opened Marshal
  import opened Equal
  import opened RoundTrip
  import opened ResolvedShape
  import opened SchemaRoundTrip
  import opened NormalForm

  // ----- What a document cannot carry

  predicate LatencyKeeps(l: LatencyDist) {
    l.p95 != 0 || l.p50 == 0
  }

  predicate EdgeKeeps(e: Edge)
    decreases e
  {
    e.Edge? ==> LatencyKeeps(e.latency) && FallbacksKeep(e)
  }

  predicate FallbacksKeep(e: Edge)
    requires e.Edge?
    decreases e, 0
  {
    e.onFailure.Some? ==> forall i | 0 <= i < |e.onFailure.value.fallback| :: EdgeKeeps(e.onFailure.value.fallback[i])
  }

  predicate CallsKeep(ns: seq<CallNode>)
    decreases ns
  {
    forall i | 0 <= i < |ns| :: ns[i].CallNode? ==> EdgeKeeps(ns[i].edge) && CallsKeep(ns[i].parallel)
  }

  predicate LinkKeeps(l: Option<MetricFaultLink>) {
    l.Some? && l.value.hasValue ==> l.value.delta == 0.0
  }

  predicate LinksKeep(t: Telemetry) {
    && (forall i | 0 <= i < |t.metrics| :: LinkKeeps(t.metrics[i].whenFault))
    && (forall i | 0 <= i < |t.stateUpdates| :: LinkKeeps(t.stateUpdates[i].whenFault))
  }

  predicate ServiceLinksKeep(svc: Service) {
    forall i | 0 <= i < |svc.metrics| :: LinkKeeps(svc.metrics[i].whenFault)
  }

  predicate ProfileKeeps(p: Option<ProfileSpec>) {
    p.Some? ==> p.value.sampleRate != 0
  }

  predicate OperationKeeps(o: Operation) {
    CallsKeep(o.calls) && LinksKeep(o.telemetry) && ProfileKeeps(o.telemetry.profile)
  }

  predicate Carried(s: Schema) {
    && (forall id | id in s.services && s.services[id].Some? :: ServiceLinksKeep(s.Svc(s.services[id].value)))
    && (forall ref | ref in s.ops :: OperationKeeps(s.ops[ref]))
  }

  /** R-STR-1 and R-STR-2 hold of every resolved schema by construction. */
  lemma ResolvedPointersOk(raw: RawSchema)
    requires ResolveSchema(raw).Some?
    ensures KeysConsistent(ResolveSchema(raw).value) && BackPointersOk(ResolveSchema(raw).value)
  {
    hide ResolveSchema, ShapedCallNodes, ShapedTelemetry, ShapedSteps, ResolveFaultTarget;
    var s := ResolveSchema(raw).value;
    ResolvedIsShaped(raw);
    OperationsByService(s);
    forall id, name | id in s.services && name in s.Svc(SvcRef(id)).operations
      ensures s.Svc(SvcRef(id)).operations[name] == Some(OpRef(id, name)) && OpRef(id, name) in s.ops
    {
      assert ShapedService(s.Svc(SvcRef(id)), id);
    }
  }

  // ----- Equal on the kept parts

  ghost predicate SameIdentities(s: Schema, t: Schema) {
    forall op {:trigger IdentifyOp(s, op)} :: IdentifyOp(s, op) == IdentifyOp(t, op)
  }

  lemma {:induction false} EqualEdgeIff(s: Schema, t: Schema, e: Edge)
    requires SameIdentities(s, t)
    ensures EqualEdge(s, t, e, KeptEdge(e)) <==> EdgeKeeps(e)
    decreases e
  {
    hide IdentifyOp;
    if e.Edge? {
      assert IdentifyOp(s, e.from) == IdentifyOp(t, e.from) && IdentifyOp(s, e.to) == IdentifyOp(t, e.to);
      if e.onFailure.Some? {
        var fallbacks := e.onFailure.value.fallback;
        forall i | 0 <= i < |fallbacks|
          ensures EqualEdge(s, t, fallbacks[i], KeptEdges(fallbacks)[i]) <==> EdgeKeeps(fallbacks[i])
        {
          EqualEdgeIff(s, t, fallbacks[i]);
          KeptEdgesAt(fallbacks, i);
        }
      }
    }
  }

  lemma {:induction false} EqualCallsIff(s: Schema, t: Schema, ns: seq<CallNode>)
    requires SameIdentities(s, t)
    ensures EqualCalls(s, t, ns, KeptCallNodes(ns)) <==> CallsKeep(ns)
    decreases ns
  {
    hide SameIdentities, EqualEdge, EdgeKeeps, KeptEdge, KeptCallNodes;
    forall i | 0 <= i < |ns|
      ensures EqualCallNode(s, t, ns[i], KeptCallNodes(ns)[i])
         <==> (ns[i].CallNode? ==> EdgeKeeps(ns[i].edge) && CallsKeep(ns[i].parallel))
    {
      KeptCallNodesAt(ns, i);
      if ns[i].CallNode? {
        EqualEdgeIff(s, t, ns[i].edge);
        EqualCallsIff(s, t, ns[i].parallel);
      }
    }
  }

  lemma {:induction false} EqualStepsHold(s: Schema, t: Schema, sts: seq<Step>)
    requires SameIdentities(s, t)
    ensures EqualSteps(s, t, sts, sts)
    decreases sts
  {
    forall i | 0 <= i < |sts|
      ensures EqualStep(s, t, sts[i], sts[i])
    {
      if sts[i].Step? {
        EqualStepsHold(s, t, sts[i].parallel);
        assert IdentifyOp(s, sts[i].op) == IdentifyOp(t, sts[i].op);
      }
    }
  }

  lemma MetricsKeptIff(ms: seq<MetricSpec>)
    ensures Map(KeptMetric, ms) == ms <==> forall i | 0 <= i < |ms| :: LinkKeeps(ms[i].whenFault)
  {
    var kept := Map(KeptMetric, ms);
    forall i | 0 <= i < |ms|
      ensures kept[i] == ms[i] <==> LinkKeeps(ms[i].whenFault)
    {
    }
    if kept == ms {
      forall i | 0 <= i < |ms|
        ensures LinkKeeps(ms[i].whenFault)
      {
        assert kept[i] == ms[i];
      }
    }
  }

  lemma ObservablesKeptIff(ms: seq<ObservableMetricSpec>)
    ensures Map(KeptObservable, ms) == ms <==> forall i | 0 <= i < |ms| :: LinkKeeps(ms[i].whenFault)
  {
    var kept := Map(KeptObservable, ms);
    forall i | 0 <= i < |ms|
      ensures kept[i] == ms[i] <==> LinkKeeps(ms[i].whenFault)
    {
    }
    if kept == ms {
      forall i | 0 <= i < |ms|
        ensures LinkKeeps(ms[i].whenFault)
      {
        assert kept[i] == ms[i];
      }
    }
  }

  lemma UpdatesKeptIff(us: seq<StateUpdateSpec>)
    ensures Map(KeptStateUpdate, us) == us <==> forall i | 0 <= i < |us| :: LinkKeeps(us[i].whenFault)
  {
    var kept := Map(KeptStateUpdate, us);
    forall i | 0 <= i < |us|
      ensures kept[i] == us[i] <==> LinkKeeps(us[i].whenFault)
    {
    }
    if kept == us {
      forall i | 0 <= i < |us|
        ensures LinkKeeps(us[i].whenFault)
      {
        assert kept[i] == us[i];
      }
    }
  }

  lemma EqualOperationIff(s: Schema, t: Schema, ref: OpRef)
    requires SameIdentities(s, t) && t.Op(ref) == KeptOperation(s.Op(ref))
    ensures EqualOperation(s, t, Some(ref), Some(ref)) <==> OperationKeeps(s.Op(ref))
  {
    hide SameIdentities, EqualCalls, CallsKeep, KeptCallNodes, KeptMetric, KeptStateUpdate, IdentifyOp;
    var o := s.Op(ref);
    assert IdentifyOp(s, Some(ref)) == IdentifyOp(t, Some(ref)) by { SameIdentity(s, t, Some(ref)); }
    EqualCallsIff(s, t, o.calls);
    MetricsKeptIff(o.telemetry.metrics);
    UpdatesKeptIff(o.telemetry.stateUpdates);
  }

  lemma SameIdentity(s: Schema, t: Schema, op: Option<OpRef>)
    requires SameIdentities(s, t)
    ensures IdentifyOp(s, op) == IdentifyOp(t, op)
  {
  }

  lemma EqualServiceIff(s: Schema, t: Schema, id: string)
    requires SameIdentities(s, t) && (forall r :: t.Op(r) == KeptOperation(s.Op(r)))
    requires ShapedService(s.Svc(SvcRef(id)), id) && t.Svc(SvcRef(id)) == KeptService(s.Svc(SvcRef(id)))
    ensures EqualService(s, t, Some(SvcRef(id)), Some(SvcRef(id)))
       <==> ServiceLinksKeep(s.Svc(SvcRef(id)))
            && forall name | name in s.Svc(SvcRef(id)).operations :: OperationKeeps(s.Op(OpRef(id, name)))
  {
    hide SameIdentities, EqualOperation, OperationKeeps, KeptOperation, KeptObservable;
    var svc := s.Svc(SvcRef(id));
    ObservablesKeptIff(svc.metrics);
    forall name | name in svc.operations
      ensures svc.operations[name] == Some(OpRef(id, name))
      ensures EqualOperation(s, t, Some(OpRef(id, name)), Some(OpRef(id, name))) <==> OperationKeeps(s.Op(OpRef(id, name)))
    {
      EqualOperationIff(s, t, OpRef(id, name));
    }
  }

  lemma EqualFaultHolds(s: Schema, t: Schema, f: FaultSpec)
    requires SameIdentities(s, t) && forall r :: t.Svc(r).name == s.Svc(r).name
    ensures EqualFault(s, t, f, KeptFault(f))
  {
    hide IdentifyOp;
    var e := f.target.edge;
    assert IdentifyOp(s, f.target.operation) == IdentifyOp(t, f.target.operation);
    if e.Edge? { assert IdentifyOp(s, e.from) == IdentifyOp(t, e.from) && IdentifyOp(s, e.to) == IdentifyOp(t, e.to); }
  }

  /** Every operation object belongs to the service its identity names. */
  lemma OperationsByService(s: Schema)
    requires ShapedHeap(s)
    ensures forall ref :: ref in s.ops <==> ref.svc in s.services && ref.op in s.Svc(SvcRef(ref.svc)).operations
  {
    hide ShapedService;
    var dir := DirectoryOf(s);
    forall ref: OpRef
      ensures ref in s.ops <==> ref.svc in s.services && ref.op in s.Svc(SvcRef(ref.svc)).operations
    {
      assert ref == OpRef(ref.svc, ref.op);
      assert ref in s.ops <==> ref in RefsOf(dir);
    }
  }

  /** Equal accepts the kept schema exactly when the document carried everything. */
  lemma EqualIffCarried(s: Schema)
    requires Shaped(s)
    ensures EqualSchemas(s, Kept(s)) <==> Carried(s)
  {
    hide ShapedOperation, ShapedSteps, ShapedService, ResolveFaultTarget, MarshalFaultTarget, EqualService, EqualFault,
      EqualSteps, OperationKeeps,
      ServiceLinksKeep, Kept, KeptOperation, KeptService, KeptFault, IdentifyOp, RefsOf, DirectoryOf;
    var t := Kept(s);
    KeptKeys(s);
    KeptLooksUp(s);
    KeptNames(s);
    OperationsByService(s);
    forall id | id in s.services
      ensures s.services[id] == Some(SvcRef(id)) && At(t.services, id) == Some(SvcRef(id))
      ensures EqualService(s, t, Some(SvcRef(id)), Some(SvcRef(id)))
         <==> ServiceLinksKeep(s.Svc(SvcRef(id)))
              && forall name | name in s.Svc(SvcRef(id)).operations :: OperationKeeps(s.Op(OpRef(id, name)))
    {
      EqualServiceIff(s, t, id);
    }
    forall name | name in s.journeys
      ensures EqualJourney(s, t, s.journeys[name], At(t.journeys, name))
    {
      EqualStepsHold(s, t, s.journeys[name].value.steps);
    }
    forall i | 0 <= i < |s.faults|
      ensures EqualFault(s, t, s.faults[i], t.faults[i])
    {
      EqualFaultHolds(s, t, s.faults[i]);
    }
    assert EqualSchemas(s, t) <==> forall id | id in s.services :: EqualService(s, t, Some(SvcRef(id)), Some(SvcRef(id)));
    ServicewiseCarried(s);
  }

  lemma ServicewiseCarried(s: Schema)
    requires ShapedHeap(s)
    ensures Carried(s) <==>
            forall id | id in s.services ::
              ServiceLinksKeep(s.Svc(SvcRef(id)))
              && forall name | name in s.Svc(SvcRef(id)).operations :: OperationKeeps(s.Op(OpRef(id, name)))
  {
    hide ServiceLinksKeep, OperationKeeps, ShapedService, DirectoryOf, RefsOf;
    OperationsByService(s);
    forall ref | ref in s.ops
      ensures s.Op(ref) == s.ops[ref] && ref == OpRef(ref.svc, ref.op)
    {
    }
  }
}
