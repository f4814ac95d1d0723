/** The reloaded schema validates, and the exact condition under which a parsed schema survives the round trip. */
module ReloadValid {
  import opened Wrappers
  import opened Topology
  import opened RawDocument
  import opened CallGraph
  import opened DagCheck
  import opened Validate
  import opened Resolve
  import opened Marshal
  import opened Equal
  import opened RoundTrip
  import opened ResolvedShape
  import opened SchemaRoundTrip
  import opened NormalForm
  import opened Reload

  // ----- The graph is untouched

  lemma {:induction false} TargetsOfKept(es: seq<Edge>)
    ensures EdgeTargets(KeptEdges(es)) == EdgeTargets(es)
    decreases es
  {
    if es != [] {
      hide KeptEdges;
      KeptEdgesFirst(es);
      TargetsOfKept(es[1..]);
    }
  }

  lemma SlotsOfKept(s: Schema)
    ensures forall slot :: IsSlot(Kept(s), slot) <==> IsSlot(s, slot)
    ensures forall slot | IsSlot(s, slot) :: SlotOp(Kept(s), slot) == SlotOp(s, slot)
    ensures forall r :: OutgoingTargets(Kept(s), r) == OutgoingTargets(s, r)
    ensures Listed(Kept(s)) == Listed(s)
  {
    hide Kept, KeptObservable, KeptCallNodes, KeptTelemetry;
    KeptKeys(s);
    KeptLooksUp(s);
    forall r
      ensures OutgoingTargets(Kept(s), r) == OutgoingTargets(s, r)
    {
      EdgesOfKept(s.Op(r).calls);
      TargetsOfKept(EdgesInCalls(s.Op(r).calls));
    }
  }

  lemma GraphOfKept(s: Schema, g: Graph)
    requires IsGraphOf(g, Kept(s))
    ensures IsGraphOf(g, s)
  {
    hide Kept, OutgoingTargets, IsSlot, SlotOp;
    SlotsOfKept(s);
    forall op
      ensures InSchema(Kept(s), op) <==> InSchema(s, op)
      ensures Aliased(Kept(s), op) <==> Aliased(s, op)
    {
      if Aliased(Kept(s), op) {
        var a, b :| a != b && IsSlot(Kept(s), a) && IsSlot(Kept(s), b) && SlotOp(Kept(s), a) == op && SlotOp(Kept(s), b) == op;
        assert IsSlot(s, a) && IsSlot(s, b) && SlotOp(s, a) == op && SlotOp(s, b) == op;
      }
      if Aliased(s, op) {
        var a, b :| a != b && IsSlot(s, a) && IsSlot(s, b) && SlotOp(s, a) == op && SlotOp(s, b) == op;
        assert IsSlot(Kept(s), a) && IsSlot(Kept(s), b) && SlotOp(Kept(s), a) == op && SlotOp(Kept(s), b) == op;
      }
    }
  }

  // ----- Rules on trees

  lemma {:induction false} NoOrphansKept(ns: seq<CallNode>, listed: set<OpRef>)
    requires NoOrphans(ns, listed)
    ensures NoOrphans(KeptCallNodes(ns), listed)
    decreases ns
  {
    hide KeptCallNodes;
    forall i | 0 <= i < |ns|
      ensures KeptCallNodes(ns)[i] == KeptCallNode(ns[i])
      ensures ns[i].CallNode? ==> EdgeListed(KeptEdge(ns[i].edge), listed) && NoOrphans(KeptCallNodes(ns[i].parallel), listed)
    {
      KeptCallNodesAt(ns, i);
      if ns[i].CallNode? {
        NoOrphansKept(ns[i].parallel, listed);
        EdgeListedKept(ns[i].edge, listed);
      }
    }
  }

  lemma EdgeListedKept(e: Edge, listed: set<OpRef>)
    requires EdgeListed(e, listed)
    ensures EdgeListed(KeptEdge(e), listed)
  {
    if e.Edge? {
      forall i | 0 <= i < |Fallbacks(e)|
        ensures EndpointsListed(Fallbacks(KeptEdge(e))[i], listed)
      {
        KeptEdgesAt(Fallbacks(e), i);
        assert EndpointsListed(Fallbacks(e)[i], listed);
      }
    }
  }

  lemma {:induction false} VariantsKept(ns: seq<CallNode>)
    requires CallVariantsOk(ns)
    ensures CallVariantsOk(KeptCallNodes(ns))
    decreases ns
  {
    hide KeptCallNodes, KeptEdge;
    forall i | 0 <= i < |ns|
      ensures KeptCallNodes(ns)[i] == KeptCallNode(ns[i])
      ensures CallVariantsOk(KeptCallNodes(ns[i].parallel))
    {
      KeptCallNodesAt(ns, i);
      VariantsKept(ns[i].parallel);
    }
  }

  lemma {:induction false} OwnershipKept(e: Edge)
    requires OwnershipOk(e)
    ensures OwnershipOk(KeptEdge(e))
    decreases e
  {
    if e.Edge? && e.onFailure.Some? {
      var fallbacks := e.onFailure.value.fallback;
      forall i | 0 <= i < |fallbacks|
        ensures KeptEdges(fallbacks)[i] == KeptEdge(fallbacks[i]) && OwnershipOk(KeptEdge(fallbacks[i]))
      {
        KeptEdgesAt(fallbacks, i);
        OwnershipKept(fallbacks[i]);
      }
    }
  }

  lemma DomainKept(e: Edge)
    requires EdgeDomainOk(e)
    ensures EdgeDomainOk(KeptEdge(e))
  {
  }

  lemma EdgeRulesKept(es: seq<Edge>)
    requires forall e | e in es :: OwnershipOk(e) && EdgeDomainOk(e)
    ensures forall e | e in KeptEdges(es) :: OwnershipOk(e) && EdgeDomainOk(e)
  {
    hide KeptEdges, KeptEdge, OwnershipOk, EdgeDomainOk;
    forall e | e in KeptEdges(es)
      ensures OwnershipOk(e) && EdgeDomainOk(e)
    {
      var i :| 0 <= i < |es| && KeptEdges(es)[i] == e;
      KeptEdgesAt(es, i);
      assert es[i] in es;
      OwnershipKept(es[i]);
      DomainKept(es[i]);
    }
  }

  lemma TelemetryKept(t: Telemetry)
    requires TelemetryOk(t)
    ensures TelemetryOk(KeptTelemetry(t))
  {
  }

  lemma OperationKept(s: Schema, op: OpRef)
    requires OperationOk(s, Listed(s), op)
    ensures OperationOk(Kept(s), Listed(Kept(s)), op)
  {
    hide Kept, NoOrphans, CallVariantsOk, OwnershipOk, EdgeDomainOk, TelemetryOk, KeptCallNodes, KeptTelemetry, Listed;
    KeptLooksUp(s);
    SlotsOfKept(s);
    var calls := s.Op(op).calls;
    NoOrphansKept(calls, Listed(s));
    VariantsKept(calls);
    EdgesOfKept(calls);
    EdgeRulesKept(EdgesInCalls(calls));
    TelemetryKept(s.Op(op).telemetry);
  }

  lemma EdgeIdKept(s: Schema, listed: set<OpRef>, id: EdgeRef)
    requires id in EdgeIds(s, listed)
    ensures id in EdgeIds(Kept(s), listed)
  {
    hide Kept, KeptCallNodes, KeptEdges;
    KeptLooksUp(s);
    var op, e :| op in listed && e in EdgesInCalls(s.Op(op).calls) && e.Edge? && e.id == id;
    var es := EdgesInCalls(s.Op(op).calls);
    var i :| 0 <= i < |es| && es[i] == e;
    EdgesOfKept(s.Op(op).calls);
    KeptEdgesAt(es, i);
    assert KeptEdge(e) in EdgesInCalls(Kept(s).Op(op).calls);
  }

  lemma FaultKept(s: Schema, f: FaultSpec)
    requires FaultTargetOk(s, Listed(s), f.target) && FaultDomainOk(f)
    ensures FaultTargetOk(Kept(s), Listed(Kept(s)), KeptFault(f).target) && FaultDomainOk(KeptFault(f))
  {
    hide Kept, Listed, EdgeIds, ScheduleOk;
    KeptKeys(s);
    SlotsOfKept(s);
    if f.target.edge.Edge? && f.target.kind.TargetEdge? { EdgeIdKept(s, Listed(s), f.target.edge.id); }
  }

  lemma PointersKept(s: Schema)
    requires KeysConsistent(s) && BackPointersOk(s)
    ensures KeysConsistent(Kept(s)) && BackPointersOk(Kept(s))
  {
    hide Kept, KeptCallNodes, KeptTelemetry, KeptObservable;
    KeptKeys(s);
    KeptLooksUp(s);
  }

  lemma ServicesKept(s: Schema)
    requires ServicesOk(s)
    ensures ServicesOk(Kept(s))
  {
    hide Kept, KeptService, ServiceDomainOk, KeptOperation;
    KeptKeys(s);
    KeptLooksUp(s);
    forall id | id in s.services && s.services[id].Some?
      ensures ServiceDomainOk(Kept(s).Svc(s.services[id].value))
    {
      ServiceKept(s.Svc(s.services[id].value));
    }
  }

  /** Validation survives printing and reading back. */
  lemma ValidKept(s: Schema)
    requires Valid(s)
    ensures Valid(Kept(s))
  {
    hide Kept, OperationOk, FaultTargetOk, FaultDomainOk, JourneyOk, KeptFault, Listed, IsGraphOf, Acyclic,
      KeysConsistent, BackPointersOk, ServicesOk;
    var t := Kept(s);
    KeptKeys(s);
    SlotsOfKept(s);
    PointersKept(s);
    ServicesKept(s);
    forall g | IsGraphOf(g, t)
      ensures Acyclic(g)
    {
      GraphOfKept(s, g);
    }
    forall op | op in Listed(t)
      ensures OperationOk(t, Listed(t), op)
    {
      OperationKept(s, op);
    }
    forall i | 0 <= i < |t.faults|
      ensures FaultTargetOk(t, Listed(t), t.faults[i].target) && FaultDomainOk(t.faults[i])
    {
      FaultKept(s, s.faults[i]);
    }
  }

  lemma ServiceKept(svc: Service)
    requires ServiceDomainOk(svc)
    ensures ServiceDomainOk(KeptService(svc))
  {
  }

  // ----- The condition on parsed schemas

  /** Fallbacks of fallbacks, which no domain rule visits. */
  predicate NestedKeep(e: Edge) {
    forall i | 0 <= i < |Fallbacks(e)| :: Fallbacks(e)[i].Edge? ==> FallbacksKeep(Fallbacks(e)[i])
  }

  predicate NestedCallsKeep(ns: seq<CallNode>)
    decreases ns
  {
    forall i | 0 <= i < |ns| :: ns[i].CallNode? ==> NestedKeep(ns[i].edge) && NestedCallsKeep(ns[i].parallel)
  }

  /** Only a disabled profile can have escaped the rule on sample rates. */
  predicate DisabledProfileKeeps(p: Option<ProfileSpec>) {
    p.Some? && !p.value.enabled ==> p.value.sampleRate != 0
  }

  /** What a caller must check of a parsed schema before relying on the round trip. */
  predicate SurvivesReload(s: Schema) {
    && (forall id | id in s.services && s.services[id].Some? :: ServiceLinksKeep(s.Svc(s.services[id].value)))
    && (forall ref | ref in s.ops ::
          && LinksKeep(s.ops[ref].telemetry)
          && DisabledProfileKeeps(s.ops[ref].telemetry.profile)
          && NestedCallsKeep(s.ops[ref].calls))
  }

  lemma CheckedEdgeKeeps(e: Edge)
    requires e.Edge? && EdgeDomainOk(e)
    requires forall f | f in Fallbacks(e) :: f.Edge? ==> EdgeDomainOk(f)
    ensures EdgeKeeps(e) <==> NestedKeep(e)
  {
    forall i | 0 <= i < |Fallbacks(e)|
      ensures EdgeKeeps(Fallbacks(e)[i]) <==> (Fallbacks(e)[i].Edge? ==> FallbacksKeep(Fallbacks(e)[i]))
    {
      assert Fallbacks(e)[i] in Fallbacks(e);
    }
  }

  lemma {:induction false} InNonNil(es: seq<Edge>, e: Edge)
    requires e in es && e.Edge?
    ensures e in NonNil(es)
    decreases es
  {
    if es[0] != e { InNonNil(es[1..], e); }
  }

  lemma {:induction false} InCalls(ns: seq<CallNode>, i: nat, e: Edge)
    requires i < |ns| && e in EdgesInNode(ns[i])
    ensures e in EdgesInCalls(ns)
    decreases ns
  {
    if i > 0 { InCalls(ns[1..], i - 1, e); }
  }

  lemma {:induction false} CheckedCallsKeep(ns: seq<CallNode>)
    requires forall e | e in EdgesInCalls(ns) :: EdgeDomainOk(e)
    ensures CallsKeep(ns) <==> NestedCallsKeep(ns)
    decreases ns
  {
    hide EdgesInCalls, EdgeDomainOk, EdgeKeeps, NestedKeep, FallbacksKeep;
    forall i | 0 <= i < |ns| && ns[i].CallNode?
      ensures EdgeKeeps(ns[i].edge) <==> NestedKeep(ns[i].edge)
      ensures CallsKeep(ns[i].parallel) <==> NestedCallsKeep(ns[i].parallel)
    {
      forall e | e in EdgesInNode(ns[i])
        ensures EdgeDomainOk(e)
      {
        InCalls(ns, i, e);
      }
      NodeEdgesChecked(ns[i]);
      CheckedCallsKeep(ns[i].parallel);
    }
  }

  lemma NodeEdgesChecked(n: CallNode)
    requires n.CallNode? && forall e | e in EdgesInNode(n) :: EdgeDomainOk(e)
    ensures forall e | e in EdgesInCalls(n.parallel) :: EdgeDomainOk(e)
    ensures EdgeKeeps(n.edge) <==> NestedKeep(n.edge)
  {
    hide EdgeDomainOk, EdgesInCalls, NonNil, FallbacksKeep;
    if n.edge.Edge? {
      assert n.edge in EdgesInNode(n);
      forall f | f in Fallbacks(n.edge) && f.Edge?
        ensures EdgeDomainOk(f)
      {
        InNonNil(Fallbacks(n.edge), f);
        assert f in EdgesInNode(n);
      }
      CheckedEdgeKeeps(n.edge);
    }
  }

  lemma CarriedIffSurvives(s: Schema)
    requires Shaped(s) && Valid(s)
    ensures Carried(s) <==> SurvivesReload(s)
  {
    hide ShapedOperation, ShapedSteps, ShapedService, ResolveFaultTarget, MarshalFaultTarget, CallsKeep,
      NestedCallsKeep, LinksKeep, ServiceLinksKeep,
      KeysConsistent, BackPointersOk, DagOk, FaultTargetOk, FaultDomainOk, StepsReachable, ServiceDomainOk, EdgeDomainOk, OwnershipOk, NoOrphans, CallVariantsOk;
    OperationsByService(s);
    forall ref | ref in s.ops
      ensures OperationKeeps(s.ops[ref])
         <==> LinksKeep(s.ops[ref].telemetry) && DisabledProfileKeeps(s.ops[ref].telemetry.profile) && NestedCallsKeep(s.ops[ref].calls)
    {
      ListedByService(s, ref);
      assert OperationOk(s, Listed(s), ref) && s.Op(ref) == s.ops[ref];
      CheckedCallsKeep(s.ops[ref].calls);
    }
  }

  lemma ListedByService(s: Schema, ref: OpRef)
    requires ShapedHeap(s) && ref.svc in s.services && ref.op in s.Svc(SvcRef(ref.svc)).operations
    ensures ref in Listed(s)
  {
    hide DirectoryOf, RefsOf;
    assert ShapedService(s.Svc(SvcRef(ref.svc)), ref.svc);
    assert s.services[ref.svc] == Some(SvcRef(ref.svc));
  }

  // ----- Main result

  /**
   For every parsed schema: printing it and parsing the document succeeds, validates, and
   gives an Equal schema if and only if no fault link carries both a value and a delta, no
   disabled profile has sample rate 0, and no fallback nested two or more deep has
   a zero P95 under a non-zero P50.
   */
  lemma ParsedRoundTrip(raw: RawSchema, s: Schema)
    requires ResolveSchema(raw) == Some(s) && Valid(s)
    ensures var again := ResolveSchema(MarshalSchema(s));
            && again.Some? && Valid(again.value)
            && (EqualSchemas(s, again.value) <==> SurvivesReload(s))
  {
    hide *;
    ResolvedIsShaped(raw);
    ReadsBack(s);
    ValidKept(s);
    EqualIffCarried(s);
    CarriedIffSurvives(s);
  }
}
