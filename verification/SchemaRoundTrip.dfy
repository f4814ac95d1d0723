/** The round trip of whole schemas: reading back what was printed yields exactly the kept schema. */
module SchemaRoundTrip {
  import opened Wrappers
  import opened Strings
  import opened Topology
  import opened RawDocument
  import opened Tokens
  import opened Resolve
  import opened Marshal
  import opened RoundTrip
  import opened ResolvedShape

  lemma HeapIsTruthful(s: Schema)
    requires Shaped(s)
    ensures Truthful(s, DirectoryOf(s))
  {
    hide ShapedCallNodes, ShapedSteps, ResolveFaultTarget, ShapedTelemetry, Truthful, ShapedHeap, DirectoryOf;
    NamedHeapIsTruthful(s);
  }

  // ----- Services

  lemma ObservablesReadBack(ms: seq<ObservableMetricSpec>)
    requires forall i | 0 <= i < |ms| :: ShapedLink(ms[i].whenFault)
    ensures Map(ResolveObservable, Somes(Present(Map(MarshalObservable, ms)))) == Map(KeptObservable, ms)
  {
    hide ResolveObservable, MarshalObservable, KeptObservable;
    forall i | 0 <= i < |ms|
      ensures ResolveObservable(MarshalObservable(ms[i])) == KeptObservable(ms[i])
    {
      ObservableReadsBack(ms[i]);
    }
    ListRoundTrip(ms, MarshalObservable, ResolveObservable, KeptObservable);
  }

  /** The printed operations of one service carry its operation names. */
  lemma ListingReadsBack(s: Schema, id: string)
    requires Shaped(s) && id in s.services
    ensures var raw := MarshalSchema(s);
            && id in raw.services
            && ServiceAt(raw, id) == MarshalService(s, Some(SvcRef(id)))
            && Named(ServiceAt(raw, id).operations) == s.Svc(SvcRef(id)).operations.Keys
  {
    hide ShapedCallNodes, ShapedSteps, ResolveFaultTarget, MarshalJourney, MarshalFaults, MarshalOperation,
      ShapedOperation, PrintServiceKind;
    var svc := s.Svc(SvcRef(id));
    assert ShapedService(svc, id);
    OperationNames(s, id);
    NamesOfListing(s, svc, id, Ascending(svc.operations.Keys));
  }

  lemma ServiceFieldsReadBack(s: Schema, raw: RawSchema, id: string)
    requires id in raw.services && ServiceAt(raw, id) == MarshalService(s, Some(SvcRef(id)))
    requires s.ns != "" && NamespaceOf(raw) == s.ns && ShapedService(s.Svc(SvcRef(id)), id)
    requires Named(ServiceAt(raw, id).operations) == s.Svc(SvcRef(id)).operations.Keys
    ensures ServiceOf(raw, id) == KeptService(s.Svc(SvcRef(id)))
  {
    hide ParseServiceKind, PrintServiceKind, MarshalObservable, ResolveObservable, KeptObservable, MarshalOperations, Ascending,
      ServiceAt, Named, Map, Somes, Present, NamespaceOf;
    var svc := s.Svc(SvcRef(id));
    ServiceKindRoundTrip(svc.kind);
    ObservablesReadBack(svc.metrics);
    assert svc.operations == map name | name in svc.operations.Keys :: Some(OpRef(id, name));
  }

  /** The printed entry of one service and what it reads as. */
  lemma ServiceReadsBack(s: Schema, id: string)
    requires Shaped(s) && id in s.services
    ensures id in MarshalSchema(s).services && ServiceOf(MarshalSchema(s), id) == KeptService(s.Svc(SvcRef(id)))
  {
    hide ShapedOperation, ShapedSteps, ResolveFaultTarget, ServiceOf, KeptService, MarshalService, MarshalJourney,
      MarshalFaults, ServiceAt, Named,
      ShapedService, RefsOf, DirectoryOf;
    ListingReadsBack(s, id);
    ServiceFieldsReadBack(s, MarshalSchema(s), id);
  }

  lemma OperationNames(s: Schema, id: string)
    requires Shaped(s) && id in s.services
    ensures forall k | k in s.Svc(SvcRef(id)).operations ::
              OpRef(id, k) in s.ops && s.Op(OpRef(id, k)).name == k && id in DirectoryOf(s) && k in DirectoryOf(s)[id]
  {
    hide ShapedCallNodes, ShapedSteps, ResolveFaultTarget, ShapedTelemetry;
    var dir := DirectoryOf(s);
    assert dir[id] == s.Svc(SvcRef(id)).operations.Keys;
    forall k | k in s.Svc(SvcRef(id)).operations
      ensures OpRef(id, k) in s.ops && s.Op(OpRef(id, k)).name == k
    {
      assert OpRef(id, k) in RefsOf(dir);
    }
  }

  lemma ServicesReadBack(s: Schema)
    requires Shaped(s)
    ensures var raw := MarshalSchema(s);
            && Built(raw).ns == s.ns
            && Built(raw).services == s.services
            && Built(raw).svcs == Kept(s).svcs
  {
    hide ShapedOperation, ShapedService, ShapedSteps, ResolveFaultTarget, ServiceOf, KeptService, OperationOf, AllRefs,
      MarshalService, ServiceAt,
      MarshalJourney, MarshalFaults, KeptOperation, DirectoryOf, RefsOf;
    var raw := MarshalSchema(s);
    var built := Built(raw);
    assert raw.services.Keys == s.services.Keys;
    assert built.services == s.services;
    forall r | r in s.svcs
      ensures r in built.svcs && built.svcs[r] == KeptService(s.svcs[r])
    {
      ServiceReadsBack(s, r.key);
    }
  }

  lemma BuiltReadsBack(s: Schema)
    requires Shaped(s)
    ensures var raw := MarshalSchema(s);
            && Built(raw).ns == s.ns
            && Built(raw).services == s.services
            && Built(raw).svcs == Kept(s).svcs
            && DirectoryOf(Built(raw)) == DirectoryOf(s)
            && AllRefs(raw) == s.ops.Keys
  {
    hide Shaped, ShapedHeap, ShapedService, KeptService, MarshalSchema, ServiceAt, Named, Built, KeptOperation, KeptFault;
    var raw := MarshalSchema(s);
    ServicesReadBack(s);
    ShapedIsHeap(s);
    BuiltKeys(s);
    DirectoryNames(raw);
    forall id | id in s.services
      ensures id in raw.services && Named(ServiceAt(raw, id).operations) == s.Svc(SvcRef(id)).operations.Keys
    {
      ListingReadsBack(s, id);
    }
    assert DirectoryOf(Built(raw)) == DirectoryOf(s);
    ListedRefs(s, raw);
  }

  lemma ListedRefs(s: Schema, raw: RawSchema)
    requires ShapedHeap(s) && DirectoryOf(s) == map id | id in raw.services :: Named(ServiceAt(raw, id).operations)
    ensures AllRefs(raw) == s.ops.Keys
  {
    hide ShapedService, DirectoryOf, Named, ServiceAt;
    assert AllRefs(raw) == RefsOf(DirectoryOf(s));
  }

  lemma ShapedIsHeap(s: Schema)
    requires Shaped(s)
    ensures ShapedHeap(s) && forall id | id in s.services :: s.services[id] == Some(SvcRef(id)) && SvcRef(id) in s.svcs
  {
    hide ShapedOperation, ShapedService, ShapedSteps, ResolveFaultTarget, DirectoryOf, RefsOf;
  }

  lemma BuiltKeys(s: Schema)
    ensures MarshalSchema(s).services.Keys == s.services.Keys
  {
  }

  // ----- Operations

  lemma OperationOfReadsBack(s: Schema, ref: OpRef)
    requires Shaped(s) && ref in s.ops
    ensures var raw := MarshalSchema(s);
            && ref in AllRefs(raw)
            && CallsOf(raw, DirectoryOf(s), ref) == Collected(KeptCallNodes(s.ops[ref].calls), [])
            && OperationOf(raw, ref).(calls := KeptCallNodes(s.ops[ref].calls)) == KeptOperation(s.ops[ref])
  {
    hide ShapedCallNodes, ShapedSteps, ResolveFaultTarget, Truthful, MarshalOperation, ResolveTelemetry, KeptTelemetry,
      KeptCallNodes, ResolveCallNodes,
      LastNamed, LastCalls, MarshalSchema, Built, ServiceOf, KeptService, ServiceAt, Named, ShapedTelemetry, Ascending;
    var raw, dir := MarshalSchema(s), DirectoryOf(s);
    BuiltReadsBack(s);
    HeapIsTruthful(s);
    assert ref in RefsOf(dir);
    ListingReadsBack(s, ref.svc);
    OperationNames(s, ref.svc);
    assert s.Op(ref) == s.ops[ref] && ShapedOperation(dir, s.ops[ref], ref);
    LastInListing(s, s.Svc(SvcRef(ref.svc)), ref.svc, Ascending(s.Svc(SvcRef(ref.svc)).operations.Keys), ref.op);
    OperationReadsBack(s, dir, ref.op, ref);
  }

  lemma CallsReadBack(s: Schema)
    requires Shaped(s)
    ensures CallsResolve(MarshalSchema(s), DirectoryOf(s))
  {
    hide ShapedCallNodes, ShapedSteps, ResolveFaultTarget, Truthful, MarshalOperation, ResolveTelemetry, KeptTelemetry,
      KeptCallNodes, ResolveCallNodes,
      MarshalSchema, ServiceOf, KeptService, ServiceAt, Named, ShapedTelemetry, Ascending;
    var raw, dir := MarshalSchema(s), DirectoryOf(s);
    BuiltReadsBack(s);
    HeapIsTruthful(s);
    forall id | id in raw.services
      ensures OperationsResolve(ServiceAt(raw, id).operations, dir, id)
    {
      assert id in Built(raw).services;
      var svc := s.Svc(SvcRef(id));
      var names := Ascending(svc.operations.Keys);
      ListingReadsBack(s, id);
      OperationNames(s, id);
      var ros := ServiceAt(raw, id).operations;
      forall k | 0 <= k < |ros|
        ensures ros[k].RawOperation? ==> ResolveCallNodes(dir, OpRef(id, ros[k].name), ros[k].calls, []).errs == []
      {
        assert ShapedService(svc, id) && names[k] in svc.operations;
        OperationReadsBack(s, dir, names[k], OpRef(id, names[k]));
      }
    }
  }

  // ----- Journeys

  lemma JourneyReadsBack(s: Schema, name: string)
    requires Shaped(s) && name in s.journeys
    ensures var raw := MarshalSchema(s);
            && name in raw.journeys
            && ResolveSteps(DirectoryOf(s), JourneyAt(raw, name).steps).errs == []
            && Some(JourneyOf(raw, DirectoryOf(s), name)) == s.journeys[name]
  {
    hide ShapedCallNodes, ShapedHeap, ShapedOperation, ResolveFaultTarget, Truthful, MarshalService, ResolveSteps,
      MarshalSteps, DirectoryOf, MarshalFaults;
    HeapIsTruthful(s);
    StepsReadBack(s, DirectoryOf(s), s.journeys[name].value.steps);
  }

  // ----- Faults

  lemma {:induction false} EdgesOfKept(ns: seq<CallNode>)
    ensures EdgesInCalls(KeptCallNodes(ns)) == KeptEdges(EdgesInCalls(ns))
    decreases ns, 0
  {
    if ns != [] {
      KeptCallNodesFirst(ns);
      EdgesOfKeptNode(ns[0]);
      EdgesOfKept(ns[1..]);
      KeptEdgesConcat(EdgesInNode(ns[0]), EdgesInCalls(ns[1..]));
    }
  }

  lemma {:induction false} EdgesOfKeptNode(n: CallNode)
    ensures EdgesInNode(KeptCallNode(n)) == KeptEdges(EdgesInNode(n))
    decreases n, 1
  {
    if n.CallNode? {
      EdgesOfKept(n.parallel);
      if n.edge.NilEdge? {
        assert EdgesInNode(n) == EdgesInCalls(n.parallel);
      } else {
        var fallbacks := Fallbacks(n.edge);
        NonNilOfKept(fallbacks);
        KeptEdgesConcat([n.edge], NonNil(fallbacks));
        KeptEdgesConcat([n.edge] + NonNil(fallbacks), EdgesInCalls(n.parallel));
        assert KeptEdges([n.edge]) == [KeptEdge(n.edge)];
        assert Fallbacks(KeptEdge(n.edge)) == KeptEdges(fallbacks);
      }
    }
  }

  lemma {:induction false} KeptEdgesAt(es: seq<Edge>, i: nat)
    requires i < |es|
    ensures KeptEdges(es)[i] == KeptEdge(es[i])
    decreases es
  {
    if i < |es| - 1 { KeptEdgesAt(es[..|es| - 1], i); }
  }

  lemma {:induction false} KeptCallNodesAt(ns: seq<CallNode>, i: nat)
    requires i < |ns|
    ensures KeptCallNodes(ns)[i] == KeptCallNode(ns[i])
    decreases ns
  {
    if i < |ns| - 1 { KeptCallNodesAt(ns[..|ns| - 1], i); }
  }

  lemma KeptEdgesConcat(a: seq<Edge>, b: seq<Edge>)
    ensures KeptEdges(a + b) == KeptEdges(a) + KeptEdges(b)
  {
    hide KeptEdges, KeptEdge;
    forall i | 0 <= i < |a + b|
      ensures KeptEdges(a + b)[i] == (KeptEdges(a) + KeptEdges(b))[i]
    {
      KeptEdgesAt(a + b, i);
      if i < |a| { KeptEdgesAt(a, i); } else { KeptEdgesAt(b, i - |a|); }
    }
  }

  lemma KeptCallNodesFirst(ns: seq<CallNode>)
    requires ns != []
    ensures KeptCallNodes(ns)[0] == KeptCallNode(ns[0]) && KeptCallNodes(ns)[1..] == KeptCallNodes(ns[1..])
  {
    hide KeptCallNodes, KeptCallNode;
    forall i | 0 <= i < |ns|
      ensures KeptCallNodes(ns)[i] == KeptCallNode(ns[i])
      ensures i > 0 ==> KeptCallNodes(ns[1..])[i - 1] == KeptCallNode(ns[i])
    {
      KeptCallNodesAt(ns, i);
      if i > 0 { KeptCallNodesAt(ns[1..], i - 1); }
    }
  }

  lemma KeptEdgesFirst(es: seq<Edge>)
    requires es != []
    ensures KeptEdges(es)[0] == KeptEdge(es[0]) && KeptEdges(es)[1..] == KeptEdges(es[1..])
  {
    KeptEdgesConcat([es[0]], es[1..]);
    assert es == [es[0]] + es[1..];
    assert KeptEdges([es[0]]) == [KeptEdge(es[0])];
  }

  lemma {:induction false} NonNilOfKept(es: seq<Edge>)
    ensures NonNil(KeptEdges(es)) == KeptEdges(NonNil(es))
    decreases es
  {
    if es != [] {
      KeptEdgesFirst(es);
      NonNilOfKept(es[1..]);
      var head := if es[0].Edge? then [es[0]] else [];
      KeptEdgesConcat(head, NonNil(es[1..]));
      assert KeptEdges(head) == if es[0].Edge? then [KeptEdge(es[0])] else [];
    }
  }

  lemma {:induction false} FirstMatchOfKept(es: seq<Edge>, from: OpRef, to: OpRef)
    ensures FirstMatch(KeptEdges(es), from, to) == KeptEdge(FirstMatch(es, from, to))
    decreases es
  {
    if es != [] {
      hide KeptEdges;
      KeptEdgesFirst(es);
      FirstMatchOfKept(es[1..], from, to);
    }
  }

  /** Fault targets are found again among the kept operations. */
  lemma TargetOfKept(dir: Directory, ops: map<OpRef, Operation>, kept: map<OpRef, Operation>, spec: string)
    requires kept == map r | r in ops :: KeptOperation(ops[r])
    requires ResolveFaultTarget(dir, ops, spec).Ok?
    ensures ResolveFaultTarget(dir, kept, spec) == Ok(KeptTarget(ResolveFaultTarget(dir, ops, spec).value))
  {
    hide Cut, Lookup, KeptEdge, KeptTelemetry, KeptCallNodes;
    KeptEdgeNil();
    forall from, to
      ensures FirstMatch(EdgesInCalls(CallsIn(kept, from)), from, to)
           == KeptEdge(FirstMatch(EdgesInCalls(CallsIn(ops, from)), from, to))
    {
      KeptNothing();
      EdgesOfKept(CallsIn(ops, from));
      FirstMatchOfKept(EdgesInCalls(CallsIn(ops, from)), from, to);
    }
  }

  lemma KeptEdgeNil()
    ensures KeptEdge(NilEdge) == NilEdge
  {
  }

  lemma KeptNothing()
    ensures KeptCallNodes([]) == []
  {
  }

  lemma {:induction false} FaultsReadBack(s: Schema, fs: seq<FaultSpec>)
    requires Shaped(s)
    requires forall i | 0 <= i < |fs| :: ResolveFaultTarget(DirectoryOf(s), s.ops, MarshalFaultTarget(s, fs[i].target)) == Ok(fs[i].target)
    ensures ResolveFaults(DirectoryOf(s), Kept(s).ops, MarshalFaults(s, fs)) == Collected(Map(KeptFault, fs), [])
    decreases fs
  {
    hide ShapedCallNodes, ShapedSteps, ShapedHeap, ShapedOperation, ResolveFaultTarget, MarshalFaultTarget, KeptTarget,
      KeptOperation, DirectoryOf,
      ParseFaultKind, PrintFaultKind, ResolveSeverity, MarshalSeverity, ResolvePoint, MarshalPoint;
    if fs != [] {
      var n := |fs| - 1;
      FaultsReadBack(s, fs[..n]);
      assert MarshalFaults(s, fs)[..n] == MarshalFaults(s, fs[..n]);
      TargetOfKept(DirectoryOf(s), s.ops, Kept(s).ops, MarshalFaultTarget(s, fs[n].target));
      FaultKindRoundTrip(fs[n].kind);
      SeverityReadsBack(fs[n].severity);
      ScheduleReadsBack(fs[n].schedule);
    }
  }

  // ----- The theorem

  /** Printing a resolved schema and resolving the document succeeds and yields exactly the kept schema. */
  lemma ReadsBack(s: Schema)
    requires Shaped(s)
    ensures ResolveSchema(MarshalSchema(s)) == Some(Kept(s))
  {
    hide ShapedCallNodes, ShapedSteps, ShapedHeap, ShapedOperation, ResolveFaultTarget, MarshalFaultTarget,
      KeptOperation, KeptService, DirectoryOf,
      ResolveFaults, MarshalFaults, MarshalService, MarshalJourney, ServiceOf, OperationOf, CallsOf, JourneyOf, JourneyAt, CallsResolve, AllRefs, ResolveSteps;
    var raw, dir := MarshalSchema(s), DirectoryOf(s);
    BuiltReadsBack(s);
    CallsReadBack(s);
    FaultsReadBack(s, s.faults);
    var referenced := Referenced(raw);
    forall ref | ref in AllRefs(raw)
      ensures referenced.ops[ref] == Kept(s).ops[ref]
    {
      OperationOfReadsBack(s, ref);
    }
    assert referenced.ops == Kept(s).ops;
    assert raw.journeys.Keys == s.journeys.Keys;
    forall name | name in raw.journeys
      ensures ResolveSteps(dir, JourneyAt(raw, name).steps).errs == [] && referenced.journeys[name] == s.journeys[name]
    {
      JourneyReadsBack(s, name);
    }
    assert referenced.journeys == s.journeys;
  }
}
