/** The three losses of the round trip, each shown on a parsed schema of two operations. */
module ReloadLosses {
  import opened Wrappers
  import opened Strings
  import opened Topology
  import opened RawDocument
  import opened CallGraph
  import opened DagCheck
  import opened Validate
  import opened Tokens
  import opened Resolve
  import opened Marshal
  import opened Equal
  import opened RoundTrip
  import opened ResolvedShape
  import opened Reload
  import opened ReloadValid

  const X := OpRef("a", "x")
  const Y := OpRef("a", "y")
  const TWO_OPERATIONS: Directory := map["a" := {"x", "y"}]

  function Entry(calls: seq<RawCallNode>, updates: seq<Option<RawStateUpdate>>, profile: Option<RawProfile>): RawOperation {
    RawOperation("x", calls, [], [], updates, profile)
  }

  const LEAF := RawOperation("y", [], [], [], [], None)

  /** Service a with operations x and y and one journey calling x; x carries what the caller of this function asks for. */
  function Document(x: RawOperation): RawSchema {
    RawSchema("", map["a" := Some(RawService("", "cache", None, "", "", "", [], [x, LEAF]))],
              map["j" := Some(RawJourney([RawStep("a", "x", [])], None))], [])
  }

  lemma DocumentNames(x: RawOperation)
    requires x.RawOperation? && x.name == "x"
    ensures DirectoryOf(Built(Document(x))) == TWO_OPERATIONS && AllRefs(Document(x)) == {X, Y}
    ensures LastNamed([x, LEAF], "x") == x && LastCalls([x, LEAF], "x") == x.calls
    ensures LastNamed([x, LEAF], "y") == LEAF && LastCalls([x, LEAF], "y") == []
  {
    hide Built, DirectoryOf;
    DirectoryNames(Document(x));
    NamesOfPair(x);
    assert Document(x).services.Keys == {"a"};
    assert ServiceAt(Document(x), "a").operations == [x, LEAF];
    assert [x, LEAF][..1] == [x];
    assert DirectoryOf(Built(Document(x))) == TWO_OPERATIONS;
  }

  lemma NamesOfPair(x: RawOperation)
    requires x.RawOperation? && x.name == "x"
    ensures Named([x, LEAF]) == {"x", "y"}
  {
    assert x in [x, LEAF] && LEAF in [x, LEAF] && OrEmpty(x).name == "x" && OrEmpty(LEAF).name == "y";
  }

  lemma DocumentOperations(x: RawOperation)
    requires x.RawOperation? && x.name == "x" && ResolveCallNodes(TWO_OPERATIONS, X, x.calls, []).errs == []
    ensures CallsResolve(Document(x), TWO_OPERATIONS)
    ensures var ops := Referenced(Document(x)).ops;
            && ops.Keys == {X, Y}
            && ops[X].calls == ResolveCallNodes(TWO_OPERATIONS, X, x.calls, []).values
            && ops[X].telemetry == ResolveTelemetry(x)
            && ops[Y].calls == [] && ops[Y].telemetry == Telemetry([], [], [], None)
  {
    hide ResolveCallNodes, DirectoryOf, Built, AllRefs, ResolveTelemetry, LastNamed, LastCalls, JourneyOf;
    var raw := Document(x);
    DocumentNames(x);
    LeafResolves();
    assert ServiceAt(raw, "a").operations == [x, LEAF];
    assert OperationsResolve([x, LEAF], TWO_OPERATIONS, "a") by { assert [x, LEAF][0] == x && [x, LEAF][1] == LEAF; }
    assert X in AllRefs(raw) && Y in AllRefs(raw);
  }

  /** The document resolves as soon as the calls of x do. */
  lemma DocumentResolves(x: RawOperation)
    requires x.RawOperation? && x.name == "x" && ResolveCallNodes(TWO_OPERATIONS, X, x.calls, []).errs == []
    ensures ResolveSchema(Document(x)).Some?
    ensures var s := ResolveSchema(Document(x)).value;
            && s.ops.Keys == {X, Y} && s.services == map["a" := Some(SvcRef("a"))] && s.faults == []
            && s.Svc(SvcRef("a")).operations.Keys == {"x", "y"}
            && s.Svc(SvcRef("a")).kind == Cache && s.Svc(SvcRef("a")).replicas == 1 && s.Svc(SvcRef("a")).metrics == []
            && s.ops[X].calls == ResolveCallNodes(TWO_OPERATIONS, X, x.calls, []).values
            && s.ops[X].telemetry == ResolveTelemetry(x)
            && s.ops[Y].calls == [] && s.ops[Y].telemetry == Telemetry([], [], [], None)
            && s.journeys == map["j" := Some(Journey("j", [Step(Some(X), [])], 1.0))]
  {
    hide ResolveCallNodes, DirectoryOf, Built, AllRefs, ResolveTelemetry, LastNamed, LastCalls, CallsResolve,
      Referenced, ResolveFaults, ServiceOf, OperationOf;
    var raw := Document(x);
    DocumentNames(x);
    DocumentOperations(x);
    BuiltHeap(raw);
    DocumentService(x);
    DocumentJourney(x);
    NoFaults(Referenced(raw).ops);
  }

  lemma DocumentJourney(x: RawOperation)
    requires x.RawOperation? && x.name == "x"
    ensures JourneysResolve(Document(x), TWO_OPERATIONS)
    ensures Referenced(Document(x)).journeys == map["j" := Some(Journey("j", [Step(Some(X), [])], 1.0))]
  {
    hide ResolveCallNodes, ResolveSteps, DirectoryOf, Built, AllRefs, LastNamed, LastCalls;
    DocumentNames(x);
    StepResolves();
  }

  lemma NoFaults(ops: map<OpRef, Operation>)
    ensures ResolveFaults(TWO_OPERATIONS, ops, []) == Collected([], [])
  {
  }

  lemma DocumentService(x: RawOperation)
    requires x.RawOperation? && x.name == "x"
    ensures Built(Document(x)).services == map["a" := Some(SvcRef("a"))]
    ensures SvcRef("a") in Built(Document(x)).svcs
    ensures var svc := Built(Document(x)).Svc(SvcRef("a"));
            svc.operations.Keys == {"x", "y"} && svc.kind == Cache && svc.replicas == 1 && svc.metrics == []
  {
    hide AllRefs, OperationOf, Fold;
    BuiltService(Document(x), "a");
    NamesOfPair(x);
    TokenFolds("cache");
  }

  lemma StepResolves()
    ensures ResolveSteps(TWO_OPERATIONS, [RawStep("a", "x", [])]) == Collected([Step(Some(X), [])], [])
  {
    var step := RawStep("a", "x", []);
    assert [step][..0] == [];
    assert ResolveStep(TWO_OPERATIONS, step) == Ok(Step(Some(X), []));
  }

  lemma LeafResolves()
    ensures forall op :: ResolveCallNodes(TWO_OPERATIONS, op, [], []) == Collected([], [])
    ensures ResolveTelemetry(LEAF) == Telemetry([], [], [], None)
  {
  }

  /** It is valid when x is fine by itself and calls nothing but y. */
  lemma DocumentValid(x: RawOperation, s: Schema)
    requires x.RawOperation? && x.name == "x" && ResolveCallNodes(TWO_OPERATIONS, X, x.calls, []).errs == []
    requires ResolveSchema(Document(x)) == Some(s)
    requires OperationOk(s, {X, Y}, X) && forall v | v in OutgoingTargets(s, X) :: v == Y
    ensures Valid(s)
  {
    hide ResolveSchema, ResolveCallNodes, Document, ResolveTelemetry, KeysConsistent, BackPointersOk, OutgoingTargets,
      OperationOk, Listed, DagOk;
    DocumentResolves(x);
    ResolvedPointersOk(Document(x));
    ShapedNames(Document(x), s);
    DocumentEntries(x, s);
    LeafOk(s);
    TwoLevelDag(s);
    StepListed();
  }

  lemma StepListed()
    ensures JourneyOk("j", Some(Journey("j", [Step(Some(X), [])], 1.0)), {X, Y})
  {
  }

  lemma TwoLevelDag(s: Schema)
    requires OutgoingTargets(s, Y) == [] && forall v | v in OutgoingTargets(s, X) :: v == Y
    requires Listed(s) == {X, Y}
    ensures DagOk(s)
  {
    hide OutgoingTargets, Listed, IsGraphOf, Acyclic;
    forall g | IsGraphOf(g, s)
      ensures Acyclic(g)
    {
      TwoLevelAcyclic(s, g);
    }
  }

  lemma DocumentEntries(x: RawOperation, s: Schema)
    requires ResolveSchema(Document(x)) == Some(s) && s.services == map["a" := Some(SvcRef("a"))]
    requires s.Svc(SvcRef("a")).operations.Keys == {"x", "y"}
    ensures Listed(s) == {X, Y}
  {
    hide ResolveSchema, Document, ShapedOperation, ShapedSteps, ResolveFaultTarget, DirectoryOf, RefsOf;
    ResolvedIsShaped(Document(x));
    assert ShapedService(s.Svc(SvcRef("a")), "a");
    assert s.Svc(SvcRef("a")).operations["x"] == Some(X) && s.Svc(SvcRef("a")).operations["y"] == Some(Y);
  }

  lemma LeafOk(s: Schema)
    requires Y in s.ops && s.ops[Y].calls == [] && s.ops[Y].telemetry == Telemetry([], [], [], None) && s.ops[Y].name == "y"
    ensures OperationOk(s, {X, Y}, Y) && OutgoingTargets(s, Y) == []
  {
  }

  lemma TwoLevelAcyclic(s: Schema, g: Graph)
    requires IsGraphOf(g, s) && OutgoingTargets(s, Y) == [] && forall v | v in OutgoingTargets(s, X) :: v == Y
    requires Listed(s) == {X, Y}
    ensures Acyclic(g)
  {
    hide OutgoingTargets, Listed;
    forall op
      ensures op in g.nodes <==> op == X || op == Y
    {
      ListedIsInSchemaSet(s, op);
    }
    forall x, p | Path(g, p, x, x)
      ensures false
    {
      LeavesXForY(g, p);
    }
  }

  lemma LeavesXForY(g: Graph, p: seq<OpRef>)
    requires Walk(g, p) && |p| >= 2 && forall u, v | Linked(g, u, v) :: u == X && v == Y
    ensures p[0] == X && p[|p| - 1] == Y
  {
    assert StepAt(g, p, 0);
    assert StepAt(g, p, |p| - 2);
  }

  lemma BareOperationOk(s: Schema, t: Telemetry)
    requires X in s.ops && s.ops[X].calls == [] && s.ops[X].name == "x" && s.ops[X].telemetry == t && TelemetryOk(t)
    ensures OperationOk(s, {X, Y}, X) && OutgoingTargets(s, X) == []
  {
    hide TelemetryOk;
  }

  // ----- A link with a value and a delta

  const BOTH := RawStateUpdate("k", None, "", Some(RawFaultLink("crash", Some(1.0), Some(2.0))))

  lemma ValueAndDeltaLost()
    ensures exists raw, s :: ResolveSchema(raw) == Some(s) && Valid(s) && !EqualSchemas(s, ResolveSchema(MarshalSchema(s)).GetOr(s))
  {
    hide ResolveSchema, MarshalSchema, EqualSchemas, Valid, Document, OperationOk, Shaped, Fold;
    var x := Entry([], [Some(BOTH)], None);
    LeafResolves();
    DocumentResolves(x);
    var s := ResolveSchema(Document(x)).value;
    ShapedNames(Document(x), s);
    var u := StateUpdateSpec("k", 0.0, Always, Some(MetricFaultLink(Crash, 1.0, 2.0, true)));
    assert ResolveTelemetry(x) == Telemetry([], [], [u], None) by {
      TokenFolds("crash");
      TokenFolds("");
      assert [Some(BOTH)][..0] == [];
      assert Somes([Some(BOTH)]) == [BOTH];
    }
    BareOperationOk(s, ResolveTelemetry(x));
    DocumentValid(x, s);
    ParsedRoundTrip(Document(x), s);
    assert !LinkKeeps(s.ops[X].telemetry.stateUpdates[0].whenFault);
  }

  lemma ShapedNames(raw: RawSchema, s: Schema)
    requires ResolveSchema(raw) == Some(s)
    ensures forall ref | ref in s.ops :: s.ops[ref].name == ref.op
  {
    hide ResolveSchema, ShapedCallNodes, ShapedTelemetry, ShapedHeap, ShapedSteps, ResolveFaultTarget;
    ResolvedIsShaped(raw);
  }

  // ----- A disabled profile with sample rate 0

  const UNSAMPLED := RawProfile(false, Some(0), [], [], None)

  lemma DisabledRateLost()
    ensures exists raw, s :: ResolveSchema(raw) == Some(s) && Valid(s) && !EqualSchemas(s, ResolveSchema(MarshalSchema(s)).GetOr(s))
  {
    hide ResolveSchema, MarshalSchema, EqualSchemas, Valid, Document, OperationOk, Shaped, Fold;
    var x := Entry([], [], Some(UNSAMPLED));
    LeafResolves();
    DocumentResolves(x);
    var s := ResolveSchema(Document(x)).value;
    ShapedNames(Document(x), s);
    assert ResolveTelemetry(x) == Telemetry([], [], [], Some(ProfileSpec(false, 0, [], [], None)));
    BareOperationOk(s, ResolveTelemetry(x));
    DocumentValid(x, s);
    ParsedRoundTrip(Document(x), s);
    assert !DisabledProfileKeeps(s.ops[X].telemetry.profile);
  }

  // ----- A nested fallback with P95 below P50

  function CallY(latency: Option<RawLatency>, policy: Option<RawRecoveryPolicy>): RawCallNode {
    RawCallNode(Some(RawCallTarget("a", "y")), [], "http", latency, None, None, None, "", None, policy)
  }

  const INNER := CallY(Some(RawLatency("", Some(5), Some(0))), None)
  const MIDDLE := CallY(None, Some(RawRecoveryPolicy([INNER], "", Payload(0))))
  const OUTER := CallY(None, Some(RawRecoveryPolicy([MIDDLE], "", Payload(0))))

  function EdgeToY(path: seq<nat>, latency: LatencyDist, policy: Option<RecoveryPolicy>): Edge {
    Edge(EdgeRef(X, path), Some(X), Some(Y), HTTP, latency, 0.0, 0, 0, Exponential, DEFAULT_RETRY_BASE_DELAY, policy)
  }

  const ZERO_LATENCY := LatencyDist("constant", 0, 0)
  const INNER_EDGE := EdgeToY([0, 0, 0], LatencyDist("constant", 5, 0), None)
  const MIDDLE_EDGE := EdgeToY([0, 0], ZERO_LATENCY, Some(RecoveryPolicy([INNER_EDGE], Propagate, Payload(0))))
  const OUTER_EDGE := EdgeToY([0], ZERO_LATENCY, Some(RecoveryPolicy([MIDDLE_EDGE], Propagate, Payload(0))))

  lemma TokensHere()
    ensures ParseProtocol("http") == HTTP && ParseBackoff("") == Exponential && ParseExhausted("") == Propagate
  {
    hide Fold;
    TokenFolds("http");
    TokenFolds("");
  }

  lemma OneFallback(rc: RawCallNode, e: Edge, path: seq<nat>)
    requires ResolveCallNode(TWO_OPERATIONS, X, rc, path + [0]) == Ok(CallNode(e, [])) && e.Edge?
    ensures ResolveFallbacks(TWO_OPERATIONS, X, [rc], path) == Collected([e], [])
  {
    hide ResolveCallNode;
    assert [rc][..0] == [];
  }

  lemma CallYResolves(rc: RawCallNode, latency: LatencyDist, fallback: RawCallNode, inner: Edge, path: seq<nat>)
    requires rc.RawCallNode? && inner.Edge?
    requires rc == CallY(rc.latency, Some(RawRecoveryPolicy([fallback], "", Payload(0)))) && ResolveLatency(rc.latency) == latency
    requires ResolveCallNode(TWO_OPERATIONS, X, fallback, path + [0]) == Ok(CallNode(inner, []))
    ensures ResolveCallNode(TWO_OPERATIONS, X, rc, path)
         == Ok(CallNode(EdgeToY(path, latency, Some(RecoveryPolicy([inner], Propagate, Payload(0)))), []))
  {
    hide ParseProtocol, ParseBackoff, ParseExhausted, ResolveLatency, ResolveFallbacks;
    TokensHere();
    OneFallback(fallback, inner, path);
  }

  lemma NestedResolves()
    ensures ResolveCallNodes(TWO_OPERATIONS, X, [OUTER], []) == Collected([CallNode(OUTER_EDGE, [])], [])
  {
    hide ParseProtocol, ParseBackoff, ParseExhausted, ResolveFallbacks;
    TokensHere();
    assert ResolveCallNode(TWO_OPERATIONS, X, INNER, [0, 0, 0]) == Ok(CallNode(INNER_EDGE, []));
    assert [0, 0] + [0] == [0, 0, 0] && [0] + [0] == [0, 0] && [] + [0] == [0];
    CallYResolves(MIDDLE, ZERO_LATENCY, INNER, INNER_EDGE, [0, 0]);
    CallYResolves(OUTER, ZERO_LATENCY, MIDDLE, MIDDLE_EDGE, [0]);
    assert [OUTER][..0] == [];
  }

  lemma NestedOk(s: Schema)
    requires X in s.ops && s.ops[X].calls == [CallNode(OUTER_EDGE, [])] && s.ops[X].name == "x"
    requires s.ops[X].telemetry == Telemetry([], [], [], None)
    ensures OperationOk(s, {X, Y}, X) && forall v | v in OutgoingTargets(s, X) :: v == Y
  {
    var calls := s.Op(X).calls;
    assert calls[1..] == [] && EdgesInCalls([]) == [];
    assert NonNil([MIDDLE_EDGE]) == [MIDDLE_EDGE];
    assert EdgesInNode(calls[0]) == [OUTER_EDGE, MIDDLE_EDGE];
    assert EdgesInCalls(calls) == [OUTER_EDGE, MIDDLE_EDGE];
    assert EdgeTargets([OUTER_EDGE, MIDDLE_EDGE]) == [Y] + EdgeTargets([MIDDLE_EDGE]) && EdgeTargets([MIDDLE_EDGE]) == [Y];
    assert OwnershipOk(INNER_EDGE) && OwnershipOk(MIDDLE_EDGE) && OwnershipOk(OUTER_EDGE);
    assert EdgeDomainOk(MIDDLE_EDGE) && EdgeDomainOk(OUTER_EDGE);
    assert [OUTER_EDGE, MIDDLE_EDGE][1..] == [MIDDLE_EDGE] && [MIDDLE_EDGE][1..] == [];
  }

  lemma NestedLoses()
    ensures !NestedCallsKeep([CallNode(OUTER_EDGE, [])])
  {
    assert Fallbacks(OUTER_EDGE)[0] == MIDDLE_EDGE && MIDDLE_EDGE.onFailure.value.fallback[0] == INNER_EDGE;
    assert !EdgeKeeps(INNER_EDGE);
    assert !FallbacksKeep(MIDDLE_EDGE);
    assert [CallNode(OUTER_EDGE, [])][0].edge == OUTER_EDGE;
  }

  lemma NestedLatencyLost()
    ensures exists raw, s :: ResolveSchema(raw) == Some(s) && Valid(s) && !EqualSchemas(s, ResolveSchema(MarshalSchema(s)).GetOr(s))
  {
    hide ResolveSchema, MarshalSchema, EqualSchemas, Valid, Document, OperationOk, Shaped, ResolveCallNodes, Fold,
      OutgoingTargets, NestedCallsKeep;
    var x := Entry([OUTER], [], None);
    LeafResolves();
    NestedResolves();
    DocumentResolves(x);
    var s := ResolveSchema(Document(x)).value;
    ShapedNames(Document(x), s);
    assert ResolveTelemetry(x) == Telemetry([], [], [], None);
    NestedOk(s);
    DocumentValid(x, s);
    ParsedRoundTrip(Document(x), s);
    NestedLoses();
    assert !NestedCallsKeep(s.ops[X].calls);
  }
}
