/**
 Exactly when Equal can be trusted.  From any two operations that share a joined name
 two valid schemas are built that Equal takes for the same, although their journeys
 call different operations.
 */
module EqualExact {
  import opened Wrappers
  import opened Strings
  import opened Topology
  import opened RawDocument
  import opened CallGraph
  import opened DagCheck
  import opened Validate
  import opened Tokens
  import opened Resolve
  import opened Marshal
  import opened Equal
  import opened RoundTrip
  import opened SchemaRoundTrip
  import opened ResolvedShape
  import opened Reload
  import opened EqualMeaning

  // ----- A document for every directory

  const NO_TELEMETRY := Telemetry([], [], [], None)

  function Bare(names: seq<string>): (ros: seq<RawOperation>)
    ensures |ros| == |names| && forall i | 0 <= i < |names| :: ros[i] == RawOperation(names[i], [], [], [], [], None)
  {
    seq(|names|, i requires 0 <= i < |names| => RawOperation(names[i], [], [], [], [], None))
  }

  function Holder(names: seq<string>): RawService {
    RawService("", "cache", None, "", "", "", [], Bare(names))
  }

  function CallOnce(call: OpRef): RawJourney {
    RawJourney([RawStep(call.svc, call.op, [])], None)
  }

  /** Services with bare operations, and one journey that makes one call. */
  ghost function Catalogue(dir: Directory, call: OpRef): RawSchema {
    RawSchema("", map svc | svc in dir :: Some(Holder(Ascending(dir[svc]))), map["j" := Some(CallOnce(call))], [])
  }

  lemma BareNames(names: seq<string>)
    ensures Named(Bare(names)) == set name | name in names
  {
    var ros := Bare(names);
    forall i | 0 <= i < |names|
      ensures OrEmpty(ros[i]).name == names[i] && ros[i] in ros && names[i] in names
    {
    }
  }

  lemma {:induction false} BareLast(names: seq<string>, name: string)
    requires name in names
    ensures LastCalls(Bare(names), name) == [] && name in Named(Bare(names))
    ensures LastNamed(Bare(names), name) == RawOperation(name, [], [], [], [], None)
    decreases names
  {
    BareNames(names);
    var n := |names| - 1;
    assert Bare(names)[..n] == Bare(names[..n]);
    if names[n] != name { BareLast(names[..n], name); }
  }

  lemma CatalogueNames(dir: Directory, call: OpRef)
    ensures DirectoryOf(Built(Catalogue(dir, call))) == dir
    ensures AllRefs(Catalogue(dir, call)) == RefsOf(dir)
  {
    hide Built, DirectoryOf, Named;
    var raw := Catalogue(dir, call);
    DirectoryNames(raw);
    forall svc | svc in dir
      ensures ServiceAt(raw, svc) == Holder(Ascending(dir[svc])) && Named(ServiceAt(raw, svc).operations) == dir[svc]
    {
      BareNames(Ascending(dir[svc]));
      assert (set name | name in Ascending(dir[svc])) == dir[svc];
    }
  }

  lemma CatalogueOperation(dir: Directory, call: OpRef, ref: OpRef)
    requires ref in RefsOf(dir)
    ensures ref in Referenced(Catalogue(dir, call)).ops
    ensures Referenced(Catalogue(dir, call)).ops[ref] == Operation(ref.op, Some(SvcRef(ref.svc)), [], NO_TELEMETRY)
  {
    hide Built, DirectoryOf, AllRefs, LastNamed, LastCalls;
    var raw := Catalogue(dir, call);
    CatalogueNames(dir, call);
    assert ServiceAt(raw, ref.svc) == Holder(Ascending(dir[ref.svc]));
    BareLast(Ascending(dir[ref.svc]), ref.op);
    assert Somes<RawLogEvent>([]) == [] && Somes<RawMetric>([]) == [] && Somes<RawStateUpdate>([]) == [];
  }

  lemma OneStep(dir: Directory, call: OpRef)
    requires Known(dir, Some(call))
    ensures ResolveSteps(dir, CallOnce(call).steps) == Collected([Step(Some(call), [])], [])
  {
    var step := RawStep(call.svc, call.op, []);
    assert [step][..0] == [];
    assert ResolveStep(dir, step) == Ok(Step(Some(call), []));
  }

  ghost function Journeys(call: OpRef): map<string, Option<Journey>> {
    map["j" := Some(Journey("j", [Step(Some(call), [])], 1.0))]
  }

  lemma CatalogueJourney(dir: Directory, call: OpRef)
    requires Known(dir, Some(call))
    ensures JourneysResolve(Catalogue(dir, call), dir) && Referenced(Catalogue(dir, call)).journeys == Journeys(call)
  {
    hide ResolveSteps, DirectoryOf, Built, AllRefs, LastNamed, LastCalls, Named;
    CatalogueNames(dir, call);
    OneStep(dir, call);
    assert JourneyAt(Catalogue(dir, call), "j") == CallOnce(call);
  }

  lemma CatalogueCalls(dir: Directory, call: OpRef)
    ensures CallsResolve(Catalogue(dir, call), dir)
  {
    hide Built, DirectoryOf, AllRefs, LastNamed, LastCalls, Named;
    var raw := Catalogue(dir, call);
    forall svc | svc in raw.services
      ensures OperationsResolve(ServiceAt(raw, svc).operations, dir, svc)
    {
      assert ServiceAt(raw, svc) == Holder(Ascending(dir[svc]));
    }
  }

  /** The catalogue of a directory resolves whatever known operation its journey calls. */
  lemma CatalogueResolves(dir: Directory, call: OpRef) returns (s: Schema)
    requires Known(dir, Some(call))
    ensures ResolveSchema(Catalogue(dir, call)) == Some(s) && DirectoryOf(s) == dir
    ensures s == Referenced(Catalogue(dir, call)) && s.journeys == Journeys(call) && s.faults == []
  {
    hide CallsResolve, JourneysResolve, AllRefs, LastNamed, LastCalls, Named, DirectoryOf, Built, ServiceOf, OperationOf, JourneyOf;
    var raw := Catalogue(dir, call);
    CatalogueNames(dir, call);
    CatalogueJourney(dir, call);
    CatalogueCalls(dir, call);
    BuiltHeap(raw);
    s := Referenced(raw);
    NothingElse(raw);
    assert s.(faults := []) == s;
  }

  lemma NothingElse(raw: RawSchema)
    ensures Referenced(raw).faults == [] && Referenced(raw).ns == NamespaceOf(raw)
  {
    hide AllRefs, OperationOf, ServiceOf, JourneyOf, CallsOf, DirectoryOf;
  }

  lemma SameBuilt(a: RawSchema, b: RawSchema)
    requires a.ns == b.ns && a.services == b.services
    ensures Built(a).services == Built(b).services && Built(a).svcs == Built(b).svcs
  {
    hide OperationOf, LastNamed, Named, ParseServiceKind;
    assert Built(a).svcs.Keys == Built(b).svcs.Keys;
    forall svc | svc in AllServices(a)
      ensures Built(a).svcs[svc] == Built(b).svcs[svc]
    {
      assert ServiceOf(a, svc.key) == ServiceOf(b, svc.key);
    }
  }

  lemma OnlyCallDiffers(dir: Directory, a: OpRef, b: OpRef)
    requires Known(dir, Some(a)) && Known(dir, Some(b))
    ensures var s, t := Referenced(Catalogue(dir, a)), Referenced(Catalogue(dir, b)); t == s.(journeys := Journeys(b))
  {
    hide Built, AllRefs, OperationOf, CallsOf, JourneyOf, DirectoryOf, Referenced, Journeys, Known, RefsOf;
    var x, y := Catalogue(dir, a), Catalogue(dir, b);
    var s, t := Referenced(x), Referenced(y);
    SameBuilt(x, y);
    BuiltHeap(x);
    BuiltHeap(y);
    NothingElse(x);
    NothingElse(y);
    CatalogueNames(dir, a);
    CatalogueNames(dir, b);
    CatalogueJourney(dir, b);
    forall ref | ref in RefsOf(dir)
      ensures s.ops[ref] == t.ops[ref]
    {
      CatalogueOperation(dir, a, ref);
      CatalogueOperation(dir, b, ref);
    }
    assert s.ops == t.ops;
  }

  // ----- Equal, yet not the same

  /** Schemas whose journeys call operations of one name are Equal; if the operations differ, the schemas do. */
  lemma ClashIsEqual(s: Schema, t: Schema, a: OpRef, b: OpRef)
    requires ShapedHeap(s) && Truthful(s, DirectoryOf(s)) && InDirectory(DirectoryOf(s), Some(a)) && InDirectory(DirectoryOf(s), Some(b))
    requires s.journeys == Journeys(a) && t == s.(journeys := Journeys(b)) && s.faults == []
    requires forall ref | ref in s.ops :: s.ops[ref].calls == []
    requires Joined(a) == Joined(b)
    ensures EqualSchemas(s, t) && (a != b ==> !SameSchema(s, t))
  {
    OperationsByService(s) by { hide ShapedService, DirectoryOf, Truthful, RefsOf; }
    hide ShapedService, DirectoryOf, Truthful, RefsOf, IdentifyOp, EqualService, EqualJourney, Journeys, SameOperation, SameFault;
    forall id | id in s.services
      ensures EqualService(s, t, s.services[id], At(t.services, id))
    {
      ServiceEqualsItself(s, t, id);
    }
    JourneyClashes(s, t, a, b);
  }

  lemma JourneyClashes(s: Schema, t: Schema, a: OpRef, b: OpRef)
    requires Truthful(s, DirectoryOf(s)) && InDirectory(DirectoryOf(s), Some(a)) && InDirectory(DirectoryOf(s), Some(b))
    requires s.svcs == t.svcs && s.ops == t.ops && Joined(a) == Joined(b)
    ensures EqualJourney(s, t, Journeys(a)["j"], Journeys(b)["j"]) && (a != b ==> Journeys(a) != Journeys(b))
    ensures Journeys(a).Keys == Journeys(b).Keys == {"j"}
  {
    hide DirectoryOf, Truthful, InDirectory, IdentifyOp;
    SameNames(s, t);
    NameReads(s, DirectoryOf(s), Some(a));
    NameReads(s, DirectoryOf(s), Some(b));
    SameIdentity(s, t, Some(b));
    assert EqualStep(s, t, Step(Some(a), []), Step(Some(b), []));
    assert Journeys(a)["j"].value.steps[0].op == Some(a) && Journeys(b)["j"].value.steps[0].op == Some(b);
  }

  lemma SameNames(s: Schema, t: Schema)
    requires s.svcs == t.svcs && s.ops == t.ops
    ensures SameIdentities(s, t) && forall r :: s.Op(r) == t.Op(r)
  {
  }

  lemma ServiceEqualsItself(s: Schema, t: Schema, id: string)
    requires ShapedService(s.Svc(SvcRef(id)), id) && s.svcs == t.svcs && s.ops == t.ops
    requires forall ref | ref in s.ops :: s.ops[ref].calls == []
    requires forall name | name in s.Svc(SvcRef(id)).operations :: OpRef(id, name) in s.ops
    ensures EqualService(s, t, Some(SvcRef(id)), Some(SvcRef(id)))
  {
    hide IdentifyOp;
    SameNames(s, t);
    forall name | name in s.Svc(SvcRef(id)).operations
      ensures EqualOperation(s, t, Some(OpRef(id, name)), Some(OpRef(id, name)))
    {
      assert s.Op(OpRef(id, name)) == s.ops[OpRef(id, name)];
      assert IdentifyOp(s, Some(OpRef(id, name))) == IdentifyOp(t, Some(OpRef(id, name)));
    }
  }

  // ----- The catalogue is valid

  /** What validation asks of names: every service has an operation, and operation names are not empty and not too long. */
  predicate NamesFit(dir: Directory) {
    forall svc | svc in dir :: dir[svc] != {} && forall op | op in dir[svc] :: ShortName(op)
  }

  lemma CatalogueService(dir: Directory, call: OpRef, id: string)
    requires id in dir && dir[id] != {}
    ensures ServiceDomainOk(Referenced(Catalogue(dir, call)).Svc(SvcRef(id)))
  {
    hide Named, OperationOf, AllRefs, CallsOf, JourneyOf, DirectoryOf, Fold;
    var raw := Catalogue(dir, call);
    BuiltService(raw, id);
    BareNames(Ascending(dir[id]));
    assert ServiceAt(raw, id) == Holder(Ascending(dir[id]));
    TokenFolds("cache");
    var op :| op in dir[id];
    assert op in Ascending(dir[id]) && op in Named(ServiceAt(raw, id).operations);
    assert op in ServiceOf(raw, id).operations;
    assert Somes<RawMetric>([]) == [];
  }

  lemma BareOk(s: Schema, listed: set<OpRef>, op: OpRef)
    requires op in s.ops && s.ops[op] == Operation(op.op, Some(SvcRef(op.svc)), [], NO_TELEMETRY) && ShortName(op.op)
    ensures OperationOk(s, listed, op) && OutgoingTargets(s, op) == []
  {
  }

  lemma NothingCalled(s: Schema)
    requires forall op | op in Listed(s) :: OutgoingTargets(s, op) == []
    ensures DagOk(s)
  {
    hide OutgoingTargets, Listed;
    forall g | IsGraphOf(g, s)
      ensures Acyclic(g)
    {
      forall op | op in g.nodes
        ensures OutgoingTargets(s, op) == []
      {
        ListedIsInSchemaSet(s, op);
      }
      forall x, p | Path(g, p, x, x)
        ensures false
      {
        FirstLink(g, p);
      }
    }
  }

  lemma FirstLink(g: Graph, p: seq<OpRef>)
    requires Walk(g, p) && |p| >= 2
    ensures exists u, v :: Linked(g, u, v)
  {
    assert StepAt(g, p, 0);
  }

  lemma CatalogueValid(dir: Directory, call: OpRef)
    requires NamesFit(dir) && Known(dir, Some(call))
    ensures Valid(Referenced(Catalogue(dir, call)))
  {
    hide ResolveSchema, Referenced, ShortName, OutgoingTargets, DagOk, OperationOk, Catalogue, ShapedOperation, ShapedSteps,
      ResolveFaultTarget, KeysConsistent, BackPointersOk, ServiceDomainOk, RefsOf;
    hide Shaped, Journeys, Known, NamesFit, Listed, InDirectory, DirectoryOf;
    var s := CatalogueResolves(dir, call);
    ResolvedPointersOk(Catalogue(dir, call));
    ResolvedIsShaped(Catalogue(dir, call));
    ListedKnown(s);
    forall op | op in Listed(s)
      ensures OperationOk(s, Listed(s), op) && OutgoingTargets(s, op) == []
    {
      FitsRef(dir, op);
      CatalogueOperation(dir, call, op);
      BareOk(s, Listed(s), op);
    }
    NothingCalled(s);
    KeysOfDirectory(s);
    forall id | id in s.services
      ensures s.services[id] == Some(SvcRef(id)) && ServiceDomainOk(s.Svc(SvcRef(id)))
    {
      NamedService(s, id);
      assert id in dir;
      FitsService(dir, id);
      CatalogueService(dir, call, id);
    }
    JourneyFits(s, dir, call);
  }

  lemma FitsRef(dir: Directory, op: OpRef)
    requires NamesFit(dir) && InDirectory(dir, Some(op))
    ensures op in RefsOf(dir) && ShortName(op.op)
  {
  }

  lemma FitsService(dir: Directory, id: string)
    requires NamesFit(dir) && id in dir
    ensures dir[id] != {}
  {
  }

  lemma KeysOfDirectory(s: Schema)
    requires Shaped(s)
    ensures DirectoryOf(s).Keys == s.services.Keys
  {
    hide ShapedOperation, ShapedSteps, ResolveFaultTarget, ShapedService, RefsOf;
  }

  lemma InSchema(s: Schema, op: OpRef)
    requires Shaped(s) && InDirectory(DirectoryOf(s), Some(op))
    ensures op in s.ops
  {
    hide ShapedOperation, ShapedSteps, ResolveFaultTarget, ShapedService, DirectoryOf;
  }

  lemma OneCallOk(call: OpRef, listed: set<OpRef>)
    requires call in listed
    ensures JourneyOk("j", Some(Journey("j", [Step(Some(call), [])], 1.0)), listed)
  {
  }

  lemma JourneyFits(s: Schema, dir: Directory, call: OpRef)
    requires Shaped(s) && s.journeys == Journeys(call) && DirectoryOf(s) == dir && Known(dir, Some(call))
    ensures s.journeys.Keys == {"j"} && JourneyOk("j", s.journeys["j"], Listed(s)) && |s.services| > 0
  {
    hide Shaped, Listed, DirectoryOf;
    ListedKnown(s);
    KeysOfDirectory(s);
    InSchema(s, call);
    assert call.svc in s.services.Keys && call in Listed(s);
    OneCallOk(call, Listed(s));
    assert |s.services| == |s.services.Keys|;
  }

  lemma ListedKnown(s: Schema)
    requires Shaped(s)
    ensures forall op :: op in Listed(s) <==> op in s.ops
    ensures forall op | op in Listed(s) :: InDirectory(DirectoryOf(s), Some(op))
  {
    OperationsByService(s) by { hide ShapedOperation, ShapedSteps, ResolveFaultTarget, ShapedService; }
    hide Shaped, DirectoryOf, RefsOf, InDirectory;
    forall id | id in s.services
      ensures s.services[id] == Some(SvcRef(id))
      ensures forall name | name in s.Svc(SvcRef(id)).operations :: s.Svc(SvcRef(id)).operations[name] == Some(OpRef(id, name))
    {
      NamedService(s, id);
    }
    forall op
      ensures op in Listed(s) <==> op in s.ops
    {
      assert op == OpRef(op.svc, op.op);
    }
    forall op | op in s.ops
      ensures InDirectory(DirectoryOf(s), Some(op))
    {
      OperationListed(s, op);
    }
  }

  // ----- Exactly when

  /** s is what some document over the directory parses to. */
  ghost predicate ParsedOver(dir: Directory, s: Schema) {
    Valid(s) && DirectoryOf(s) == dir && exists raw :: ResolveSchema(raw) == Some(s)
  }

  /** Every parsed schema is over a directory whose names fit. */
  lemma ParsedNamesFit(dir: Directory, s: Schema)
    requires ParsedOver(dir, s)
    ensures NamesFit(dir)
  {
    hide ResolveSchema, ShortName, DagOk, Shaped, DirectoryOf;
    var raw :| ResolveSchema(raw) == Some(s);
    ResolvedIsShaped(raw);
    ListedKnown(s);
    KeysOfDirectory(s);
    forall svc | svc in dir
      ensures dir[svc] != {} && forall op | op in dir[svc] :: ShortName(op)
    {
      NamedService(s, svc);
      EntryOf(s, svc);
      forall op | op in dir[svc]
        ensures ShortName(op)
      {
        InSchema(s, OpRef(svc, op));
        OwnName(s, OpRef(svc, op));
        assert OperationOk(s, Listed(s), OpRef(svc, op));
      }
    }
  }

  lemma EntryOf(s: Schema, svc: string)
    requires svc in s.services && s.services[svc] == Some(SvcRef(svc))
    ensures DirectoryOf(s)[svc] == s.Svc(SvcRef(svc)).operations.Keys
  {
  }

  lemma OwnName(s: Schema, op: OpRef)
    requires Shaped(s) && op in s.ops
    ensures s.Op(op).name == op.op
  {
    hide ShapedCallNodes, ShapedTelemetry, ShapedSteps, ResolveFaultTarget, ShapedHeap, DirectoryOf;
  }

  /** Two operations of one name make a confused pair of parsed schemas. */
  lemma CollisionConfuses(dir: Directory, a: OpRef, b: OpRef)
    requires NamesFit(dir) && Known(dir, Some(a)) && Known(dir, Some(b)) && Joined(a) == Joined(b) && a != b
    ensures var s, t := Referenced(Catalogue(dir, a)), Referenced(Catalogue(dir, b));
            ParsedOver(dir, s) && ParsedOver(dir, t) && EqualSchemas(s, t) && !SameSchema(s, t)
  {
    hide Valid, ResolveSchema, Referenced, Catalogue, DirectoryOf, EqualSchemas, SameSchema, NamesFit, RefsOf, ShapedOperation,
      ShapedSteps, ResolveFaultTarget, ShapedService, Journeys, Truthful;
    var s := CatalogueResolves(dir, a);
    var t := CatalogueResolves(dir, b);
    CatalogueValid(dir, a);
    CatalogueValid(dir, b);
    OnlyCallDiffers(dir, a, b);
    ResolvedIsShaped(Catalogue(dir, a));
    BothShaped(s);
    NoCallsAnywhere(dir, a, s);
    ClashIsEqual(s, t, a, b);
  }

  lemma BothShaped(s: Schema)
    requires Shaped(s)
    ensures ShapedHeap(s) && Truthful(s, DirectoryOf(s))
  {
    hide Truthful, DirectoryOf;
    HeapIsTruthful(s);
  }

  lemma NoCallsAnywhere(dir: Directory, call: OpRef, s: Schema)
    requires Shaped(s) && DirectoryOf(s) == dir && s == Referenced(Catalogue(dir, call))
    ensures forall ref | ref in s.ops :: s.ops[ref].calls == []
  {
    hide Referenced, Catalogue, ShapedOperation, ShapedSteps, ResolveFaultTarget, ShapedService, DirectoryOf;
    forall ref | ref in s.ops
      ensures s.ops[ref].calls == []
    {
      CatalogueOperation(dir, call, ref);
    }
  }

  /** Equal means sameness on all parsed schemas over a directory exactly when no two operations there share a name. */
  lemma EqualExactIff(dir: Directory)
    requires NamesFit(dir)
    ensures (forall s, t | ParsedOver(dir, s) && ParsedOver(dir, t) :: EqualSchemas(s, t) <==> SameSchema(s, t)) <==> NoCollision(dir)
  {
    hide Valid, ResolveSchema, DirectoryOf, EqualSchemas, SameSchema, NamesFit, Known, Joined, Referenced, Catalogue;
    if NoCollision(dir) {
      forall s, t | ParsedOver(dir, s) && ParsedOver(dir, t)
        ensures EqualSchemas(s, t) <==> SameSchema(s, t)
      {
        var r1 :| ResolveSchema(r1) == Some(s);
        var r2 :| ResolveSchema(r2) == Some(t);
        EqualMeansSame(r1, s, r2, t);
      }
    } else {
      var a, b :| Known(dir, Some(a)) && Known(dir, Some(b)) && Joined(a) == Joined(b) && a != b;
      CollisionConfuses(dir, a, b);
    }
  }

  // ----- A pair written out

  const DOTTED: Directory := map["a.b" := {"c"}, "a" := {"b.c"}]

  function Document(call: OpRef): RawSchema {
    RawSchema("", map["a.b" := Some(Holder(["c"])), "a" := Some(Holder(["b.c"]))], map["j" := Some(CallOnce(call))], [])
  }

  lemma AscendingOne(name: string)
    ensures Ascending({name}) == [name]
  {
    assert forall k :: k in [name] <==> k in {name};
    SortedUnique(Ascending({name}), [name]);
  }

  lemma DocumentIsCatalogue(call: OpRef)
    ensures Document(call) == Catalogue(DOTTED, call)
  {
    AscendingOne("c");
    AscendingOne("b.c");
    assert Document(call).services == Catalogue(DOTTED, call).services;
  }

  /** One journey calls operation c of service a.b, the other operation b.c of service a; Equal sees no difference. */
  lemma DottedNamesConfuse()
    ensures exists s, t ::
              && ResolveSchema(Document(OpRef("a.b", "c"))) == Some(s) && Valid(s)
              && ResolveSchema(Document(OpRef("a", "b.c"))) == Some(t) && Valid(t)
              && EqualSchemas(s, t) && !SameSchema(s, t)
  {
    hide Valid, ResolveSchema, DirectoryOf, EqualSchemas, SameSchema, Referenced, Catalogue, Document;
    var a, b := OpRef("a.b", "c"), OpRef("a", "b.c");
    DocumentIsCatalogue(a);
    DocumentIsCatalogue(b);
    assert NamesFit(DOTTED) && Known(DOTTED, Some(a)) && Known(DOTTED, Some(b));
    assert Joined(a) == "a.b.c" == Joined(b);
    var s := CatalogueResolves(DOTTED, a);
    var t := CatalogueResolves(DOTTED, b);
    CollisionConfuses(DOTTED, a, b);
  }
}
