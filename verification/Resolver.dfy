/**
 The loops of topology/parse.go: the schema is built map entry by map entry,
 call lists are filled in afterwards, and errors are collected instead of
 stopping at the first.  Each method meets its function in Resolve.dfy, in
 whatever order the maps are walked.
 */
module Resolver {
  import opened Wrappers
  import opened Topology
  import opened RawDocument
  import opened Tokens
  import V = Validate
  import opened Strings
  import opened RoundTrip
  import opened ResolvedShape
  import Spec = Resolve

  type Errors = seq<Spec.ParseError>

  // ----- Trees

  method ResolveCallNode(dir: Spec.Directory, owner: OpRef, rc: RawCallNode, path: seq<nat>) returns (r: Result<CallNode, Errors>)
    ensures r == Spec.ResolveCallNode(dir, owner, rc, path)
    decreases rc, 1
  {
    if rc.NilRawCall? { return Err([Spec.CallRequired]); }
    var hasTo, hasParallel := rc.to.Some?, |rc.parallel| > 0;
    if hasTo == hasParallel { return Err([Spec.CallVariantRequired]); }
    if hasParallel {
      var children, errs := ResolveCallNodes(dir, owner, rc.parallel, path);
      return if errs != [] then Err(errs) else Ok(CallNode(NilEdge, children));
    }
    var to := Spec.Lookup(dir, rc.to.value.service, rc.to.value.operation);
    if to.Err? { return Err(to.error); }
    var policy: Option<RecoveryPolicy> := None;
    if rc.onFailure.Some? {
      var rp := ResolveRecoveryPolicy(dir, owner, rc.onFailure.value, path);
      if rp.Err? { return Err(rp.error); }
      policy := Some(rp.value);
    }
    r := Ok(CallNode(Spec.EdgeOf(owner, to.value, rc, path, policy), []));
  }

  method ResolveCallNodes(dir: Spec.Directory, owner: OpRef, rcs: seq<RawCallNode>, path: seq<nat>)
    returns (nodes: seq<CallNode>, errs: Errors)
    ensures Spec.Collected(nodes, errs) == Spec.ResolveCallNodes(dir, owner, rcs, path)
    decreases rcs, 0
  {
    nodes, errs := [], [];
    for i := 0 to |rcs|
      invariant Spec.Collected(nodes, errs) == Spec.ResolveCallNodes(dir, owner, rcs[..i], path)
    {
      var node := ResolveCallNode(dir, owner, rcs[i], path + [i]);
      match node {
        case Ok(v) => nodes := nodes + [v];
        case Err(e) => errs := errs + e;
      }
      assert rcs[..i + 1][..i] == rcs[..i];
    }
    assert rcs[..|rcs|] == rcs;
  }

  method ResolveRecoveryPolicy(dir: Spec.Directory, owner: OpRef, rp: RawRecoveryPolicy, path: seq<nat>)
    returns (r: Result<RecoveryPolicy, Errors>)
    ensures var fallbacks := Spec.ResolveFallbacks(dir, owner, rp.fallback, path);
            r == if fallbacks.errs != [] then Err(fallbacks.errs)
                 else Ok(RecoveryPolicy(fallbacks.values, ParseExhausted(rp.onExhausted), rp.defaultResponse))
    decreases rp, 1
  {
    var fallbacks: seq<Edge>, errs: Errors := [], [];
    for i := 0 to |rp.fallback|
      invariant Spec.Collected(fallbacks, errs) == Spec.ResolveFallbacks(dir, owner, rp.fallback[..i], path)
    {
      var node := ResolveCallNode(dir, owner, rp.fallback[i], path + [i]);
      if node.Err? {
        errs := errs + node.error;
      } else if !(node.value.CallNode? && node.value.edge.Edge?) {
        errs := errs + [Spec.FallbackNotEdge];
      } else {
        fallbacks := fallbacks + [node.value.edge];
      }
      assert rp.fallback[..i + 1][..i] == rp.fallback[..i];
    }
    assert rp.fallback[..|rp.fallback|] == rp.fallback;
    r := if errs != [] then Err(errs) else Ok(RecoveryPolicy(fallbacks, ParseExhausted(rp.onExhausted), rp.defaultResponse));
  }

  method ResolveStep(dir: Spec.Directory, rs: RawStep) returns (r: Result<Step, Errors>)
    ensures r == Spec.ResolveStep(dir, rs)
    decreases rs, 1
  {
    if rs.NilRawStep? { return Err([Spec.StepRequired]); }
    var hasOp, hasParallel := rs.service != "" || rs.operation != "", |rs.parallel| > 0;
    if hasOp == hasParallel { return Err([Spec.StepVariantRequired]); }
    if hasParallel {
      var children, errs := ResolveSteps(dir, rs.parallel);
      return if errs != [] then Err(errs) else Ok(Step(None, children));
    }
    var op := Spec.Lookup(dir, rs.service, rs.operation);
    r := if op.Err? then Err(op.error) else Ok(Step(Some(op.value), []));
  }

  method ResolveSteps(dir: Spec.Directory, rss: seq<RawStep>) returns (steps: seq<Step>, errs: Errors)
    ensures Spec.Collected(steps, errs) == Spec.ResolveSteps(dir, rss)
    decreases rss, 0
  {
    steps, errs := [], [];
    for i := 0 to |rss|
      invariant Spec.Collected(steps, errs) == Spec.ResolveSteps(dir, rss[..i])
    {
      var step := ResolveStep(dir, rss[i]);
      match step {
        case Ok(v) => steps := steps + [v];
        case Err(e) => errs := errs + e;
      }
      assert rss[..i + 1][..i] == rss[..i];
    }
    assert rss[..|rss|] == rss;
  }

  // ----- Edges named by faults

  method FindEdgeInCalls(nodes: seq<CallNode>, from: OpRef, to: OpRef) returns (e: Edge)
    ensures e == Spec.FirstMatch(EdgesInCalls(nodes), from, to)
    decreases nodes
  {
    hide NonNil, Fallbacks;
    var i := 0;
    while i < |nodes|
      invariant i <= |nodes|
      invariant Spec.FirstMatch(EdgesInCalls(nodes), from, to) == Spec.FirstMatch(EdgesInCalls(nodes[i..]), from, to)
    {
      var node := nodes[i];
      assert nodes[i..][0] == node && nodes[i..][1..] == nodes[i + 1..];
      MatchConcat(EdgesInNode(node), EdgesInCalls(nodes[i + 1..]), from, to);
      if node.CallNode? {
        NodeMatch(node, from, to);
        if node.edge.Edge? {
          if node.edge.from == Some(from) && node.edge.to == Some(to) { return node.edge; }
          e := FindFallback(Fallbacks(node.edge), from, to);
          if e.Edge? { return; }
        }
        e := FindEdgeInCalls(node.parallel, from, to);
        if e.Edge? { return; }
      }
      i := i + 1;
    }
    e := NilEdge;
  }

  method FindFallback(fallbacks: seq<Edge>, from: OpRef, to: OpRef) returns (e: Edge)
    ensures e == Spec.FirstMatch(NonNil(fallbacks), from, to)
  {
    for i := 0 to |fallbacks|
      invariant Spec.FirstMatch(NonNil(fallbacks), from, to) == Spec.FirstMatch(NonNil(fallbacks[i..]), from, to)
    {
      var rest := fallbacks[i..];
      assert rest[0] == fallbacks[i] && rest[1..] == fallbacks[i + 1..];
      assert NonNil(rest) == (if rest[0].Edge? then [rest[0]] else []) + NonNil(rest[1..]);
      MatchConcat(if rest[0].Edge? then [rest[0]] else [], NonNil(rest[1..]), from, to);
      if fallbacks[i].Edge? && fallbacks[i].from == Some(from) && fallbacks[i].to == Some(to) { return fallbacks[i]; }
    }
    e := NilEdge;
  }

  lemma {:induction false} MatchConcat(a: seq<Edge>, b: seq<Edge>, from: OpRef, to: OpRef)
    ensures var m := Spec.FirstMatch(a, from, to);
            Spec.FirstMatch(a + b, from, to) == if m.Edge? then m else Spec.FirstMatch(b, from, to)
    decreases a
  {
    if a == [] {
      assert a + b == b;
    } else {
      assert (a + b)[1..] == a[1..] + b;
      MatchConcat(a[1..], b, from, to);
    }
  }

  lemma NodeMatch(node: CallNode, from: OpRef, to: OpRef)
    requires node.CallNode?
    ensures Spec.FirstMatch(EdgesInNode(node), from, to)
         == if node.edge.Edge? && node.edge.from == Some(from) && node.edge.to == Some(to) then node.edge
            else if node.edge.Edge? && Spec.FirstMatch(NonNil(Fallbacks(node.edge)), from, to).Edge?
            then Spec.FirstMatch(NonNil(Fallbacks(node.edge)), from, to)
            else Spec.FirstMatch(EdgesInCalls(node.parallel), from, to)
  {
    if node.edge.Edge? {
      var fallbacks := NonNil(Fallbacks(node.edge));
      MatchConcat([node.edge] + fallbacks, EdgesInCalls(node.parallel), from, to);
      MatchConcat([node.edge], fallbacks, from, to);
      assert [node.edge][1..] == [];
    } else {
      assert EdgesInNode(node) == EdgesInCalls(node.parallel);
    }
  }

  /** Every edge in an operation's calls starts at that operation. */
  ghost predicate Owned(ops: map<OpRef, Operation>) {
    forall r, e | r in ops && e in EdgesInCalls(ops[r].calls) && e.Edge? :: e.from == Some(r)
  }

  lemma {:induction false} NoForeignMatch(es: seq<Edge>, owner: OpRef, from: OpRef, to: OpRef)
    requires owner != from && forall e | e in es && e.Edge? :: e.from == Some(owner)
    ensures Spec.FirstMatch(es, from, to) == NilEdge
    decreases es
  {
    if es != [] { NoForeignMatch(es[1..], owner, from, to); }
  }

  /** findEdge walks every operation in map order; only the calls of from can match, so the order never shows. */
  method FindEdge(ops: map<OpRef, Operation>, from: OpRef, to: OpRef) returns (e: Edge)
    requires Owned(ops)
    ensures e == Spec.FirstMatch(EdgesInCalls(Spec.CallsIn(ops, from)), from, to)
  {
    var rest := ops.Keys;
    while rest != {}
      invariant rest <= ops.Keys
      invariant from in ops && from !in rest ==> Spec.FirstMatch(EdgesInCalls(ops[from].calls), from, to) == NilEdge
    {
      var op :| op in rest;
      e := FindEdgeInCalls(ops[op].calls, from, to);
      if e.Edge? {
        if op != from { NoForeignMatch(EdgesInCalls(ops[op].calls), op, from, to); }
        return;
      }
      MatchIsEdge(EdgesInCalls(ops[op].calls), from, to);
      rest := rest - {op};
    }
    e := NilEdge;
  }

  lemma MatchIsEdge(es: seq<Edge>, from: OpRef, to: OpRef)
    ensures Spec.FirstMatch(es, from, to).NilEdge? ==> Spec.FirstMatch(es, from, to) == NilEdge
  {
  }

  // ----- buildSchema

  method BuildOperations(id: string, ros: seq<RawOperation>) returns (entries: map<string, Option<OpRef>>, ops: map<OpRef, Operation>)
    ensures entries == map name | name in Spec.Named(ros) :: Some(OpRef(id, name))
    ensures forall ref :: ref in ops <==> ref.svc == id && ref.op in Spec.Named(ros)
    ensures forall ref | ref in ops ::
              ops[ref] == Operation(ref.op, Some(SvcRef(id)), [], Spec.ResolveTelemetry(Spec.LastNamed(ros, ref.op)))
  {
    entries, ops := map[], map[];
    for i := 0 to |ros|
      invariant entries == map name | name in Spec.Named(ros[..i]) :: Some(OpRef(id, name))
      invariant forall ref :: ref in ops <==> ref.svc == id && ref.op in Spec.Named(ros[..i])
      invariant forall ref | ref in ops ::
                  ops[ref] == Operation(ref.op, Some(SvcRef(id)), [], Spec.ResolveTelemetry(Spec.LastNamed(ros[..i], ref.op)))
    {
      hide Spec.ResolveTelemetry;
      var ro := Spec.OrEmpty(ros[i]);
      entries := entries[ro.name := Some(OpRef(id, ro.name))];
      ops := ops[OpRef(id, ro.name) := Operation(ro.name, Some(SvcRef(id)), [], Spec.ResolveTelemetry(ro))];
      NamedLast(ros[..i + 1]);
      assert ros[..i + 1][..i] == ros[..i];
    }
    assert ros[..|ros|] == ros;
  }

  lemma NamedLast(ros: seq<RawOperation>)
    requires ros != []
    ensures Spec.Named(ros) == Spec.Named(ros[..|ros| - 1]) + {Spec.OrEmpty(ros[|ros| - 1]).name}
  {
    assert ros == ros[..|ros| - 1] + [ros[|ros| - 1]];
  }

  /** The schema as built for the services not in rest. */
  ghost predicate BuiltSoFar(raw: RawSchema, rest: set<string>,
      services: map<string, Option<SvcRef>>, svcs: map<SvcRef, Service>, ops: map<OpRef, Operation>)
  {
    && services == (map id | id in raw.services && id !in rest :: Some(SvcRef(id)))
    && svcs == (map svc: SvcRef | svc in Spec.AllServices(raw) && svc.key !in rest :: Spec.ServiceOf(raw, svc.key))
    && ops == (map ref: OpRef | ref in Spec.AllRefs(raw) && ref.svc !in rest :: Spec.OperationOf(raw, ref))
  }

  lemma OneMoreService(raw: RawSchema, rest: set<string>, id: string,
      services: map<string, Option<SvcRef>>, svcs: map<SvcRef, Service>, ops: map<OpRef, Operation>, more: map<OpRef, Operation>)
    requires BuiltSoFar(raw, rest, services, svcs, ops) && id in rest && id in raw.services
    requires more == map ref: OpRef | ref in Spec.AllRefs(raw) && ref.svc == id :: Spec.OperationOf(raw, ref)
    ensures BuiltSoFar(raw, rest - {id}, services[id := Some(SvcRef(id))], svcs[SvcRef(id) := Spec.ServiceOf(raw, id)], ops + more)
  {
    hide Spec.ServiceOf, Spec.OperationOf, Spec.AllRefs;
    assert SvcRef(id) in Spec.AllServices(raw);
    forall svc: SvcRef
      ensures svc.key == id <==> svc == SvcRef(id)
    {
    }
  }

  method BuildSchema(raw: RawSchema) returns (s: Schema)
    ensures s == Spec.Built(raw)
  {
    hide Spec.ServiceOf, Spec.OperationOf, Spec.AllRefs, Spec.AllServices;
    var services: map<string, Option<SvcRef>>, svcs: map<SvcRef, Service>, ops: map<OpRef, Operation> := map[], map[], map[];
    var rest := raw.services.Keys;
    NothingBuilt(raw);
    while rest != {}
      invariant rest <= raw.services.Keys && BuiltSoFar(raw, rest, services, svcs, ops)
    {
      hide BuiltSoFar;
      var id :| id in rest;
      var svc, more := BuildService(raw, id);
      OneMoreService(raw, rest, id, services, svcs, ops, more);
      rest := rest - {id};
      services := services[id := Some(SvcRef(id))];
      svcs := svcs[SvcRef(id) := svc];
      ops := ops + more;
    }
    s := Schema(Spec.NamespaceOf(raw), services, map[], [], svcs, ops);
  }

  lemma NothingBuilt(raw: RawSchema)
    ensures BuiltSoFar(raw, raw.services.Keys, map[], map[], map[])
  {
  }

  method BuildService(raw: RawSchema, id: string) returns (svc: Service, ops: map<OpRef, Operation>)
    requires id in raw.services
    ensures svc == Spec.ServiceOf(raw, id)
    ensures ops == map ref: OpRef | ref in Spec.AllRefs(raw) && ref.svc == id :: Spec.OperationOf(raw, ref)
  {
    hide Spec.ResolveTelemetry, Spec.LastNamed;
    var rs := Spec.ServiceAt(raw, id);
    var entries;
    entries, ops := BuildOperations(id, rs.operations);
    svc := Service(id, if rs.ns == "" then Spec.NamespaceOf(raw) else rs.ns, ParseServiceKind(rs.kind), rs.replicas.GetOr(1),
                   rs.language, rs.framework, rs.version, entries, Map(Spec.ResolveObservable, Somes(rs.metrics)));
  }

  // ----- resolveReferences: calls

  /** Fills the call lists of one service's operations; a later entry of the same name overwrites an earlier one. */
  method ResolveServiceCalls(dir: Spec.Directory, id: string, ros: seq<RawOperation>, ops: map<OpRef, Operation>)
    returns (linked: map<OpRef, Operation>, errs: Errors)
    requires forall ref: OpRef | ref.svc == id && ref.op in Spec.Named(ros) :: ref in ops
    requires forall ref | ref in ops && ref.svc == id :: ops[ref].calls == []
    ensures linked.Keys == ops.Keys
    ensures forall ref | ref in ops ::
              linked[ref] == if ref.svc != id then ops[ref]
                             else ops[ref].(calls := Spec.ResolveCallNodes(dir, ref, Spec.LastCalls(ros, ref.op), []).values)
    ensures errs == [] <==> Spec.OperationsResolve(ros, dir, id)
  {
    hide Spec.ResolveCallNodes;
    linked, errs := ops, [];
    NoCalls(dir);
    for i := 0 to |ros|
      invariant linked.Keys == ops.Keys
      invariant forall ref | ref in ops ::
                  linked[ref] == if ref.svc != id then ops[ref]
                                 else ops[ref].(calls := Spec.ResolveCallNodes(dir, ref, Spec.LastCalls(ros[..i], ref.op), []).values)
      invariant errs == [] <==> Spec.OperationsResolve(ros[..i], dir, id)
    {
      assert ros[..i + 1][..i] == ros[..i];
      if ros[i].RawOperation? {
        var ref := OpRef(id, ros[i].name);
        assert Spec.OrEmpty(ros[i]).name in Spec.Named(ros);
        var nodes, more := ResolveCallNodes(dir, ref, ros[i].calls, []);
        linked := linked[ref := linked[ref].(calls := nodes)];
        errs := errs + more;
      }
    }
    assert ros[..|ros|] == ros;
  }

  lemma NoCalls(dir: Spec.Directory)
    ensures forall ref :: Spec.ResolveCallNodes(dir, ref, [], []).values == []
  {
  }

  /** The operations after the services not in rest have been linked. */
  ghost predicate LinkedSoFar(raw: RawSchema, dir: Spec.Directory, rest: set<string>, ops: map<OpRef, Operation>) {
    && ops.Keys == Spec.AllRefs(raw)
    && forall ref | ref in ops ::
         ops[ref] == if ref.svc in rest then Spec.OperationOf(raw, ref)
                     else Spec.OperationOf(raw, ref).(calls := Spec.CallsOf(raw, dir, ref).values)
  }

  lemma ServiceRefs(raw: RawSchema, id: string)
    requires id in raw.services
    ensures forall ref: OpRef :: ref.svc == id ==> (ref in Spec.AllRefs(raw) <==> ref.op in Spec.Named(Spec.ServiceAt(raw, id).operations))
  {
    hide Spec.Named;
    forall ref: OpRef | ref.svc == id
      ensures ref in Spec.AllRefs(raw) <==> ref.op in Spec.Named(Spec.ServiceAt(raw, id).operations)
    {
      assert ref == OpRef(ref.svc, ref.op);
    }
  }

  lemma NothingLinked(raw: RawSchema, dir: Spec.Directory)
    ensures LinkedSoFar(raw, dir, raw.services.Keys, Spec.Built(raw).ops)
  {
    hide Spec.OperationOf, Spec.ServiceOf, Spec.CallsOf, Spec.Named;
  }

  method ResolveCalls(raw: RawSchema, dir: Spec.Directory, ops: map<OpRef, Operation>) returns (linked: map<OpRef, Operation>, errs: Errors)
    requires LinkedSoFar(raw, dir, raw.services.Keys, ops)
    ensures linked == map ref: OpRef | ref in Spec.AllRefs(raw) :: Spec.OperationOf(raw, ref).(calls := Spec.CallsOf(raw, dir, ref).values)
    ensures errs == [] <==> Spec.CallsResolve(raw, dir)
  {
    hide Spec.ResolveCallNodes, Spec.ResolveTelemetry, Spec.OperationsResolve, Spec.Named, Spec.LastNamed, Spec.LastCalls, Spec.AllRefs;
    linked, errs := ops, [];
    var rest := raw.services.Keys;
    while rest != {}
      invariant rest <= raw.services.Keys && LinkedSoFar(raw, dir, rest, linked)
      invariant errs == [] <==> forall id | id in raw.services && id !in rest :: Spec.OperationsResolve(Spec.ServiceAt(raw, id).operations, dir, id)
    {
      var id :| id in rest;
      ServiceRefs(raw, id);
      var more;
      linked, more := ResolveServiceCalls(dir, id, Spec.ServiceAt(raw, id).operations, linked);
      errs := errs + more;
      rest := rest - {id};
    }
  }

  // ----- resolveReferences: journeys

  method ResolveJourneys(raw: RawSchema, dir: Spec.Directory) returns (journeys: map<string, Option<Journey>>, errs: Errors)
    ensures journeys == map name | name in raw.journeys :: Some(Spec.JourneyOf(raw, dir, name))
    ensures errs == [] <==> Spec.JourneysResolve(raw, dir)
  {
    hide Spec.ResolveSteps;
    journeys, errs := map[], [];
    var rest := raw.journeys.Keys;
    while rest != {}
      invariant rest <= raw.journeys.Keys
      invariant journeys == map name | name in raw.journeys && name !in rest :: Some(Spec.JourneyOf(raw, dir, name))
      invariant errs == [] <==>
                forall name | name in raw.journeys && name !in rest :: Spec.ResolveSteps(dir, Spec.JourneyAt(raw, name).steps).errs == []
    {
      var name :| name in rest;
      var rj := Spec.JourneyAt(raw, name);
      var steps, more := ResolveSteps(dir, rj.steps);
      journeys := journeys[name := Some(Journey(name, steps, rj.weight.GetOr(1.0)))];
      errs := errs + more;
      rest := rest - {name};
    }
  }

  // ----- resolveReferences: faults

  ghost predicate HasShape(dir: Spec.Directory, owner: OpRef, n: CallNode) {
    exists path :: ShapedCallNode(dir, owner, n, path)
  }

  /** Each node was resolved for owner, whatever happened to its neighbours. */
  ghost predicate AllShaped(dir: Spec.Directory, owner: OpRef, ns: seq<CallNode>) {
    forall n | n in ns :: HasShape(dir, owner, n)
  }

  lemma {:induction false} ValuesShaped(dir: Spec.Directory, owner: OpRef, rcs: seq<RawCallNode>, path: seq<nat>)
    ensures AllShaped(dir, owner, Spec.ResolveCallNodes(dir, owner, rcs, path).values)
    decreases rcs
  {
    hide Spec.ResolveCallNode, ShapedCallNode, HasShape;
    if rcs != [] {
      var n := |rcs| - 1;
      ValuesShaped(dir, owner, rcs[..n], path);
      var last := Spec.ResolveCallNode(dir, owner, rcs[n], path + [n]);
      if last.Ok? {
        CallNodeShaped(dir, owner, rcs[n], path + [n]);
        ShapeFound(dir, owner, last.value, path + [n]);
      }
    }
  }

  lemma ShapeFound(dir: Spec.Directory, owner: OpRef, n: CallNode, path: seq<nat>)
    requires ShapedCallNode(dir, owner, n, path)
    ensures HasShape(dir, owner, n)
  {
  }

  lemma {:induction false} NodeOwned(dir: Spec.Directory, owner: OpRef, n: CallNode, path: seq<nat>)
    requires ShapedCallNode(dir, owner, n, path)
    ensures forall e | e in EdgesInNode(n) :: e.Edge? && e.from == Some(owner)
    decreases n, 1
  {
    hide HasShape;
    if n.edge.Edge? {
      var fallbacks := Fallbacks(n.edge);
      forall i | 0 <= i < |fallbacks|
        ensures fallbacks[i].Edge? && fallbacks[i].from == Some(owner)
      {
        assert ShapedEdge(dir, owner, n.edge.onFailure.value.fallback[i], path + [i]);
      }
      FallbacksOwned(owner, fallbacks);
      assert EdgesInCalls(n.parallel) == [];
    } else {
      forall i | 0 <= i < |n.parallel|
        ensures HasShape(dir, owner, n.parallel[i])
      {
        ShapeFound(dir, owner, n.parallel[i], path + [i]);
      }
      NodesOwned(dir, owner, n.parallel);
    }
  }

  lemma {:induction false} FallbacksOwned(owner: OpRef, es: seq<Edge>)
    requires forall e | e in es :: e.Edge? && e.from == Some(owner)
    ensures forall e | e in NonNil(es) :: e.Edge? && e.from == Some(owner)
    decreases es
  {
    if es != [] { FallbacksOwned(owner, es[1..]); }
  }

  lemma {:induction false} NodesOwned(dir: Spec.Directory, owner: OpRef, ns: seq<CallNode>)
    requires AllShaped(dir, owner, ns)
    ensures forall e | e in EdgesInCalls(ns) :: e.Edge? && e.from == Some(owner)
    decreases ns, 0
  {
    hide ShapedCallNode;
    if ns != [] {
      assert HasShape(dir, owner, ns[0]);
      var path :| ShapedCallNode(dir, owner, ns[0], path);
      NodeOwned(dir, owner, ns[0], path);
      NodesOwned(dir, owner, ns[1..]);
    }
  }

  lemma ReferencedOwned(raw: RawSchema, dir: Spec.Directory, ops: map<OpRef, Operation>)
    requires ops == map ref: OpRef | ref in Spec.AllRefs(raw) :: Spec.OperationOf(raw, ref).(calls := Spec.CallsOf(raw, dir, ref).values)
    ensures Owned(ops)
  {
    hide Spec.ResolveCallNodes, EdgesInCalls, Spec.OperationOf, AllShaped, Spec.LastCalls, Spec.Named;
    forall r, e | r in ops && e in EdgesInCalls(ops[r].calls) && e.Edge?
      ensures e.from == Some(r)
    {
      ValuesShaped(dir, r, Spec.LastCalls(Spec.ServiceAt(raw, r.svc).operations, r.op), []);
      NodesOwned(dir, r, ops[r].calls);
    }
  }

  method ResolveFaultTarget(dir: Spec.Directory, ops: map<OpRef, Operation>, spec: string) returns (r: Result<FaultTarget, Errors>)
    requires Owned(ops)
    ensures r == Spec.ResolveFaultTarget(dir, ops, spec)
  {
    hide Owned;
    var cut := Cut(spec, ":");
    if cut.None? || cut.value.1 == "" { return Err([Spec.TargetMalformed]); }
    var kind, rest := cut.value.0, cut.value.1;
    match kind {
      case "node" =>
        r := if rest in dir then Ok(FaultTarget(TargetNode, Some(SvcRef(rest)), None, NilEdge)) else Err([Spec.ServiceNotFound]);
      case "operation" =>
        var ref :- Spec.ParseOperationRef(rest);
        var op :- Spec.Lookup(dir, ref.0, ref.1);
        r := Ok(FaultTarget(TargetOperation, None, Some(op), NilEdge));
      case "edge" =>
        r := ResolveEdgeTarget(dir, ops, rest);
      case _ =>
        r := Err([Spec.TargetUnsupported]);
    }
  }

  method ResolveEdgeTarget(dir: Spec.Directory, ops: map<OpRef, Operation>, rest: string) returns (r: Result<FaultTarget, Errors>)
    requires Owned(ops)
    ensures r == Spec.ResolveEdgeTarget(dir, ops, rest)
  {
    hide Owned, Spec.ParseOperationRef, Spec.Lookup, Spec.CallsIn;
    var cut := Cut(rest, "->");
    if cut.None? || cut.value.0 == "" || cut.value.1 == "" { return Err([Spec.EdgeTargetMalformed]); }
    var fromRef :- Spec.ParseOperationRef(cut.value.0);
    var toRef :- Spec.ParseOperationRef(cut.value.1);
    var from :- Spec.Lookup(dir, fromRef.0, fromRef.1);
    var to :- Spec.Lookup(dir, toRef.0, toRef.1);
    var edge := FindEdge(ops, from, to);
    r := if edge.NilEdge? then Err([Spec.EdgeNotFound]) else Ok(FaultTarget(TargetEdge, None, None, edge));
  }

  method ResolveFaults(dir: Spec.Directory, ops: map<OpRef, Operation>, rfs: seq<Option<RawFault>>) returns (faults: seq<FaultSpec>, errs: Errors)
    requires Owned(ops)
    ensures Spec.Collected(faults, errs) == Spec.ResolveFaults(dir, ops, rfs)
  {
    hide Owned, Spec.ResolveFaultTarget, Spec.ResolveSeverity, ParseFaultKind;
    faults, errs := [], [];
    for i := 0 to |rfs|
      invariant Spec.Collected(faults, errs) == Spec.ResolveFaults(dir, ops, rfs[..i])
    {
      assert rfs[..i + 1][..i] == rfs[..i];
      if rfs[i].None? {
        errs := errs + [Spec.FaultRequired];
      } else {
        var f := rfs[i].value;
        var target := ResolveFaultTarget(dir, ops, f.target);
        match target {
          case Err(e) => errs := errs + e;
          case Ok(t) =>
            faults := faults + [FaultSpec(t, ParseFaultKind(f.kind), Spec.ResolveSeverity(f.severity), Map(Spec.ResolvePoint, f.schedule))];
        }
      }
    }
    assert rfs[..|rfs|] == rfs;
  }

  // ----- Parse, below the YAML decoder

  method ResolveReferences(raw: RawSchema, built: Schema) returns (r: Option<Schema>)
    requires built == Spec.Built(raw)
    ensures r == Spec.ResolveSchema(raw)
  {
    hide Spec.OperationOf, Spec.CallsOf, Spec.ServiceOf, Spec.JourneyOf, Spec.AllRefs, Spec.ResolveFaults,
      Spec.CallsResolve, Spec.JourneysResolve,
      Spec.DirectoryOf, Owned, LinkedSoFar;
    var dir := Spec.DirectoryOf(built);
    NothingLinked(raw, dir);
    var ops, callErrs := ResolveCalls(raw, dir, built.ops);
    var journeys, journeyErrs := ResolveJourneys(raw, dir);
    ReferencedOwned(raw, dir, ops);
    var faults, faultErrs := ResolveFaults(dir, ops, raw.faults);
    r := if callErrs + journeyErrs + faultErrs == [] then Some(built.(ops := ops, journeys := journeys, faults := faults)) else None;
  }

  /** Parse returns a schema exactly when every reference resolves and the result validates. */
  method Parse(raw: RawSchema) returns (r: Option<Schema>)
    ensures r.Some? <==> Spec.ResolveSchema(raw).Some? && V.Valid(Spec.ResolveSchema(raw).value)
    ensures r.Some? ==> r == Spec.ResolveSchema(raw)
  {
    hide V.Valid, Spec.ResolveSchema, Spec.Built;
    var built := BuildSchema(raw);
    r := ResolveReferences(raw, built);
    if r.Some? {
      var errs := V.Validate(r.value);
      if errs != [] { r := None; }
    }
  }
}
