/**
 What Equal means.  It compares operations by their joined names, so it is exact when
 no two operations of the schema share one: Equal then says the two schemas are the
 same but for retry delays left at zero.  EqualExact.dfy shows that nothing less will do.
 */
module EqualMeaning {
  import opened Wrappers
  import opened Strings
  import opened Topology
  import opened RawDocument
  import opened Resolve
  import opened Marshal
  import opened Equal
  import opened RoundTrip
  import opened SchemaRoundTrip
  import opened ResolvedShape
  import opened Reload

  // ----- The same but for unset retry delays

  /** The default retry delay filled in, on fallbacks too. */
  function SettledEdge(e: Edge): (r: Edge)
    ensures r.Edge? <==> e.Edge?
    decreases e, 0
  {
    if e.NilEdge? then e
    else
      e.(retryBaseDelay := if e.retryBaseDelay == 0 then DEFAULT_RETRY_BASE_DELAY else e.retryBaseDelay,
         onFailure := match e.onFailure
                      case None => None
                      case Some(rp) => Some(rp.(fallback := SettledEdges(rp.fallback))))
  }

  function SettledEdges(es: seq<Edge>): (r: seq<Edge>)
    ensures |r| == |es| && forall i | 0 <= i < |es| :: r[i] == SettledEdge(es[i])
    decreases es
  {
    if es == [] then [] else [SettledEdge(es[0])] + SettledEdges(es[1..])
  }

  function SettledNode(n: CallNode): CallNode
    decreases n, 0
  {
    if n.NilCall? then n else CallNode(SettledEdge(n.edge), SettledNodes(n.parallel))
  }

  function SettledNodes(ns: seq<CallNode>): (r: seq<CallNode>)
    ensures |r| == |ns| && forall i | 0 <= i < |ns| :: r[i] == SettledNode(ns[i])
    decreases ns
  {
    if ns == [] then [] else [SettledNode(ns[0])] + SettledNodes(ns[1..])
  }

  predicate SameOperation(a: Operation, b: Operation) {
    a.name == b.name && a.service == b.service && a.telemetry == b.telemetry && SettledNodes(a.calls) == SettledNodes(b.calls)
  }

  predicate SameFault(s: Schema, t: Schema, f: FaultSpec, g: FaultSpec) {
    f.kind == g.kind && f.severity == g.severity && f.schedule == g.schedule
    && MarshalFaultTarget(s, f.target) == MarshalFaultTarget(t, g.target)
  }

  predicate SameSchema(s: Schema, t: Schema) {
    && s.ns == t.ns && s.services == t.services && s.svcs == t.svcs && s.journeys == t.journeys
    && s.ops.Keys == t.ops.Keys && (forall r | r in s.ops :: SameOperation(s.ops[r], t.ops[r]))
    && |s.faults| == |t.faults| && (forall i | 0 <= i < |s.faults| :: SameFault(s, t, s.faults[i], t.faults[i]))
  }

  // ----- Joined names

  function Joined(r: OpRef): string {
    r.svc + "." + r.op
  }

  predicate InDirectory(dir: Directory, op: Option<OpRef>) {
    op.Some? && op.value.svc in dir && op.value.op in dir[op.value.svc]
  }

  /** No two operations that a document can refer to share their joined name. */
  ghost predicate NoCollision(dir: Directory) {
    forall a, b | Known(dir, Some(a)) && Known(dir, Some(b)) && Joined(a) == Joined(b) :: a == b
  }

  lemma NameReads(s: Schema, dir: Directory, op: Option<OpRef>)
    requires Truthful(s, dir) && InDirectory(dir, op)
    ensures IdentifyOp(s, op) == Joined(op.value) != "<nil>"
  {
    assert IdentifyOp(s, op)[|op.value.svc|] == '.';
  }

  lemma NamesTellApart(s: Schema, t: Schema, d: Directory, a: Option<OpRef>, b: Option<OpRef>)
    requires Truthful(s, d) && Truthful(t, d) && NoCollision(d) && Known(d, a) && Known(d, b)
    ensures IdentifyOp(s, a) == IdentifyOp(t, b) <==> a == b
    ensures IdentifyOp(s, a) != "<nil>" && IdentifyOp(t, b) != "<nil>"
  {
    NameReads(s, d, a);
    NameReads(t, d, b);
  }

  /** Two references share a name only by moving a dot between service and operation. */
  lemma ClashForm(a: OpRef, b: OpRef)
    requires |a.svc| >= |b.svc|
    ensures a != b && Joined(a) == Joined(b) <==> exists x, y, z :: a == OpRef(x + "." + y, z) && b == OpRef(x, y + "." + z)
  {
    if a != b && Joined(a) == Joined(b) {
      var n, m := |b.svc|, |a.svc|;
      var name := Joined(a);
      assert a.svc == name[..m] && a.op == name[m + 1..] && b.svc == name[..n] && b.op == name[n + 1..];
      assert name[n] == '.' && name[m] == '.' && m != n;
      var y := name[n + 1..m];
      assert a.svc == b.svc + "." + y && b.op == y + "." + a.op;
    }
    forall x, y, z | a == OpRef(x + "." + y, z) && b == OpRef(x, y + "." + z)
      ensures a != b && Joined(a) == Joined(b)
    {
      assert |a.svc| > |b.svc|;
      assert (x + "." + y) + "." + z == x + "." + (y + "." + z);
    }
  }

  // ----- Trees

  lemma {:induction false} EqualEdgeMeans(s: Schema, t: Schema, d: Directory, a: Edge, b: Edge, owner: OpRef, path: seq<nat>)
    requires Truthful(s, d) && Truthful(t, d) && NoCollision(d)
    requires ShapedEdge(d, owner, a, path) && ShapedEdge(d, owner, b, path) && InDirectory(d, Some(owner))
    ensures EqualEdge(s, t, a, b) <==> SettledEdge(a) == SettledEdge(b)
    decreases a
  {
    hide Truthful, IdentifyOp, SettledEdges;
    NamesTellApart(s, t, d, a.to, b.to);
    NameReads(s, d, a.from);
    NameReads(t, d, b.from);
    if a.onFailure.Some? && b.onFailure.Some? && |a.onFailure.value.fallback| == |b.onFailure.value.fallback| {
      var fs, gs := a.onFailure.value.fallback, b.onFailure.value.fallback;
      forall i | 0 <= i < |fs|
        ensures EqualEdge(s, t, fs[i], gs[i]) <==> SettledEdges(fs)[i] == SettledEdges(gs)[i]
      {
        EqualEdgeMeans(s, t, d, fs[i], gs[i], owner, path + [i]);
      }
      assert SettledEdges(fs) == SettledEdges(gs) <==> forall i | 0 <= i < |fs| :: EqualEdge(s, t, fs[i], gs[i]);
    }
  }

  /** Edges that differ in their retry delay are told apart, unless one leaves unset what the other sets to the default. */
  lemma DelaysTold(s: Schema, t: Schema, a: Edge, b: Edge)
    requires a.Edge? && b.Edge? && EqualEdge(s, t, a, b)
    ensures a.retryBaseDelay == b.retryBaseDelay || {a.retryBaseDelay, b.retryBaseDelay} == {0, 100_000_000}
  {
  }

  lemma {:induction false} EqualNodeMeans(s: Schema, t: Schema, d: Directory, a: CallNode, b: CallNode, owner: OpRef, path: seq<nat>)
    requires Truthful(s, d) && Truthful(t, d) && NoCollision(d)
    requires ShapedCallNode(d, owner, a, path) && ShapedCallNode(d, owner, b, path) && InDirectory(d, Some(owner))
    ensures EqualCallNode(s, t, a, b) <==> SettledNode(a) == SettledNode(b)
    decreases a, 0
  {
    hide Truthful, EqualEdge, SettledEdge, SettledNodes, NoCollision, InDirectory;
    if a.edge.Edge? && b.edge.Edge? {
      EqualEdgeMeans(s, t, d, a.edge, b.edge, owner, path);
    } else if a.edge.NilEdge? && b.edge.NilEdge? {
      NilSettles(s, t);
      EqualNodesMean(s, t, d, a.parallel, b.parallel, owner, path);
    } else {
      NilSettles(s, t);
      NilDiffers(s, t, a.edge, b.edge);
    }
  }

  lemma NilSettles(s: Schema, t: Schema)
    ensures EqualEdge(s, t, NilEdge, NilEdge) && SettledEdge(NilEdge) == NilEdge && SettledNodes([]) == []
  {
  }

  lemma NilDiffers(s: Schema, t: Schema, a: Edge, b: Edge)
    requires a.Edge? != b.Edge?
    ensures !EqualEdge(s, t, a, b) && SettledEdge(a) != SettledEdge(b)
  {
  }

  lemma {:induction false} EqualNodesMean(s: Schema, t: Schema, d: Directory, a: seq<CallNode>, b: seq<CallNode>,
                                          owner: OpRef, path: seq<nat>)
    requires Truthful(s, d) && Truthful(t, d) && NoCollision(d)
    requires ShapedCallNodes(d, owner, a, path) && ShapedCallNodes(d, owner, b, path) && InDirectory(d, Some(owner))
    ensures EqualCalls(s, t, a, b) <==> SettledNodes(a) == SettledNodes(b)
    decreases a
  {
    hide Truthful, EqualCallNode, SettledNode, SettledNodes, ShapedCallNode, NoCollision, InDirectory;
    if |a| == |b| {
      forall i | 0 <= i < |a|
        ensures EqualCallNode(s, t, a[i], b[i]) <==> SettledNodes(a)[i] == SettledNodes(b)[i]
      {
        EqualNodeMeans(s, t, d, a[i], b[i], owner, path + [i]);
      }
      assert SettledNodes(a) == SettledNodes(b) <==> forall i | 0 <= i < |a| :: EqualCallNode(s, t, a[i], b[i]);
    }
  }

  lemma {:induction false} EqualStepMeans(s: Schema, t: Schema, d: Directory, a: Step, b: Step)
    requires Truthful(s, d) && Truthful(t, d) && NoCollision(d) && ShapedStep(d, a) && ShapedStep(d, b)
    ensures EqualStep(s, t, a, b) <==> a == b
    decreases a, 0
  {
    hide Truthful;
    if a.op.Some? && b.op.Some? {
      NamesTellApart(s, t, d, a.op, b.op);
    } else if a.op.None? && b.op.None? {
      EqualStepsMean(s, t, d, a.parallel, b.parallel);
    } else if a.op.Some? {
      NamesTellApart(s, s, d, a.op, a.op);
    } else {
      NamesTellApart(t, t, d, b.op, b.op);
    }
  }

  lemma {:induction false} EqualStepsMean(s: Schema, t: Schema, d: Directory, a: seq<Step>, b: seq<Step>)
    requires Truthful(s, d) && Truthful(t, d) && NoCollision(d) && ShapedSteps(d, a) && ShapedSteps(d, b)
    ensures EqualSteps(s, t, a, b) <==> a == b
    decreases a
  {
    hide Truthful, EqualStep, ShapedStep, NoCollision;
    if |a| == |b| {
      forall i | 0 <= i < |a|
        ensures EqualStep(s, t, a[i], b[i]) <==> a[i] == b[i]
      {
        EqualStepMeans(s, t, d, a[i], b[i]);
      }
      assert a == b <==> forall i | 0 <= i < |a| :: EqualStep(s, t, a[i], b[i]);
    }
  }

  // ----- Fault targets

  /** What a resolved target looks like. */
  predicate TargetShaped(t: FaultTarget) {
    match t.kind
    case TargetNode => t.service.Some?
    case TargetOperation => t.operation.Some?
    case TargetEdge => t.edge.Edge?
  }

  lemma ResolvedTargetShaped(dir: Directory, ops: map<OpRef, Operation>, spec: string)
    requires ResolveFaultTarget(dir, ops, spec).Ok?
    ensures TargetShaped(ResolveFaultTarget(dir, ops, spec).value)
  {
    hide ParseOperationRef, Lookup, FirstMatch;
  }

  lemma EqualTargetMeans(s: Schema, a: FaultTarget, t: Schema, b: FaultTarget)
    requires TargetShaped(a) && TargetShaped(b)
    ensures EqualFaultTarget(s, t, a, b) <==> MarshalFaultTarget(s, a) == MarshalFaultTarget(t, b)
  {
    hide IdentifyOp;
    var x, y := MarshalFaultTarget(s, a), MarshalFaultTarget(t, b);
    assert a.kind.TargetNode? ==> x[0] == 'n' && x[5..] == ServiceId(s, a.service);
    assert b.kind.TargetNode? ==> y[0] == 'n' && y[5..] == ServiceId(t, b.service);
    assert a.kind.TargetOperation? ==> x[0] == 'o' && x[10..] == IdentifyOp(s, a.operation);
    assert b.kind.TargetOperation? ==> y[0] == 'o' && y[10..] == IdentifyOp(t, b.operation);
    assert a.kind.TargetEdge? ==> x[0] == 'e' && x[5..] == EdgeIdentity(s, a.edge);
    assert b.kind.TargetEdge? ==> y[0] == 'e' && y[5..] == EdgeIdentity(t, b.edge);
  }

  // ----- Schemas

  /** Two schemas over the same collision-free directory. */
  ghost predicate Comparable(s: Schema, t: Schema) {
    Shaped(s) && Shaped(t) && DirectoryOf(s) == DirectoryOf(t) && NoCollision(DirectoryOf(s))
  }

  lemma BothTruthful(s: Schema, t: Schema)
    requires Comparable(s, t)
    ensures Truthful(s, DirectoryOf(s)) && Truthful(t, DirectoryOf(s))
  {
    hide Shaped, Truthful;
    HeapIsTruthful(s);
    HeapIsTruthful(t);
  }

  lemma EqualOperationMeans(s: Schema, t: Schema, r: OpRef)
    requires Comparable(s, t) && r in s.ops && r in t.ops
    ensures EqualOperation(s, t, Some(r), Some(r)) <==> SameOperation(s.ops[r], t.ops[r])
  {
    hide ShapedSteps, ResolveFaultTarget, MarshalFaultTarget, EqualCalls, SettledNodes, ShapedCallNodes, NoCollision,
      Truthful, DirectoryOf, ShapedHeap, IdentifyOp, InDirectory;
    var d := DirectoryOf(s);
    BothTruthful(s, t);
    OperationListed(s, r);
    assert ShapedOperation(d, s.ops[r], r) && ShapedOperation(d, t.ops[r], r);
    NameReads(s, d, Some(r));
    NameReads(t, d, Some(r));
    EqualNodesMean(s, t, d, s.ops[r].calls, t.ops[r].calls, r, []);
  }

  lemma OperationListed(s: Schema, r: OpRef)
    requires Shaped(s) && r in s.ops
    ensures InDirectory(DirectoryOf(s), Some(r))
  {
    hide ShapedOperation, ShapedSteps, ResolveFaultTarget, ShapedService;
    assert r in RefsOf(DirectoryOf(s));
  }

  lemma SubsetOfSameSize<T>(a: set<T>, b: set<T>)
    requires a <= b && |a| == |b|
    ensures a == b
  {
    if a != b {
      var x :| x in b && x !in a;
      assert a <= b - {x};
      SmallerSubset(a, b - {x});
    }
  }

  lemma {:induction false} SmallerSubset<T>(a: set<T>, b: set<T>)
    requires a <= b
    ensures |a| <= |b|
    decreases b
  {
    if b != {} {
      var x :| x in b;
      SmallerSubset(a - {x}, b - {x});
      if x !in a { assert a - {x} == a; }
    }
  }

  predicate SameServiceAt(s: Schema, t: Schema, id: string) {
    && s.Svc(SvcRef(id)) == t.Svc(SvcRef(id))
    && forall name | name in s.Svc(SvcRef(id)).operations :: SameOperation(s.Op(OpRef(id, name)), t.Op(OpRef(id, name)))
  }

  /** One service compared with its namesake. */
  lemma EqualServiceMeans(s: Schema, t: Schema, id: string)
    requires Comparable(s, t) && id in s.services && id in t.services
    ensures EqualService(s, t, Some(SvcRef(id)), Some(SvcRef(id)))
       <==> SameServiceAt(s, t, id)
  {
    hide Shaped, EqualOperation, SameOperation, NoCollision;
    var x, y := s.Svc(SvcRef(id)), t.Svc(SvcRef(id));
    NamedService(s, id);
    NamedService(t, id);
    forall name | name in x.operations && name in y.operations
      ensures EqualOperation(s, t, x.operations[name], At(y.operations, name))
         <==> SameOperation(s.Op(OpRef(id, name)), t.Op(OpRef(id, name)))
    {
      EqualOperationMeans(s, t, OpRef(id, name));
    }
    assert DirectoryOf(s)[id] == x.operations.Keys && DirectoryOf(t)[id] == y.operations.Keys;
    assert x.operations == y.operations;
  }

  lemma MissingDiffers(s: Schema, t: Schema)
    ensures forall r: OpRef :: !EqualOperation(s, t, Some(r), None)
  {
  }

  lemma NamedService(s: Schema, id: string)
    requires Shaped(s) && id in s.services
    ensures var svc := s.Svc(SvcRef(id));
            && svc.ns != "" && s.services[id] == Some(SvcRef(id)) && SvcRef(id) in s.svcs
            && forall name | name in svc.operations :: svc.operations[name] == Some(OpRef(id, name)) && OpRef(id, name) in s.ops
  {
    hide ShapedOperation, ShapedSteps, ResolveFaultTarget, DirectoryOf, RefsOf;
    OperationsByService(s);
    assert ShapedService(s.Svc(SvcRef(id)), id);
  }

  lemma SameServices(s: Schema, t: Schema)
    requires ShapedHeap(s) && ShapedHeap(t) && s.services.Keys == t.services.Keys
    requires forall id | id in s.services :: SameServiceAt(s, t, id)
    ensures s.svcs == t.svcs
  {
    hide ShapedService, SameOperation, RefsOf, DirectoryOf;
    assert s.svcs.Keys == t.svcs.Keys;
    forall r | r in s.svcs
      ensures s.svcs[r] == t.svcs[r]
    {
      assert SameServiceAt(s, t, r.key) && r == SvcRef(r.key) && s.Svc(r) == s.svcs[r] && t.Svc(r) == t.svcs[r];
    }
  }

  lemma SameListings(s: Schema, t: Schema)
    requires ShapedHeap(s) && ShapedHeap(t) && s.services.Keys == t.services.Keys && s.svcs == t.svcs
    ensures s.ops.Keys == t.ops.Keys
  {
    hide ShapedService, DirectoryOf, RefsOf;
    assert s.services == t.services;
    SameDirectory(s, t);
  }

  lemma SameOperations(s: Schema, t: Schema)
    requires ShapedHeap(s) && ShapedHeap(t) && s.services.Keys == t.services.Keys && s.svcs == t.svcs && s.ops.Keys == t.ops.Keys
    ensures (forall id | id in s.services :: SameServiceAt(s, t, id)) <==> forall r | r in s.ops :: SameOperation(s.ops[r], t.ops[r])
  {
    OperationsByService(s);
    hide ShapedHeap, SameOperation;
    if forall id | id in s.services :: SameServiceAt(s, t, id) {
      forall r | r in s.ops
        ensures SameOperation(s.ops[r], t.ops[r])
      {
        assert SameServiceAt(s, t, r.svc) && r == OpRef(r.svc, r.op) && s.Op(r) == s.ops[r] && t.Op(r) == t.ops[r];
      }
    }
    if forall r | r in s.ops :: SameOperation(s.ops[r], t.ops[r]) {
      forall id | id in s.services
        ensures SameServiceAt(s, t, id)
      {
        SameAt(s, t, id);
      }
    }
  }

  lemma SameAt(s: Schema, t: Schema, id: string)
    requires ShapedHeap(s) && id in s.services && s.svcs == t.svcs && s.ops.Keys == t.ops.Keys
    requires forall r | r in s.ops :: SameOperation(s.ops[r], t.ops[r])
    ensures SameServiceAt(s, t, id)
  {
    OperationsByService(s);
    hide ShapedHeap, SameOperation;
    forall name | name in s.Svc(SvcRef(id)).operations
      ensures SameOperation(s.Op(OpRef(id, name)), t.Op(OpRef(id, name)))
    {
      var r := OpRef(id, name);
      assert r in s.ops && s.Op(r) == s.ops[r] && t.Op(r) == t.ops[r];
    }
  }

  /** Agreeing service by service is agreeing on the objects. */
  lemma ServicewiseSame(s: Schema, t: Schema)
    requires ShapedHeap(s) && ShapedHeap(t) && s.services.Keys == t.services.Keys
    ensures (forall id | id in s.services :: SameServiceAt(s, t, id))
       <==> s.svcs == t.svcs && s.ops.Keys == t.ops.Keys && forall r | r in s.ops :: SameOperation(s.ops[r], t.ops[r])
  {
    hide ShapedHeap, SameServiceAt, SameOperation;
    if forall id | id in s.services :: SameServiceAt(s, t, id) { SameServices(s, t); }
    if s.svcs == t.svcs {
      SameListings(s, t);
      SameOperations(s, t);
    }
  }

  lemma EqualServicesMean(s: Schema, t: Schema)
    requires Comparable(s, t) && s.services.Keys == t.services.Keys
    ensures (forall id | id in s.services :: EqualService(s, t, s.services[id], At(t.services, id)))
       <==> s.services == t.services && s.svcs == t.svcs && s.ops.Keys == t.ops.Keys
            && forall r | r in s.ops :: SameOperation(s.ops[r], t.ops[r])
  {
    hide Shaped, EqualService, SameOperation, NoCollision, SameServiceAt, ShapedHeap;
    forall id | id in s.services
      ensures s.services[id] == Some(SvcRef(id)) && t.services[id] == Some(SvcRef(id))
      ensures EqualService(s, t, s.services[id], At(t.services, id)) <==> SameServiceAt(s, t, id)
    {
      NamedService(s, id);
      NamedService(t, id);
      EqualServiceMeans(s, t, id);
    }
    ShapedIsHeap(s);
    ShapedIsHeap(t);
    ServicewiseSame(s, t);
  }

  lemma EqualJourneysMean(s: Schema, t: Schema)
    requires Comparable(s, t) && s.journeys.Keys == t.journeys.Keys
    ensures (forall name | name in s.journeys :: EqualJourney(s, t, s.journeys[name], At(t.journeys, name))) <==> s.journeys == t.journeys
  {
    hide ShapedOperation, ShapedSteps, ShapedHeap, ResolveFaultTarget, NoCollision, EqualSteps, Truthful, DirectoryOf;
    BothTruthful(s, t);
    forall name | name in s.journeys
      ensures EqualJourney(s, t, s.journeys[name], At(t.journeys, name)) <==> s.journeys[name] == t.journeys[name]
    {
      EqualStepsMean(s, t, DirectoryOf(s), s.journeys[name].value.steps, t.journeys[name].value.steps);
    }
  }

  lemma EqualFaultsMean(s: Schema, t: Schema, i: nat)
    requires Shaped(s) && Shaped(t) && i < |s.faults| && i < |t.faults|
    ensures EqualFault(s, t, s.faults[i], t.faults[i]) <==> SameFault(s, t, s.faults[i], t.faults[i])
  {
    hide ShapedOperation, ShapedSteps, ShapedHeap, ResolveFaultTarget, MarshalFaultTarget, EqualFaultTarget, TargetShaped, DirectoryOf;
    ResolvedTargetShaped(DirectoryOf(s), s.ops, MarshalFaultTarget(s, s.faults[i].target));
    ResolvedTargetShaped(DirectoryOf(t), t.ops, MarshalFaultTarget(t, t.faults[i].target));
    EqualTargetMeans(s, s.faults[i].target, t, t.faults[i].target);
  }

  lemma SameKeys<A, B>(a: map<string, Option<A>>, b: map<string, Option<B>>)
    requires |a| == |b| && forall k | k in a :: k in b
    ensures a.Keys == b.Keys
  {
    assert |a.Keys| == |a| && |b.Keys| == |b|;
    SubsetOfSameSize(a.Keys, b.Keys);
  }

  /** Either way the two schemas name the same operations. */
  lemma NamesAgree(s: Schema, t: Schema)
    requires Shaped(s) && Shaped(t) && (EqualSchemas(s, t) || SameSchema(s, t))
    ensures s.services == t.services && DirectoryOf(s) == DirectoryOf(t)
  {
    hide ShapedOperation, ShapedSteps, ShapedHeap, ShapedService, ResolveFaultTarget, MarshalFaultTarget, EqualFault, EqualJourney,
      SameFault, EqualOperation, SameOperation, RefsOf, EqualService;
    if SameSchema(s, t) {
      SameDirectory(s, t);
    } else {
      NothingMissing(s, t);
      SameKeys(s.services, t.services);
      forall id | id in s.services
        ensures s.services[id] == t.services[id] == Some(SvcRef(id))
        ensures s.Svc(SvcRef(id)).operations.Keys == t.Svc(SvcRef(id)).operations.Keys
      {
        EntriesAgree(s, t, id);
      }
    }
  }

  lemma EntriesAgree(s: Schema, t: Schema, id: string)
    requires Shaped(s) && Shaped(t) && id in s.services && id in t.services
    requires EqualService(s, t, s.services[id], At(t.services, id))
    ensures s.services[id] == t.services[id] == Some(SvcRef(id))
    ensures s.Svc(SvcRef(id)).operations.Keys == t.Svc(SvcRef(id)).operations.Keys
  {
    hide Shaped, EqualOperation;
    NamedService(s, id);
    NamedService(t, id);
    MissingDiffers(s, t);
    SameKeys(s.Svc(SvcRef(id)).operations, t.Svc(SvcRef(id)).operations);
  }

  /** On resolved schemas whose operations have names of their own, Equal is sameness up to unset retry delays. */
  lemma EqualMeansSame(r1: RawSchema, s: Schema, r2: RawSchema, t: Schema)
    requires ResolveSchema(r1) == Some(s) && ResolveSchema(r2) == Some(t) && NoCollision(DirectoryOf(s))
    ensures EqualSchemas(s, t) <==> SameSchema(s, t)
  {
    hide ResolveSchema, Shaped, NoCollision, EqualSchemas, SameSchema, DirectoryOf;
    ResolvedIsShaped(r1);
    ResolvedIsShaped(r2);
    if EqualSchemas(s, t) || SameSchema(s, t) {
      NamesAgree(s, t);
      ComparedMeans(s, t);
    }
  }

  lemma ComparedMeans(s: Schema, t: Schema)
    requires Comparable(s, t) && s.services == t.services
    ensures EqualSchemas(s, t) <==> SameSchema(s, t)
  {
    hide ShapedOperation, ShapedSteps, ShapedHeap, ResolveFaultTarget, MarshalFaultTarget, NoCollision,
      EqualService, EqualJourney, EqualFault, SameFault, SameOperation, DirectoryOf;
    EqualServicesMean(s, t);
    if EqualSchemas(s, t) {
      NothingMissing(s, t);
      SameKeys(s.journeys, t.journeys);
    }
    if s.journeys.Keys == t.journeys.Keys {
      EqualJourneysMean(s, t);
      assert |s.journeys| == |s.journeys.Keys| == |t.journeys.Keys| == |t.journeys|;
    }
    forall i | 0 <= i < |s.faults| && i < |t.faults|
      ensures EqualFault(s, t, s.faults[i], t.faults[i]) <==> SameFault(s, t, s.faults[i], t.faults[i])
    {
      EqualFaultsMean(s, t, i);
    }
  }

  /** Nothing non-nil is equal to a missing entry. */
  lemma NothingMissing(s: Schema, t: Schema)
    requires Shaped(s) && EqualSchemas(s, t)
    ensures forall id | id in s.services :: id in t.services
    ensures forall name | name in s.journeys :: name in t.journeys
  {
    hide ShapedOperation, ShapedSteps, ShapedService, ResolveFaultTarget, MarshalFaultTarget, EqualFault, RefsOf, DirectoryOf;
    forall id | id in s.services
      ensures id in t.services
    {
      assert EqualService(s, t, s.services[id], At(t.services, id)) && s.services[id].Some?;
    }
    forall name | name in s.journeys
      ensures name in t.journeys
    {
      assert EqualJourney(s, t, s.journeys[name], At(t.journeys, name)) && s.journeys[name].Some?;
    }
  }
}
