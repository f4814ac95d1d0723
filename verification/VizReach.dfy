/**
 journeyReachability of cmd/xk6-otel-gen-viz/vizdata.go: a depth-first search with
 a visited set over primary calls and first-level fallbacks, cyclic or not.
 */
module VizReach {
  import opened Wrappers
  import opened Strings
  import opened Topology
  import opened Validate
  import opened Plan
  import opened PlanProofs

  function ServiceName(s: Schema, op: OpRef): string {
    if s.Op(op).service.Some? then s.Svc(s.Op(op).service.value).name else ""
  }

  function EdgeId(s: Schema, e: Edge): string
    requires e.Edge? && e.from.Some? && e.to.Some?
  {
    ServiceName(s, e.from.value) + "." + s.Op(e.from.value).name + "->"
    + ServiceName(s, e.to.value) + "." + s.Op(e.to.value).name
  }

  ghost predicate Owned(s: Schema, op: Option<OpRef>) {
    op.Some? && s.Op(op.value).service.Some?
  }

  /**
   Operations that have a service and whose outgoing edges stay among themselves and have both ends,
   so that the search dereferences no nil.
   */
  ghost predicate Renderable(s: Schema, universe: set<OpRef>) {
    && (forall op | op in universe :: Owned(s, Some(op)))
    && forall op, e | op in universe && e in EdgesInCalls(s.Op(op).calls) ::
      e.Edge? && (e.to.Some? ==> Owned(s, e.from) && e.to.value in universe)
  }

  ghost function NamesOf(s: Schema, ops: set<OpRef>): set<string> {
    set op | op in ops :: ServiceName(s, op)
  }

  function IdsOfEdges(s: Schema, es: seq<Edge>): set<string> {
    if es == [] then {}
    else
      (if es[0].Edge? && es[0].from.Some? && es[0].to.Some? then {EdgeId(s, es[0])} else {}) + IdsOfEdges(s, es[1..])
  }

  function IdsAt(s: Schema, op: OpRef): set<string> {
    IdsOfEdges(s, EdgesInCalls(s.Op(op).calls))
  }

  ghost function IdsOf(s: Schema, ops: set<OpRef>): set<string> {
    set op, id | op in ops && id in IdsAt(s, op) :: id
  }

  /** The recorded sets grow from names and ids by what the operations of added contribute. */
  lemma RecordsAdd(s: Schema, a: set<OpRef>, b: set<OpRef>)
    ensures NamesOf(s, a + b) == NamesOf(s, a) + NamesOf(s, b)
    ensures IdsOf(s, a + b) == IdsOf(s, a) + IdsOf(s, b)
  {
  }

  lemma RecordsOne(s: Schema, op: OpRef)
    ensures NamesOf(s, {op}) == {ServiceName(s, op)} && IdsOf(s, {op}) == IdsAt(s, op)
    ensures NamesOf(s, {}) == {} && IdsOf(s, {}) == {}
  {
  }

  // ----- Reachability as walks

  ghost predicate TargetWalk(s: Schema, p: seq<OpRef>) {
    && |p| >= 1
    && (|p| > 1 ==> p[1] in OutgoingTargets(s, p[0]) && TargetWalk(s, p[1..]))
  }

  ghost predicate Reaches(s: Schema, a: OpRef, b: OpRef) {
    exists p :: TargetWalk(s, p) && p[0] == a && p[|p| - 1] == b
  }

  lemma ReachesSelf(s: Schema, a: OpRef)
    ensures Reaches(s, a, a)
  {
    assert TargetWalk(s, [a]);
  }

  lemma ReachesVia(s: Schema, a: OpRef, t: OpRef, b: OpRef)
    requires t in OutgoingTargets(s, a) && Reaches(s, t, b)
    ensures Reaches(s, a, b)
  {
    var p :| TargetWalk(s, p) && p[0] == t && p[|p| - 1] == b;
    var q := [a] + p;
    assert q[1..] == p;
    assert TargetWalk(s, q);
  }

  ghost predicate ClosedUnderCalls(s: Schema, ops: set<OpRef>, within: set<OpRef>) {
    forall op, t | op in ops && t in OutgoingTargets(s, op) :: t in within
  }

  lemma {:induction false} WalkStays(s: Schema, ops: set<OpRef>, p: seq<OpRef>)
    requires ClosedUnderCalls(s, ops, ops) && TargetWalk(s, p) && p[0] in ops
    ensures p[|p| - 1] in ops
    decreases |p|
  {
    if |p| > 1 {
      WalkStays(s, ops, p[1..]);
    }
  }

  lemma {:induction false} TargetsOfEdges(es: seq<Edge>, t: OpRef)
    ensures t in EdgeTargets(es) <==> exists i :: 0 <= i < |es| && es[i].Edge? && es[i].to == Some(t)
  {
    if es != [] {
      TargetsOfEdges(es[1..], t);
      if exists i :: 0 <= i < |es| && es[i].Edge? && es[i].to == Some(t) {
        var i :| 0 <= i < |es| && es[i].Edge? && es[i].to == Some(t);
        if i > 0 { assert es[1..][i - 1] == es[i]; }
      }
      if t in EdgeTargets(es[1..]) {
        var i :| 0 <= i < |es[1..]| && es[1..][i].Edge? && es[1..][i].to == Some(t);
        assert es[i + 1] == es[1..][i];
      }
    }
  }

  ghost predicate AllReached(s: Schema, starts: set<OpRef>, ops: set<OpRef>) {
    forall v {:trigger ReachedFrom(s, starts, v)} | v in ops :: ReachedFrom(s, starts, v)
  }

  ghost predicate ReachedFrom(s: Schema, starts: set<OpRef>, v: OpRef) {
    exists a :: a in starts && Reaches(s, a, v)
  }

  // ----- The search

  datatype Found = Found(ops: set<OpRef>, names: set<string>, ids: set<string>)

  /** What a search from starts adds: reachable, closed under calls, and fully recorded. */
  ghost predicate Explored(s: Schema, starts: set<OpRef>, a: Found, b: Found) {
    && a.ops <= b.ops
    && starts <= b.ops
    && ClosedUnderCalls(s, b.ops - a.ops, b.ops)
    && AllReached(s, starts, b.ops - a.ops)
    && b.names == a.names + NamesOf(s, b.ops - a.ops)
    && b.ids == a.ids + IdsOf(s, b.ops - a.ops)
  }

  class Search {
    var visitedOps: set<OpRef>
    var nodeSet: set<string>
    var edgeSet: set<string>

    constructor ()
      ensures visitedOps == {} && nodeSet == {} && edgeSet == {}
    {
      visitedOps, nodeSet, edgeSet := {}, {}, {};
    }

    ghost function State(): Found
      reads this
    {
      Found(visitedOps, nodeSet, edgeSet)
    }

    method WalkOp(s: Schema, op: OpRef, ghost universe: set<OpRef>)
      requires Renderable(s, universe) && op in universe
      modifies this
      ensures Explored(s, {op}, old(State()), State())
      ensures visitedOps <= old(visitedOps) + universe
      decreases |universe - visitedOps|, 0
    {
      if op in visitedOps {
        Nothing(s, visitedOps);
        return;
      }
      visitedOps := visitedOps + {op};
      assert s.Op(op).service.Some?;
      nodeSet := nodeSet + {ServiceName(s, op)};
      FirstVisit(s, op, old(visitedOps));
      Shrinking(universe, old(visitedOps), visitedOps, op);
      WalkEdges(s, op, old(visitedOps), universe);
      LastVisit(s, op, old(State()), State());
    }

    /** The callback passed to collectEdges. */
    method WalkEdge(s: Schema, op: OpRef, e: Edge, ghost before: set<OpRef>, ghost universe: set<OpRef>)
      requires Renderable(s, universe) && op in universe
      requires e in EdgesInCalls(s.Op(op).calls) && Grown(s, op, before, visitedOps)
      modifies this
      ensures old(visitedOps) <= visitedOps <= old(visitedOps) + universe
      ensures Grown(s, op, before, visitedOps) && TargetsSeen([e], visitedOps)
      ensures nodeSet == old(nodeSet) + NamesOf(s, visitedOps - old(visitedOps))
      ensures edgeSet == old(edgeSet) + IdsOf(s, visitedOps - old(visitedOps)) + IdsOfEdges(s, [e])
      decreases |universe - visitedOps|, 1
    {
      if e.to.None? {
        Nothing(s, visitedOps);
        return;
      }
      assert Owned(s, e.from) && Owned(s, e.to);
      edgeSet := edgeSet + {EdgeId(s, e)};
      var target := e.to.value;
      TargetsOfEdges(EdgesInCalls(s.Op(op).calls), target);
      WalkOp(s, target, universe);
      Absorb(s, op, target, before, old(visitedOps), visitedOps);
    }

    method WalkEdges(s: Schema, op: OpRef, ghost before: set<OpRef>, ghost universe: set<OpRef>)
      requires Renderable(s, universe) && op in universe && Grown(s, op, before, visitedOps)
      modifies this
      ensures old(visitedOps) <= visitedOps <= old(visitedOps) + universe
      ensures Grown(s, op, before, visitedOps) && TargetsSeen(EdgesInCalls(s.Op(op).calls), visitedOps)
      ensures nodeSet == old(nodeSet) + NamesOf(s, visitedOps - old(visitedOps))
      ensures edgeSet == old(edgeSet) + IdsOf(s, visitedOps - old(visitedOps)) + IdsAt(s, op)
      decreases |universe - visitedOps|, 2
    {
      hide Renderable, Grown, AllReached, NamesOf, IdsOf, IdsOfEdges, TargetsSeen;
      var edges := EdgesInCalls(s.Op(op).calls);
      NothingSeen(s, visitedOps);
      for i := 0 to |edges|
        invariant old(visitedOps) <= visitedOps <= old(visitedOps) + universe
        invariant Grown(s, op, before, visitedOps)
        invariant TargetsSeen(edges[..i], visitedOps)
        invariant nodeSet == old(nodeSet) + NamesOf(s, visitedOps - old(visitedOps))
        invariant edgeSet == old(edgeSet) + IdsOf(s, visitedOps - old(visitedOps)) + IdsOfEdges(s, edges[..i])
      {
        ghost var middle := visitedOps;
        SubsetSize(universe - middle, universe - old(visitedOps));
        WalkEdge(s, op, edges[i], before, universe);
        NextEdge(s, edges, i, middle, visitedOps);
        Split(s, old(visitedOps), middle, visitedOps);
      }
      assert edges[..|edges|] == edges;
    }

    method WalkSteps(s: Schema, steps: seq<Step>, ghost universe: set<OpRef>)
      requires Renderable(s, universe) && StepOps(steps) <= universe
      modifies this
      ensures Explored(s, StepOps(steps), old(State()), State())
      decreases steps
    {
      hide Renderable, AllReached, ReachedFrom, ClosedUnderCalls, NamesOf, IdsOf, Explored;
      NothingExplored(s, State());
      for i := 0 to |steps|
        invariant Explored(s, StepOps(steps[..i]), old(State()), State())
      {
        assert steps[..i + 1] == steps[..i] + [steps[i]];
        StepOpsLast(steps[..i], steps[i]);
        StepOpsMember(steps, i);
        ghost var done := StepOps(steps[..i]);
        if steps[i].Step? {
          if steps[i].op.Some? {
            ghost var middle := State();
            WalkOp(s, steps[i].op.value, universe);
            Merge(s, old(State()), middle, State(), done, {steps[i].op.value});
            done := done + {steps[i].op.value};
          }
          if |steps[i].parallel| > 0 {
            ghost var middle := State();
            WalkSteps(s, steps[i].parallel, universe);
            Merge(s, old(State()), middle, State(), done, StepOps(steps[i].parallel));
            done := done + StepOps(steps[i].parallel);
          }
        }
        assert done == StepOps(steps[..i + 1]);
      }
      assert steps[..|steps|] == steps;
    }
  }

  function StepOps(steps: seq<Step>): set<OpRef>
    decreases steps, 0
  {
    if steps == [] then {} else OwnOps(steps[0]) + StepOps(steps[1..])
  }

  function OwnOps(step: Step): set<OpRef>
    decreases step, 1
  {
    if step.NilStep? then {} else (if step.op.Some? then {step.op.value} else {}) + StepOps(step.parallel)
  }

  lemma {:induction false} StepOpsMember(steps: seq<Step>, i: nat)
    requires i < |steps|
    ensures OwnOps(steps[i]) <= StepOps(steps)
  {
    if i > 0 { StepOpsMember(steps[1..], i - 1); }
  }

  lemma {:induction false} StepOpsLast(steps: seq<Step>, step: Step)
    ensures StepOps(steps + [step]) == StepOps(steps) + OwnOps(step)
  {
    if steps == [] {
      assert steps + [step] == [step];
    } else {
      StepOpsLast(steps[1..], step);
      assert (steps + [step])[1..] == steps[1..] + [step];
    }
  }

  /** The state of a search of op between two of its edges. */
  ghost predicate Grown(s: Schema, op: OpRef, before: set<OpRef>, visited: set<OpRef>) {
    && op !in before && before + {op} <= visited
    && ClosedUnderCalls(s, visited - before - {op}, visited)
    && AllReached(s, {op}, visited - before)
  }

  ghost predicate TargetsSeen(edges: seq<Edge>, visited: set<OpRef>) {
    forall k | 0 <= k < |edges| && edges[k].Edge? && edges[k].to.Some? :: edges[k].to.value in visited
  }

  lemma Nothing(s: Schema, visited: set<OpRef>)
    ensures visited - visited == {} && NamesOf(s, {}) == {} && IdsOf(s, {}) == {}
  {
  }

  lemma NothingExplored(s: Schema, a: Found)
    ensures Explored(s, {}, a, a)
  {
    Nothing(s, a.ops);
    assert a.ops - a.ops == {};
  }

  lemma NothingSeen(s: Schema, visited: set<OpRef>)
    ensures visited - visited == {} && NamesOf(s, {}) == {} && IdsOf(s, {}) == {}
    ensures TargetsSeen([], visited) && IdsOfEdges(s, []) == {}
  {
  }

  lemma FirstVisit(s: Schema, op: OpRef, before: set<OpRef>)
    requires op !in before
    ensures Grown(s, op, before, before + {op})
  {
    ReachesSelf(s, op);
    assert ReachedFrom(s, {op}, op);
    assert (before + {op}) - before == {op};
  }

  lemma LastVisit(s: Schema, op: OpRef, a: Found, b: Found)
    requires Grown(s, op, a.ops, b.ops) && TargetsSeen(EdgesInCalls(s.Op(op).calls), b.ops)
    requires b.names == a.names + {ServiceName(s, op)} + NamesOf(s, b.ops - (a.ops + {op}))
    requires b.ids == a.ids + IdsOf(s, b.ops - (a.ops + {op})) + IdsAt(s, op)
    ensures Explored(s, {op}, a, b)
  {
    forall t | t in OutgoingTargets(s, op)
      ensures t in b.ops
    {
      TargetsOfEdges(EdgesInCalls(s.Op(op).calls), t);
    }
    assert b.ops - a.ops == {op} + (b.ops - (a.ops + {op}));
    RecordsAdd(s, {op}, b.ops - (a.ops + {op}));
    RecordsOne(s, op);
  }

  lemma NextEdge(s: Schema, edges: seq<Edge>, i: nat, middle: set<OpRef>, after: set<OpRef>)
    requires i < |edges| && middle <= after
    requires TargetsSeen(edges[..i], middle) && TargetsSeen([edges[i]], after)
    ensures TargetsSeen(edges[..i + 1], after)
    ensures IdsOfEdges(s, edges[..i + 1]) == IdsOfEdges(s, edges[..i]) + IdsOfEdges(s, [edges[i]])
  {
    assert edges[..i + 1] == edges[..i] + [edges[i]];
    IdsOfEdgesLast(s, edges[..i], edges[i]);
    assert [edges[i]][0] == edges[i];
  }

  lemma {:induction false} IdsOfEdgesLast(s: Schema, es: seq<Edge>, e: Edge)
    ensures IdsOfEdges(s, es + [e])
         == IdsOfEdges(s, es) + (if e.Edge? && e.from.Some? && e.to.Some? then {EdgeId(s, e)} else {})
  {
    if es == [] {
      assert es + [e] == [e];
    } else {
      IdsOfEdgesLast(s, es[1..], e);
      assert (es + [e])[1..] == es[1..] + [e];
    }
  }

  lemma Shrinking(universe: set<OpRef>, before: set<OpRef>, middle: set<OpRef>, op: OpRef)
    requires op in universe && op !in before && before + {op} <= middle
    ensures |universe - middle| < |universe - before|
  {
    SubsetSize(universe - middle, universe - before - {op});
    assert universe - before == (universe - before - {op}) + {op};
  }

  lemma SubsetSize(a: set<OpRef>, b: set<OpRef>)
    requires a <= b
    ensures |a| <= |b|
  {
    assert b == a + (b - a);
  }

  lemma Split(s: Schema, before: set<OpRef>, middle: set<OpRef>, after: set<OpRef>)
    requires before <= middle <= after
    ensures NamesOf(s, after - before) == NamesOf(s, middle - before) + NamesOf(s, after - middle)
    ensures IdsOf(s, after - before) == IdsOf(s, middle - before) + IdsOf(s, after - middle)
  {
    assert after - before == (middle - before) + (after - middle);
    RecordsAdd(s, middle - before, after - middle);
  }

  /** A nested search keeps what the outer one has established. */
  lemma Absorb(s: Schema, op: OpRef, target: OpRef, before: set<OpRef>, middle: set<OpRef>, after: set<OpRef>)
    requires Grown(s, op, before, middle) && middle <= after
    requires target in OutgoingTargets(s, op)
    requires ClosedUnderCalls(s, after - middle, after)
    requires AllReached(s, {target}, after - middle)
    ensures Grown(s, op, before, after)
  {
    forall v | v in after - before
      ensures ReachedFrom(s, {op}, v)
    {
      if v in after - middle {
        assert ReachedFrom(s, {target}, v);
        ReachesVia(s, op, target, v);
      } else {
        assert ReachedFrom(s, {op}, v);
      }
    }
  }

  lemma Merge(s: Schema, before: Found, middle: Found, after: Found, a: set<OpRef>, b: set<OpRef>)
    requires Explored(s, a, before, middle) && Explored(s, b, middle, after)
    ensures Explored(s, a + b, before, after)
  {
    Split(s, before.ops, middle.ops, after.ops);
    forall v | v in after.ops - before.ops
      ensures ReachedFrom(s, a + b, v)
    {
      if v in after.ops - middle.ops {
        assert ReachedFrom(s, b, v);
      } else {
        assert ReachedFrom(s, a, v);
      }
    }
  }

  /** The two sorted lists are exactly what is reachable. */
  method JourneyReachability(s: Schema, j: Journey, ghost universe: set<OpRef>)
    returns (nodes: seq<string>, edges: seq<string>, ghost visited: set<OpRef>)
    requires Renderable(s, universe) && StepOps(j.steps) <= universe
    ensures Sorted(nodes) && Sorted(edges)
    ensures forall name :: name in nodes <==> exists v :: ReachedFrom(s, StepOps(j.steps), v) && ServiceName(s, v) == name
    ensures forall id :: id in edges <==> exists v :: ReachedFrom(s, StepOps(j.steps), v) && CallsOut(s, v, id)
    ensures forall v :: v in visited <==> ReachedFrom(s, StepOps(j.steps), v)
    ensures forall name :: name in nodes <==> name in NamesOf(s, visited)
  {
    var search := new Search();
    search.WalkSteps(s, j.steps, universe);
    visited := search.visitedOps;
    forall v | ReachedFrom(s, StepOps(j.steps), v)
      ensures v in visited
    {
      var a :| a in StepOps(j.steps) && Reaches(s, a, v);
      ClosedHolds(s, visited, a, v);
    }
    forall v, id
      ensures id in IdsAt(s, v) <==> CallsOut(s, v, id)
    {
      IdsOfEdgesAre(s, EdgesInCalls(s.Op(v).calls), id);
    }
    nodes := SortKeys(search.nodeSet);
    edges := SortKeys(search.edgeSet);
  }

  /** id names caller and callee, in this order, of an edge that op's calls or their fallbacks hold. */
  ghost predicate CallsOut(s: Schema, op: OpRef, id: string) {
    exists e :: e in EdgesInCalls(s.Op(op).calls) && Names(s, e, id)
  }

  predicate Names(s: Schema, e: Edge, id: string) {
    && e.Edge? && e.from.Some? && e.to.Some?
    && var caller, callee := s.Op(e.from.value), s.Op(e.to.value);
       id == ServiceName(s, e.from.value) + "." + caller.name + "->" + ServiceName(s, e.to.value) + "." + callee.name
  }

  lemma {:induction false} IdsOfEdgesAre(s: Schema, es: seq<Edge>, id: string)
    ensures id in IdsOfEdges(s, es) <==> exists e :: e in es && Names(s, e, id)
    decreases es
  {
    if es != [] {
      IdsOfEdgesAre(s, es[1..], id);
      assert forall e :: e in es <==> e == es[0] || e in es[1..];
      hide EdgeId, Names;
      NamesWhole(s, es[0], id);
      if es[0].Edge? && es[0].from.Some? && es[0].to.Some? { IdNames(s, es[0]); }
      assert id in IdsOfEdges(s, es) <==> Names(s, es[0], id) || id in IdsOfEdges(s, es[1..]);
      assert Names(s, es[0], id) ==> es[0] in es && Names(s, es[0], id);
    }
  }

  lemma NamesWhole(s: Schema, e: Edge, id: string)
    ensures Names(s, e, id) ==> e.Edge? && e.from.Some? && e.to.Some?
  {
  }

  lemma IdNames(s: Schema, e: Edge)
    requires e.Edge? && e.from.Some? && e.to.Some?
    ensures forall id :: Names(s, e, id) <==> id == EdgeId(s, e)
  {
    var a, b, c, d := ServiceName(s, e.from.value), s.Op(e.from.value).name, ServiceName(s, e.to.value), s.Op(e.to.value).name;
    assert a + "." + b + "->" + c + "." + d == EdgeId(s, e);
  }

  lemma ClosedHolds(s: Schema, ops: set<OpRef>, a: OpRef, v: OpRef)
    requires ClosedUnderCalls(s, ops, ops) && a in ops && Reaches(s, a, v)
    ensures v in ops
  {
    var p :| TargetWalk(s, p) && p[0] == a && p[|p| - 1] == v;
    WalkStays(s, ops, p);
  }

  // ----- Against the plan builder

  function PlanServices(n: Node): set<SvcRef>
    decreases n, 1
  {
    (if n.service.Some? then {n.service.value} else {}) + AllServices(n.parallel) + AllServices(n.children)
  }

  function AllServices(ns: seq<Node>): set<SvcRef>
    decreases ns, 0
  {
    if ns == [] then {} else PlanServices(ns[0]) + AllServices(ns[1..])
  }

  ghost predicate Shown(s: Schema, services: set<SvcRef>, ops: set<OpRef>) {
    forall x | x in services :: s.Svc(x).name in NamesOf(s, ops)
  }

  lemma {:induction false} UnfoldedShown(s: Schema, n: Node, op: OpRef, edge: Edge, ops: set<OpRef>)
    requires Unfolds(s, n, op, edge) && op in ops && ClosedUnderCalls(s, ops, ops)
    ensures Shown(s, PlanServices(n), ops)
    decreases n, 0
  {
    assert ServiceName(s, op) in NamesOf(s, ops);
    forall t | t in CallTargets(s.Op(op).calls)
      ensures t in ops
    {
      CallTargetsAreTargets(s.Op(op).calls, t);
      assert t in OutgoingTargets(s, op);
    }
    CallsShown(s, n.children, s.Op(op).calls, ops);
  }

  lemma {:induction false} CallsShown(s: Schema, ns: seq<Node>, calls: seq<CallNode>, ops: set<OpRef>)
    requires UnfoldsCalls(s, ns, calls) && CallTargets(calls) <= ops && ClosedUnderCalls(s, ops, ops)
    ensures Shown(s, AllServices(ns), ops)
    decreases ns, 0
  {
    if ns != [] {
      var n, call := ns[0], calls[0];
      assert UnfoldsCall(s, n, call);
      if |call.parallel| > 0 {
        CallsShown(s, n.parallel, call.parallel, ops);
        assert PlanServices(n) == AllServices(n.parallel);
      } else {
        UnfoldedShown(s, n, call.edge.to.value, call.edge, ops);
      }
      forall i | 0 <= i < |ns[1..]|
        ensures UnfoldsCall(s, ns[1..][i], calls[1..][i])
      {
        assert UnfoldsCall(s, ns[i + 1], calls[i + 1]);
      }
      CallsShown(s, ns[1..], calls[1..], ops);
    }
  }

  lemma {:induction false} StepsShown(s: Schema, ns: seq<Node>, steps: seq<Step>, ops: set<OpRef>)
    requires UnfoldsSteps(s, ns, steps) && StepOps(steps) <= ops && ClosedUnderCalls(s, ops, ops)
    ensures Shown(s, AllServices(ns), ops)
    decreases ns, 0
  {
    if ns != [] {
      var n, step := ns[0], steps[0];
      assert UnfoldsStep(s, n, step);
      if |step.parallel| > 0 {
        StepsShown(s, n.parallel, step.parallel, ops);
        assert PlanServices(n) == AllServices(n.parallel);
      } else {
        UnfoldedShown(s, n, step.op.value, NilEdge, ops);
      }
      forall i | 0 <= i < |ns[1..]|
        ensures UnfoldsStep(s, ns[1..][i], steps[1..][i])
      {
        assert UnfoldsStep(s, ns[i + 1], steps[i + 1]);
      }
      StepsShown(s, ns[1..], steps[1..], ops);
    }
  }

  /** Every service a built plan will call is among the visualiser's nodes. */
  lemma PlanIsShown(s: Schema, name: string, root: Node, visited: set<OpRef>)
    requires BuildPlan(s, name) == Ok(root)
    requires forall v :: v in visited <==> ReachedFrom(s, StepOps(s.journeys[name].value.steps), v)
    ensures Shown(s, PlanServices(root), visited)
  {
    var steps := s.journeys[name].value.steps;
    PlanIffUnfolds(s, name, root);
    ReachedIsClosed(s, StepOps(steps), visited);
    if |steps| == 1 {
      StepsShown(s, [root], steps, visited);
      assert AllServices([root]) == PlanServices(root);
    } else {
      StepsShown(s, root.children, steps, visited);
    }
  }

  /** What is reached is the least set that holds the starts and is closed under calls. */
  lemma ReachedIsClosed(s: Schema, starts: set<OpRef>, visited: set<OpRef>)
    requires forall v :: v in visited <==> ReachedFrom(s, starts, v)
    ensures starts <= visited && ClosedUnderCalls(s, visited, visited)
    ensures forall ops: set<OpRef> | starts <= ops && ClosedUnderCalls(s, ops, ops) :: visited <= ops
  {
    forall ops: set<OpRef>, v | starts <= ops && ClosedUnderCalls(s, ops, ops) && v in visited
      ensures v in ops
    {
      assert ReachedFrom(s, starts, v);
      var a :| a in starts && Reaches(s, a, v);
      ClosedHolds(s, ops, a, v);
    }
    forall a | a in starts
      ensures a in visited
    {
      ReachesSelf(s, a);
      assert ReachedFrom(s, starts, a);
    }
    forall v, t | v in visited && t in OutgoingTargets(s, v)
      ensures t in visited
    {
      assert ReachedFrom(s, starts, v);
      var a :| a in starts && Reaches(s, a, v);
      ReachesThen(s, a, v, t);
      assert ReachedFrom(s, starts, t);
    }
  }

  lemma ReachesThen(s: Schema, a: OpRef, v: OpRef, t: OpRef)
    requires Reaches(s, a, v) && t in OutgoingTargets(s, v)
    ensures Reaches(s, a, t)
  {
    var p :| TargetWalk(s, p) && p[0] == a && p[|p| - 1] == v;
    WalkAppend(s, p, t);
    assert (p + [t])[0] == a;
  }

  lemma {:induction false} WalkAppend(s: Schema, p: seq<OpRef>, t: OpRef)
    requires TargetWalk(s, p) && t in OutgoingTargets(s, p[|p| - 1])
    ensures TargetWalk(s, p + [t])
    decreases |p|
  {
    assert TargetWalk(s, [t]);
    if |p| > 1 {
      WalkAppend(s, p[1..], t);
      assert (p + [t])[1..] == p[1..] + [t];
    } else {
      assert (p + [t])[1..] == [t];
    }
  }

  // ----- Validated schemas are in the search's domain

  lemma {:induction false} EdgesEnded(calls: seq<CallNode>, listed: set<OpRef>, e: Edge)
    requires NoOrphans(calls, listed) && e in EdgesInCalls(calls)
    ensures EndpointsListed(e, listed)
    decreases calls
  {
    var call := calls[0];
    assert NoOrphans(calls[1..], listed) by {
      forall i | 0 <= i < |calls[1..]|
        ensures calls[1..][i] == calls[i + 1]
      {
      }
    }
    if e in EdgesInNode(call) {
      if e in EdgesInCalls(call.parallel) {
        EdgesEnded(call.parallel, listed, e);
      } else if e != call.edge {
        NonNilMember(Fallbacks(call.edge), e);
      }
    } else {
      EdgesEnded(calls[1..], listed, e);
    }
  }

  lemma {:induction false} NonNilMember(es: seq<Edge>, e: Edge)
    requires e in NonNil(es)
    ensures e in es
  {
    if !(es[0].Edge? && e == es[0]) { NonNilMember(es[1..], e); }
  }

  lemma {:induction false} StepOpsListed(steps: seq<Step>, listed: set<OpRef>)
    requires StepsReachable(steps, listed)
    ensures StepOps(steps) <= listed
    decreases steps
  {
    if steps != [] {
      StepOpsListed(steps[0].parallel, listed);
      StepOpsListed(steps[1..], listed);
    }
  }

  lemma CallsRenderable(s: Schema, listed: set<OpRef>, op: OpRef)
    requires NoOrphans(s.Op(op).calls, listed)
    ensures forall e | e in EdgesInCalls(s.Op(op).calls) :: EndpointsListed(e, listed)
  {
    forall e | e in EdgesInCalls(s.Op(op).calls)
      ensures EndpointsListed(e, listed)
    {
      EdgesEnded(s.Op(op).calls, listed, e);
    }
  }

  lemma ListedHasService(s: Schema, op: OpRef)
    requires BackPointersOk(s) && op in Listed(s)
    ensures s.Op(op).service.Some?
  {
  }

  lemma ValidIsRenderable(s: Schema, name: string)
    requires Valid(s) && name in s.journeys
    ensures Renderable(s, Listed(s)) && StepOps(s.journeys[name].value.steps) <= Listed(s)
  {
    forall op | op in Listed(s)
      ensures s.Op(op).service.Some?
      ensures forall e | e in EdgesInCalls(s.Op(op).calls) :: EndpointsListed(e, Listed(s))
    {
      ListedHasService(s, op);
      OperationCovered(s, op);
      CallsRenderable(s, Listed(s), op);
    }
    ValidJourney(s, name);
    StepOpsListed(s.journeys[name].value.steps, Listed(s));
  }
}
