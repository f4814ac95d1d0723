/**
 validateDAG of topology/validate.go: Kahn's algorithm over primary calls and
 first-level fallbacks.  The loop is proved exact on every schema, including the
 ones in which one operation object sits under two keys, where it reports more
 than cycles.
 */
module DagCheck {
  import opened Wrappers
  import opened Topology
  import opened CallGraph

  // ----- In-degrees as sums over the operations still to be processed

  function Count(xs: seq<OpRef>, c: OpRef): nat {
    if xs == [] then 0 else (if xs[0] == c then 1 else 0) + Count(xs[1..], c)
  }

  function InSum(g: Graph, rest: seq<OpRef>, c: OpRef): nat
    requires forall x | x in rest :: x in g.targets
  {
    if rest == [] then 0 else Count(g.targets[rest[0]], c) + InSum(g, rest[1..], c)
  }

  ghost function Without(xs: seq<OpRef>, x: OpRef): (ys: seq<OpRef>)
    ensures forall y | y in ys :: y in xs
  {
    if xs == [] then [] else if xs[0] == x then xs[1..] else [xs[0]] + Without(xs[1..], x)
  }

  lemma CountPositive(xs: seq<OpRef>, c: OpRef)
    ensures Count(xs, c) > 0 <==> c in xs
  {
  }

  lemma {:induction false} CountLast(xs: seq<OpRef>, x: OpRef, c: OpRef)
    ensures Count(xs + [x], c) == Count(xs, c) + (if x == c then 1 else 0)
  {
    if xs == [] {
      assert xs + [x] == [x];
    } else {
      CountLast(xs[1..], x, c);
      assert (xs + [x])[1..] == xs[1..] + [x];
    }
  }

  lemma {:induction false} InSumLast(g: Graph, xs: seq<OpRef>, x: OpRef, c: OpRef)
    requires x in g.targets && forall y | y in xs :: y in g.targets
    ensures InSum(g, xs + [x], c) == InSum(g, xs, c) + Count(g.targets[x], c)
  {
    if xs == [] {
      assert xs + [x] == [x];
    } else {
      InSumLast(g, xs[1..], x, c);
      assert (xs + [x])[1..] == xs[1..] + [x];
    }
  }

  lemma {:induction false} InSumPositive(g: Graph, rest: seq<OpRef>, c: OpRef)
    requires forall x | x in rest :: x in g.targets
    ensures InSum(g, rest, c) > 0 <==> exists y :: y in rest && c in g.targets[y]
  {
    if rest != [] {
      CountPositive(g.targets[rest[0]], c);
      InSumPositive(g, rest[1..], c);
      assert forall y :: y in rest <==> y == rest[0] || y in rest[1..];
    }
  }

  lemma {:induction false} InSumWithout(g: Graph, rest: seq<OpRef>, x: OpRef, c: OpRef)
    requires x in rest && forall y | y in rest :: y in g.targets
    ensures InSum(g, Without(rest, x), c) == InSum(g, rest, c) - Count(g.targets[x], c)
  {
    if rest[0] != x {
      InSumWithout(g, rest[1..], x, c);
      assert Without(rest, x)[1..] == Without(rest[1..], x);
    }
  }

  lemma {:induction false} WithoutMultiset(rest: seq<OpRef>, x: OpRef)
    requires x in rest
    ensures multiset(Without(rest, x)) == multiset(rest) - multiset{x}
  {
    assert rest == [rest[0]] + rest[1..];
    if rest[0] != x {
      WithoutMultiset(rest[1..], x);
    }
  }

  // ----- What counts as an edge

  /** n is a call of the list or, at any depth, of one of its parallel groups. */
  ghost predicate Among(calls: seq<CallNode>, n: CallNode)
    decreases calls
  {
    exists i | 0 <= i < |calls| && calls[i].CallNode? :: calls[i] == n || Among(calls[i].parallel, n)
  }

  /** e is the primary edge of a call, or one of that edge's own fallbacks. */
  predicate EdgeOrFallback(e: Edge, n: CallNode) {
    n.CallNode? && n.edge.Edge? && e.Edge? && (e == n.edge || (n.edge.onFailure.Some? && e in n.edge.onFailure.value.fallback))
  }

  lemma {:induction false} NonNilOnes(es: seq<Edge>, e: Edge)
    ensures e in NonNil(es) <==> e.Edge? && e in es
    decreases es
  {
    if es != [] {
      NonNilOnes(es[1..], e);
      assert e in es <==> e == es[0] || e in es[1..];
    }
  }

  lemma EdgesOfNode(n: CallNode, e: Edge)
    ensures e in EdgesInNode(n) <==> n.CallNode? && (EdgeOrFallback(e, n) || e in EdgesInCalls(n.parallel))
    ensures e in EdgesInNode(n) ==> e.Edge? || e in EdgesInCalls(n.parallel)
  {
    if n.CallNode? { NonNilOnes(Fallbacks(n.edge), e); }
  }

  lemma {:induction false} EdgesAreCallsAndFallbacks(calls: seq<CallNode>, e: Edge)
    ensures e in EdgesInCalls(calls) <==> exists n :: Among(calls, n) && EdgeOrFallback(e, n)
    decreases calls
  {
    if calls != [] {
      var head, rest := calls[0], calls[1..];
      EdgesOfNode(head, e);
      if head.CallNode? { EdgesAreCallsAndFallbacks(head.parallel, e); }
      EdgesAreCallsAndFallbacks(rest, e);
      forall n
        ensures Among(calls, n) <==> (head.CallNode? && (head == n || Among(head.parallel, n))) || Among(rest, n)
      {
        AmongFirst(calls, n);
      }
    }
  }

  lemma AmongFirst(calls: seq<CallNode>, n: CallNode)
    requires calls != []
    ensures Among(calls, n)
       <==> (calls[0].CallNode? && (calls[0] == n || Among(calls[0].parallel, n))) || Among(calls[1..], n)
  {
    var rest := calls[1..];
    assert forall i | 0 <= i < |rest| :: rest[i] == calls[i + 1];
    if Among(calls, n) {
      var i :| 0 <= i < |calls| && calls[i].CallNode? && (calls[i] == n || Among(calls[i].parallel, n));
      if i > 0 { assert rest[i - 1] == calls[i]; }
    }
    if Among(rest, n) {
      var i :| 0 <= i < |rest| && rest[i].CallNode? && (rest[i] == n || Among(rest[i].parallel, n));
      assert calls[i + 1] == rest[i];
    }
  }

  /** An operation's targets are where its calls and their own fallbacks lead, through any parallel nesting. */
  lemma TargetsAreCalled(s: Schema, op: OpRef, t: OpRef)
    ensures t in OutgoingTargets(s, op)
       <==> exists n, e :: Among(s.Op(op).calls, n) && EdgeOrFallback(e, n) && e.Edge? && e.to == Some(t)
  {
    hide Among, EdgeOrFallback;
    var es := EdgesInCalls(s.Op(op).calls);
    TargetsOf(es, t);
    if t in OutgoingTargets(s, op) {
      var e :| e in es && e.Edge? && e.to == Some(t);
      EdgesAreCallsAndFallbacks(s.Op(op).calls, e);
    }
    forall n, e | Among(s.Op(op).calls, n) && EdgeOrFallback(e, n) && e.Edge? && e.to == Some(t)
      ensures t in OutgoingTargets(s, op)
    {
      EdgesAreCallsAndFallbacks(s.Op(op).calls, e);
    }
  }

  lemma {:induction false} TargetsOf(es: seq<Edge>, t: OpRef)
    ensures t in EdgeTargets(es) <==> exists e :: e in es && e.Edge? && e.to == Some(t)
    decreases es
  {
    if es != [] {
      TargetsOf(es[1..], t);
      assert forall e :: e in es <==> e == es[0] || e in es[1..];
    }
  }

  // ----- Enumerating the schema

  /** ops lists one entry per position of the services map. */
  ghost predicate Enumerates(s: Schema, slots: seq<Slot>, ops: seq<OpRef>) {
    && |ops| == |slots|
    && NoDup(slots)
    && (forall slot :: slot in slots <==> IsSlot(s, slot))
    && (forall i | 0 <= i < |slots| :: IsSlot(s, slots[i]) && ops[i] == SlotOp(s, slots[i]))
  }

  method AllSchemaOperations(s: Schema) returns (ops: seq<OpRef>, ghost slots: seq<Slot>)
    ensures Enumerates(s, slots, ops)
  {
    ops, slots := [], [];
    var ids := s.services.Keys;
    while ids != {}
      invariant ids <= s.services.Keys
      invariant |ops| == |slots| && NoDup(slots)
      invariant forall slot :: slot in slots <==> IsSlot(s, slot) && slot.id !in ids
      invariant forall i | 0 <= i < |slots| :: IsSlot(s, slots[i]) && ops[i] == SlotOp(s, slots[i])
    {
      var id :| id in ids;
      if s.services[id].Some? {
        var table := s.Svc(s.services[id].value).operations;
        var names := table.Keys;
        while names != {}
          invariant names <= table.Keys
          invariant |ops| == |slots| && NoDup(slots)
          invariant forall slot :: slot in slots <==>
                      IsSlot(s, slot) && (slot.id !in ids || (slot.id == id && slot.name !in names))
          invariant forall i | 0 <= i < |slots| :: IsSlot(s, slots[i]) && ops[i] == SlotOp(s, slots[i])
        {
          var name :| name in names;
          if table[name].Some? {
            ops, slots := ops + [table[name].value], slots + [Slot(id, name)];
          }
          names := names - {name};
        }
      }
      ids := ids - {id};
    }
  }

  /** The graph the check is about: listed operations and the edges between them. */
  ghost predicate IsGraphOf(g: Graph, s: Schema) {
    && WellFormed(g)
    && (forall op :: op in g.nodes <==> InSchema(s, op))
    && (forall op :: op in g.doubled <==> Aliased(s, op))
    && (forall op | op in g.nodes :: g.targets[op] == OutgoingTargets(s, op))
  }

  /** What the drain needs to know of the listing. */
  ghost predicate Lists(g: Graph, ops: seq<OpRef>) {
    && WellFormed(g)
    && (forall x :: x in ops <==> x in g.nodes)
    && (forall x :: x in g.doubled <==> multiset(ops)[x] > 1)
  }

  lemma TwiceListed(ops: seq<OpRef>, x: OpRef)
    ensures multiset(ops)[x] > 1 <==> exists i, j :: 0 <= i < j < |ops| && ops[i] == x && ops[j] == x
  {
    if multiset(ops)[x] > 1 { TwoPositions(ops, x); }
    forall i, j | 0 <= i < j < |ops| && ops[i] == x && ops[j] == x
      ensures multiset(ops)[x] > 1
    {
      assert ops == ops[..i] + [x] + ops[i + 1..j] + [x] + ops[j + 1..];
    }
  }

  lemma TwoPositions(ops: seq<OpRef>, x: OpRef)
    requires multiset(ops)[x] > 1
    ensures exists i, j :: 0 <= i < j < |ops| && ops[i] == x && ops[j] == x
  {
    var i :| 0 <= i < |ops| && ops[i] == x;
    assert ops == ops[..i] + [x] + ops[i + 1..];
    if x in ops[..i] {
      var j :| 0 <= j < |ops[..i]| && ops[..i][j] == x;
    } else {
      assert x in ops[i + 1..];
      var j :| 0 <= j < |ops[i + 1..]| && ops[i + 1..][j] == x;
      assert ops[i + 1 + j] == x;
    }
  }

  lemma ListedIsInSchema(s: Schema, slots: seq<Slot>, ops: seq<OpRef>, x: OpRef)
    requires Enumerates(s, slots, ops)
    ensures x in ops <==> InSchema(s, x)
  {
    if x in ops {
      var i :| 0 <= i < |ops| && ops[i] == x;
      assert IsSlot(s, slots[i]);
    }
    if InSchema(s, x) {
      var slot :| IsSlot(s, slot) && SlotOp(s, slot) == x;
      assert slot in slots;
    }
  }

  lemma AliasedIsTwiceListed(s: Schema, slots: seq<Slot>, ops: seq<OpRef>, x: OpRef)
    requires Enumerates(s, slots, ops)
    ensures Aliased(s, x) ==> multiset(ops)[x] > 1
  {
    if Aliased(s, x) {
      var a, b :| a != b && IsSlot(s, a) && IsSlot(s, b) && SlotOp(s, a) == x && SlotOp(s, b) == x;
      assert a in slots && b in slots;
      TwiceListed(ops, x);
    }
  }

  lemma TwiceListedIsAliased(s: Schema, slots: seq<Slot>, ops: seq<OpRef>, x: OpRef)
    requires Enumerates(s, slots, ops)
    ensures multiset(ops)[x] > 1 ==> Aliased(s, x)
  {
    TwiceListed(ops, x);
    forall i, j | 0 <= i < j < |ops| && ops[i] == x && ops[j] == x
      ensures Aliased(s, x)
    {
      assert slots[i] != slots[j];
    }
  }

  function GraphOver(s: Schema, ops: seq<OpRef>): (g: Graph)
    ensures Lists(g, ops)
  {
    Graph(set x | x in ops,
          set x | x in ops && multiset(ops)[x] > 1,
          map x | x in ops :: OutgoingTargets(s, x))
  }

  lemma GraphOverIsGraph(s: Schema, slots: seq<Slot>, ops: seq<OpRef>)
    requires Enumerates(s, slots, ops)
    ensures IsGraphOf(GraphOver(s, ops), s)
  {
    forall x
      ensures x in ops <==> InSchema(s, x)
      ensures multiset(ops)[x] > 1 <==> Aliased(s, x)
    {
      ListedIsInSchema(s, slots, ops, x);
      AliasedIsTwiceListed(s, slots, ops, x);
      TwiceListedIsAliased(s, slots, ops, x);
    }
  }

  // ----- The algorithm

  /** inDegree counts the edges still to be removed; todo is the part of the target list not yet walked. */
  ghost predicate Degrees(g: Graph, deg: map<OpRef, int>, rest: seq<OpRef>, todo: seq<OpRef>)
    requires forall x | x in rest :: x in g.targets
  {
    forall c | c in deg :: deg[c] == InSum(g, rest, c) + Count(todo, c)
  }

  /** Zero degree means queued or already drained, and the queue has no repetition. */
  ghost predicate QueueExact(deg: map<OpRef, int>, line: seq<OpRef>) {
    && NoDup(line)
    && (forall x | x in line :: x in deg)
    && (forall c | c in deg :: deg[c] == 0 <==> c in line)
  }

  /** Drained operations have been taken once out of the listing. */
  ghost predicate Remaining(ops: seq<OpRef>, rest: seq<OpRef>, order: seq<OpRef>) {
    forall x :: multiset(rest)[x] as int == multiset(ops)[x] as int - (if x in order then 1 else 0)
  }

  method InitialDegrees(g: Graph, ops: seq<OpRef>) returns (deg: map<OpRef, int>)
    requires Lists(g, ops)
    ensures deg.Keys == g.nodes
    ensures Degrees(g, deg, ops, [])
  {
    deg := map x | x in ops :: 0;
    var i := 0;
    while i < |ops|
      invariant 0 <= i <= |ops|
      invariant deg.Keys == g.nodes
      invariant Degrees(g, deg, ops[..i], [])
    {
      var targets := g.targets[ops[i]];
      var j := 0;
      while j < |targets|
        invariant 0 <= j <= |targets|
        invariant deg.Keys == g.nodes
        invariant Degrees(g, deg, ops[..i], targets[..j])
      {
        if targets[j] in deg {
          deg := deg[targets[j] := deg[targets[j]] + 1];
        }
        forall c { CountLast(targets[..j], targets[j], c); }
        assert targets[..j + 1] == targets[..j] + [targets[j]];
        j := j + 1;
      }
      assert targets[..j] == targets;
      forall c { InSumLast(g, ops[..i], ops[i], c); }
      assert ops[..i + 1] == ops[..i] + [ops[i]];
      i := i + 1;
    }
    assert ops[..i] == ops;
  }

  /** The second map loop: everything of degree zero is queued, in any order. */
  method InitialQueue(deg: map<OpRef, int>) returns (queue: seq<OpRef>)
    ensures QueueExact(deg, queue)
  {
    queue := [];
    var pending := deg.Keys;
    while pending != {}
      invariant pending <= deg.Keys
      invariant NoDup(queue)
      invariant forall x :: x in queue <==> x in deg && x !in pending && deg[x] == 0
    {
      var op :| op in pending;
      if deg[op] == 0 { queue := queue + [op]; }
      pending := pending - {op};
    }
  }

  /** The inner loop: one drained operation gives back its out-edges. */
  method Release(g: Graph, op: OpRef, deg0: map<OpRef, int>, queue0: seq<OpRef>,
                 ghost order: seq<OpRef>, ghost rest: seq<OpRef>)
    returns (deg: map<OpRef, int>, queue: seq<OpRef>)
    requires WellFormed(g) && op in g.nodes && deg0.Keys == g.nodes
    requires forall x | x in rest :: x in g.targets
    requires Degrees(g, deg0, rest, g.targets[op])
    requires QueueExact(deg0, order + queue0)
    ensures deg.Keys == g.nodes
    ensures Degrees(g, deg, rest, [])
    ensures QueueExact(deg, order + queue)
    ensures queue0 <= queue
  {
    deg, queue := deg0, queue0;
    var targets := g.targets[op];
    var j := 0;
    while j < |targets|
      invariant 0 <= j <= |targets|
      invariant deg.Keys == g.nodes
      invariant Degrees(g, deg, rest, targets[j..])
      invariant QueueExact(deg, order + queue)
      invariant queue0 <= queue
    {
      var child := targets[j];
      assert targets[j..][1..] == targets[j + 1..];
      if child in deg {
        assert deg[child] >= 1;
        deg := deg[child := deg[child] - 1];
        if deg[child] == 0 {
          assert order + (queue + [child]) == (order + queue) + [child];
          queue := queue + [child];
        }
      }
      j := j + 1;
    }
    assert targets[j..] == [];
  }

  ghost predicate DrainInvariant(g: Graph, ops: seq<OpRef>, deg: map<OpRef, int>,
                                 queue: seq<OpRef>, rest: seq<OpRef>, order: seq<OpRef>) {
    && deg.Keys == g.nodes
    && (forall x | x in rest :: x in g.targets)
    && Degrees(g, deg, rest, [])
    && QueueExact(deg, order + queue)
    && Remaining(ops, rest, order)
    && Topological(g, order)
  }

  /** Kahn's loop; left is what keeps a positive degree. */
  method Drain(g: Graph, ops: seq<OpRef>) returns (visited: nat, left: set<OpRef>, ghost order: seq<OpRef>)
    requires Lists(g, ops)
    ensures NoDup(order) && Topological(g, order) && visited == |order|
    ensures forall c | c in g.nodes :: c in left <==> Stuck(g, c)
    ensures left <= g.nodes
    ensures forall c :: c in order <==> c in g.nodes && c !in left
  {
    var deg := InitialDegrees(g, ops);
    var queue := InitialQueue(deg);
    order := [];
    ghost var rest := ops;
    visited := 0;
    assert order + queue == queue;
    while queue != []
      invariant DrainInvariant(g, ops, deg, queue, rest, order)
      invariant visited == |order| <= |g.nodes|
      decreases |g.nodes| - |order|
    {
      HeadIsReady(g, ops, deg, queue, rest, order);
      var op := queue[0];
      order, rest := order + [op], Without(rest, op);
      visited := visited + 1;
      deg, queue := Release(g, op, deg, queue[1..], order, rest);
    }
    assert order + queue == order;
    FinishedExact(g, ops, deg, rest, order);
    left := set c | c in deg && deg[c] > 0;
  }

  lemma HeadIsReady(g: Graph, ops: seq<OpRef>, deg: map<OpRef, int>,
                    queue: seq<OpRef>, rest: seq<OpRef>, order: seq<OpRef>)
    requires Lists(g, ops) && queue != []
    requires DrainInvariant(g, ops, deg, queue, rest, order)
    ensures
      var op, longer, rest' := queue[0], order + [queue[0]], Without(rest, queue[0]);
      && op in g.nodes
      && |longer| <= |g.nodes|
      && (forall x | x in rest' :: x in g.targets)
      && Degrees(g, deg, rest', g.targets[op])
      && QueueExact(deg, longer + queue[1..])
      && Topological(g, longer)
      && Remaining(ops, rest', longer)
  {
    var op, longer := queue[0], order + [queue[0]];
    assert order + queue == longer + queue[1..];
    assert NoDup(longer) && (forall x | x in longer :: x in g.nodes) by {
      forall i | 0 <= i < |longer|
        ensures longer[i] == (order + queue)[i] && longer[i] in g.nodes
      {
        assert (order + queue)[i] in order + queue;
      }
    }
    DistinctBound(longer, g.nodes);
    HeadIsTopological(g, ops, deg, queue, rest, order);
    WithoutMultiset(rest, op);
    forall c { InSumWithout(g, rest, op, c); }
  }

  lemma HeadIsTopological(g: Graph, ops: seq<OpRef>, deg: map<OpRef, int>,
                          queue: seq<OpRef>, rest: seq<OpRef>, order: seq<OpRef>)
    requires Lists(g, ops) && queue != []
    requires DrainInvariant(g, ops, deg, queue, rest, order)
    ensures queue[0] in rest && queue[0] !in order
    ensures Topological(g, order + [queue[0]])
  {
    var op, longer := queue[0], order + [queue[0]];
    assert (order + queue)[|order|] == op;
    forall i | 0 <= i < |order|
      ensures order[i] != op
    {
      assert (order + queue)[i] == order[i];
    }
    assert op in order + queue && op in ops;
    assert multiset(rest)[op] > 0;
    InSumPositive(g, rest, op);
    forall y | Linked(g, y, op)
      ensures y in order && y !in g.doubled
    {
      assert y !in rest && y in ops;
      assert multiset(rest)[y] == 0;
    }
    forall i | 0 <= i < |longer|
      ensures CallersBefore(g, longer, i)
    {
      assert longer[..i] == order[..i];
      assert i < |order| ==> CallersBefore(g, order, i);
    }
  }

  lemma FinishedExact(g: Graph, ops: seq<OpRef>, deg: map<OpRef, int>, rest: seq<OpRef>, order: seq<OpRef>)
    requires Lists(g, ops) && deg.Keys == g.nodes
    requires forall x | x in rest :: x in g.targets
    requires Degrees(g, deg, rest, []) && QueueExact(deg, order)
    requires Remaining(ops, rest, order) && Topological(g, order)
    ensures forall c | c in deg :: deg[c] >= 0 && (deg[c] > 0 <==> Stuck(g, c))
  {
    var left := set c | c in deg && c !in order;
    forall c | c in left
      ensures HasHeldCaller(g, left, c)
    {
      InSumPositive(g, rest, c);
      var y :| y in rest && c in g.targets[y];
      assert y in multiset(rest) && Linked(g, y, c);
    }
    forall c | c in left { LeftoverStuck(g, left, c); }
    forall c | c in order { OrderedNotStuck(g, order, c); }
  }

  /** validateDAG.  unvisited is the set the R-STR-4 message names; order is the sequence of dequeues. */
  method ValidateDAG(s: Schema) returns (ok: bool, unvisited: set<OpRef>, ghost g: Graph, ghost order: seq<OpRef>)
    ensures IsGraphOf(g, s)
    ensures forall c | InSchema(s, c) :: c in unvisited <==> Stuck(g, c)
    ensures forall c | c in unvisited :: InSchema(s, c)
    ensures ok <==> unvisited == {}
    ensures ok <==> Acyclic(g) && forall a, b :: Linked(g, a, b) ==> a !in g.doubled
    ensures NoDup(order) && Topological(g, order)
    ensures forall c :: c in order <==> InSchema(s, c) && c !in unvisited
  {
    var ops, slots := AllSchemaOperations(s);
    var graph := GraphOver(s, ops);
    g := graph;
    GraphOverIsGraph(s, slots, ops);
    var visited;
    visited, unvisited, order := Drain(graph, ops);
    ok := visited == |graph.nodes|;
    DistinctBound(order, g.nodes);
    StuckFree(g);
    OnlyListedStuck(g);
    assert unvisited == {} <==> forall c :: !Stuck(g, c);
  }

  lemma OnlyListedStuck(g: Graph)
    ensures forall c :: Stuck(g, c) ==> c in g.nodes
  {
    forall c, p, a | Path(g, p, a, c)
      ensures c in g.nodes
    {
      assert StepAt(g, p, |p| - 2);
    }
  }

  // ----- A doubly listed operation

  const CALLER := OpRef("a", "x")
  const CALLEE := OpRef("a", "y")
  const CALL := Edge(EdgeRef(CALLER, [0]), Some(CALLER), Some(CALLEE), HTTP, LatencyDist("constant", 0, 0), 0.0, 0, 0,
                     Exponential, DEFAULT_RETRY_BASE_DELAY, None)
  const BARE := Telemetry([], [], [], None)

  /** Two operations, x calling y, with x listed under a second key. */
  const LISTED_TWICE: Schema :=
    Schema("ns", map["a" := Some(SvcRef("a"))], map[], [],
           map[SvcRef("a") := Service("a", "ns", Cache, 1, "", "", "",
                                      map["x" := Some(CALLER), "again" := Some(CALLER), "y" := Some(CALLEE)], [])],
           map[CALLER := Operation("x", Some(SvcRef("a")), [CallNode(CALL, [])], BARE),
               CALLEE := Operation("y", Some(SvcRef("a")), [], BARE)])

  lemma ListedTwiceTargets()
    ensures OutgoingTargets(LISTED_TWICE, CALLER) == [CALLEE] && OutgoingTargets(LISTED_TWICE, CALLEE) == []
  {
    var calls := [CallNode(CALL, [])];
    assert LISTED_TWICE.Op(CALLER).calls == calls && calls[1..] == [] && EdgesInCalls([]) == [];
    assert EdgesInNode(calls[0]) == [CALL];
    assert EdgesInCalls(calls) == [CALL];
    assert [CALL][1..] == [] && EdgeTargets([]) == [];
  }

  lemma ListedTwiceSlots()
    ensures forall op :: InSchema(LISTED_TWICE, op) <==> op == CALLER || op == CALLEE
    ensures Aliased(LISTED_TWICE, CALLER)
  {
    var s := LISTED_TWICE;
    assert IsSlot(s, Slot("a", "x")) && IsSlot(s, Slot("a", "again")) && IsSlot(s, Slot("a", "y"));
    assert SlotOp(s, Slot("a", "x")) == CALLER == SlotOp(s, Slot("a", "again")) && SlotOp(s, Slot("a", "y")) == CALLEE;
  }

  /** Nothing calls in a circle, yet the callee counts as stuck behind its doubly listed caller, and is reported. */
  lemma ListedTwiceIsStuck(g: Graph)
    requires IsGraphOf(g, LISTED_TWICE)
    ensures Acyclic(g) && forall c :: Stuck(g, c) <==> c == CALLEE
  {
    hide OutgoingTargets;
    ListedTwiceTargets();
    ListedTwiceSlots();
    assert g.nodes == {CALLER, CALLEE} by {
      assert forall op :: op in g.nodes <==> InSchema(LISTED_TWICE, op);
    }
    assert forall u, v :: Linked(g, u, v) <==> u == CALLER && v == CALLEE;
    forall p, a, c | Path(g, p, a, c)
      ensures a == CALLER && c == CALLEE
    {
      EndsOfWalk(g, p);
    }
    assert StepAt(g, [CALLER, CALLEE], 0);
    assert Path(g, [CALLER, CALLEE], CALLER, CALLEE);
    assert CALLER in g.doubled;
  }

  lemma EndsOfWalk(g: Graph, p: seq<OpRef>)
    requires Walk(g, p) && |p| >= 2
    ensures Linked(g, p[0], p[1]) && Linked(g, p[|p| - 2], p[|p| - 1])
  {
    assert StepAt(g, p, 0);
    assert StepAt(g, p, |p| - 2);
  }
}
