/** Finite directed multigraphs of operations: walks, cycles, and what lies downstream of them. */
module CallGraph {
  import opened Topology

  /** targets lists the out-edges of a node with multiplicity; doubled nodes are listed under two keys. */
  datatype Graph = Graph(nodes: set<OpRef>, doubled: set<OpRef>, targets: map<OpRef, seq<OpRef>>)

  ghost predicate WellFormed(g: Graph) {
    g.targets.Keys == g.nodes && g.doubled <= g.nodes
  }

  ghost predicate Linked(g: Graph, u: OpRef, v: OpRef) {
    u in g.nodes && v in g.nodes && u in g.targets && v in g.targets[u]
  }

  ghost predicate Walk(g: Graph, p: seq<OpRef>) {
    && |p| >= 1
    && p[0] in g.nodes
    && forall i | 0 <= i < |p| - 1 :: StepAt(g, p, i)
  }

  ghost predicate StepAt(g: Graph, p: seq<OpRef>, i: nat)
    requires i < |p| - 1
  {
    Linked(g, p[i], p[i + 1])
  }

  lemma WalkSlice(g: Graph, p: seq<OpRef>, lo: nat, hi: nat)
    requires Walk(g, p) && lo < hi <= |p|
    ensures Walk(g, p[lo..hi])
  {
    forall i | 0 <= i < hi - lo - 1
      ensures StepAt(g, p[lo..hi], i)
    {
      assert StepAt(g, p, lo + i);
    }
    if lo > 0 { assert StepAt(g, p, lo - 1); }
  }

  lemma WalkPrepend(g: Graph, y: OpRef, p: seq<OpRef>)
    requires Walk(g, p) && Linked(g, y, p[0])
    ensures Walk(g, [y] + p)
  {
    forall i | 0 <= i < |p|
      ensures StepAt(g, [y] + p, i)
    {
      if i > 0 { assert StepAt(g, p, i - 1); }
    }
  }

  /** p is a walk of at least one edge from a to b. */
  ghost predicate Path(g: Graph, p: seq<OpRef>, a: OpRef, b: OpRef) {
    Walk(g, p) && |p| >= 2 && p[0] == a && p[|p| - 1] == b
  }

  ghost predicate OnCycle(g: Graph, x: OpRef) {
    exists p :: Path(g, p, x, x)
  }

  ghost predicate Acyclic(g: Graph) {
    forall x :: !OnCycle(g, x)
  }

  /** Downstream of a cycle, or of an operation listed under two keys. */
  ghost predicate Stuck(g: Graph, c: OpRef) {
    exists p, a :: Path(g, p, a, c) && (OnCycle(g, a) || a in g.doubled)
  }

  ghost predicate NoDup<T>(xs: seq<T>) {
    forall i, j | 0 <= i < j < |xs| :: xs[i] != xs[j]
  }

  lemma {:induction false} DistinctBound(p: seq<OpRef>, bound: set<OpRef>)
    requires NoDup(p) && forall x | x in p :: x in bound
    ensures |p| <= |bound|
    ensures |p| == |bound| <==> forall k | k in bound :: k in p
  {
    if p == [] {
      if bound != {} { var k :| k in bound; }
    } else {
      DistinctBound(p[1..], bound - {p[0]});
      assert forall k :: k in p <==> k == p[0] || k in p[1..];
    }
  }

  // ----- Topological orders

  /** Every node comes after all of its callers, and none of those is listed twice. */
  ghost predicate Topological(g: Graph, order: seq<OpRef>) {
    forall i | 0 <= i < |order| :: CallersBefore(g, order, i)
  }

  ghost predicate CallersBefore(g: Graph, order: seq<OpRef>, i: nat)
    requires i < |order|
  {
    forall y | Linked(g, y, order[i]) :: y in order[..i] && y !in g.doubled
  }

  /** A walk into a topological order stays in it and moves strictly forward. */
  lemma {:induction false} WalkBackwards(g: Graph, order: seq<OpRef>, p: seq<OpRef>, i: nat)
    requires Topological(g, order)
    requires i < |order| && Walk(g, p) && |p| >= 2 && p[|p| - 1] == order[i]
    ensures p[0] in order[..i] && p[0] !in g.doubled
    decreases |p|
  {
    var q := p[..|p| - 1];
    var y := q[|q| - 1];
    assert StepAt(g, p, |p| - 2);
    assert CallersBefore(g, order, i) && Linked(g, y, order[i]);
    if |q| >= 2 {
      var k :| 0 <= k < |order[..i]| && order[..i][k] == y;
      WalkSlice(g, p, 0, |p| - 1);
      WalkBackwards(g, order, q, k);
      assert order[..k] == order[..i][..k];
    }
  }

  lemma OrderedNotStuck(g: Graph, order: seq<OpRef>, c: OpRef)
    requires Topological(g, order) && NoDup(order) && c in order
    ensures !Stuck(g, c)
  {
    var i :| 0 <= i < |order| && order[i] == c;
    forall p, a | Path(g, p, a, c)
      ensures !OnCycle(g, a) && a !in g.doubled
    {
      WalkBackwards(g, order, p, i);
      var k :| 0 <= k < |order| && order[k] == a;
      forall q
        ensures !Path(g, q, a, a)
      {
        if Path(g, q, a, a) {
          WalkBackwards(g, order, q, k);
          assert false;
        }
      }
    }
  }

  /** What stops Kahn's loop: each left-over has a caller that is left over or listed twice. */
  ghost predicate Blocked(g: Graph, left: set<OpRef>) {
    forall c {:trigger HasHeldCaller(g, left, c)} | c in left :: HasHeldCaller(g, left, c)
  }

  ghost predicate HasHeldCaller(g: Graph, left: set<OpRef>, c: OpRef) {
    exists y :: Linked(g, y, c) && (y in left || y in g.doubled)
  }

  /** Going back n callers from c either meets a doubled node or stays among the left-overs. */
  lemma BackwardWalk(g: Graph, left: set<OpRef>, c: OpRef, n: nat) returns (p: seq<OpRef>)
    requires Blocked(g, left) && c in left && c in g.nodes
    ensures Walk(g, p) && p[|p| - 1] == c
    ensures (|p| >= 2 && p[0] in g.doubled) || (|p| == n + 1 && forall x | x in p :: x in left)
  {
    p := [c];
    var k := 0;
    while k < n
      invariant k <= n && Walk(g, p) && p[|p| - 1] == c
      invariant |p| == k + 1 && forall x | x in p :: x in left
    {
      assert HasHeldCaller(g, left, p[0]);
      var y :| Linked(g, y, p[0]) && (y in left || y in g.doubled);
      WalkPrepend(g, y, p);
      p, k := [y] + p, k + 1;
      if y in g.doubled {
        return;
      }
    }
  }

  lemma LeftoverStuck(g: Graph, left: set<OpRef>, c: OpRef)
    requires Blocked(g, left) && c in left && c in g.nodes
    ensures Stuck(g, c)
  {
    var p := BackwardWalk(g, left, c, |left|);
    if |p| >= 2 && p[0] in g.doubled {
      assert Path(g, p, p[0], c);
    } else {
      if NoDup(p) { DistinctBound(p, left); }
      var i, j :| 0 <= i < j < |p| && p[i] == p[j];
      WalkSlice(g, p, i, j + 1);
      WalkSlice(g, p, i, |p|);
      assert p[i..|p|] == p[i..];
      assert Path(g, p[i..j + 1], p[i], p[i]);
      assert Path(g, p[i..], p[i], c);
    }
  }

  /** Nothing is stuck exactly when the graph is acyclic and doubled nodes have no listed target. */
  lemma StuckFree(g: Graph)
    ensures (forall c :: !Stuck(g, c)) <==> Acyclic(g) && forall a, b :: Linked(g, a, b) ==> a !in g.doubled
  {
    if forall c :: !Stuck(g, c) {
      forall x, p | Path(g, p, x, x)
        ensures false
      {
        assert Stuck(g, x);
      }
      forall a, b | Linked(g, a, b)
        ensures a !in g.doubled
      {
        assert StepAt(g, [a, b], 0);
        assert Path(g, [a, b], a, b);
        if a in g.doubled { assert Stuck(g, b); }
      }
    } else {
      var c :| Stuck(g, c);
      var p, a :| Path(g, p, a, c) && (OnCycle(g, a) || a in g.doubled);
      assert StepAt(g, p, 0);
      assert Linked(g, p[0], p[1]);
    }
  }
}
