/**
 What the plan builder computes: exactly the finite unfolding of the call graph,
 failing on sound input exactly when a call path repeats an operation, and never
 failing on a schema that Validate accepts.
 */
module PlanProofs {
  import opened Wrappers
  import opened Topology
  import opened CallGraph
  import opened DagCheck
  import opened Validate
  import opened Plan

  // ----- The unfolding, position by position

  ghost predicate Unfolds(s: Schema, n: Node, op: OpRef, edge: Edge)
    decreases n, 0
  {
    && s.Op(op).service.Some?
    && n.service == s.Op(op).service && n.operation == s.Op(op).name && n.edge == edge && n.telemetry == s.Op(op).telemetry
    && n.parallel == []
    && UnfoldsCalls(s, n.children, s.Op(op).calls)
  }

  /** A node that only groups others. */
  ghost predicate Virtual(n: Node) {
    n.service.None? && n.operation == "" && n.edge.NilEdge? && n.telemetry == Telemetry([], [], [], None)
  }

  ghost predicate UnfoldsCalls(s: Schema, ns: seq<Node>, calls: seq<CallNode>)
    decreases ns
  {
    |ns| == |calls| && forall i | 0 <= i < |ns| :: UnfoldsCall(s, ns[i], calls[i])
  }

  ghost predicate UnfoldsCall(s: Schema, n: Node, call: CallNode)
    decreases n, 1
  {
    && call.CallNode?
    && if |call.parallel| > 0 then
         Virtual(n) && n.children == [] && UnfoldsCalls(s, n.parallel, call.parallel)
       else
         call.edge.Edge? && call.edge.to.Some? && Unfolds(s, n, call.edge.to.value, call.edge)
  }

  ghost predicate UnfoldsSteps(s: Schema, ns: seq<Node>, steps: seq<Step>)
    decreases ns, 0
  {
    |ns| == |steps| && forall i | 0 <= i < |ns| :: UnfoldsStep(s, ns[i], steps[i])
  }

  ghost predicate UnfoldsStep(s: Schema, n: Node, step: Step)
    decreases n, 1
  {
    && step.Step?
    && if |step.parallel| > 0 then
         Virtual(n) && n.children == [] && UnfoldsSteps(s, n.parallel, step.parallel)
       else
         step.op.Some? && Unfolds(s, n, step.op.value, NilEdge)
  }

  /** A journey's root: its only step, or a virtual node over all of them. */
  ghost predicate UnfoldsJourney(s: Schema, root: Node, j: Journey) {
    if |j.steps| == 1 then UnfoldsSteps(s, [root], j.steps)
    else Virtual(root) && root.parallel == [] && UnfoldsSteps(s, root.children, j.steps)
  }

  function Size(n: Node): nat
    decreases n, 1
  {
    1 + SizeAll(n.parallel) + SizeAll(n.children)
  }

  function SizeAll(ns: seq<Node>): nat
    decreases ns, 0
  {
    if ns == [] then 0 else Size(ns[0]) + SizeAll(ns[1..])
  }

  lemma {:induction false} SizeMember(ns: seq<Node>, i: nat)
    requires i < |ns|
    ensures Size(ns[i]) <= SizeAll(ns)
  {
    if i > 0 { SizeMember(ns[1..], i - 1); }
  }

  lemma {:induction false} UniqueUnfolding(s: Schema, a: Node, b: Node, op: OpRef, ea: Edge, eb: Edge)
    requires Unfolds(s, a, op, ea) && Unfolds(s, b, op, eb)
    ensures a.children == b.children
    decreases a, 0
  {
    UniqueCalls(s, a.children, b.children, s.Op(op).calls);
  }

  lemma {:induction false} UniqueCalls(s: Schema, a: seq<Node>, b: seq<Node>, calls: seq<CallNode>)
    requires UnfoldsCalls(s, a, calls) && UnfoldsCalls(s, b, calls)
    ensures a == b
    decreases a
  {
    forall i | 0 <= i < |a|
      ensures a[i] == b[i]
    {
      assert UnfoldsCall(s, a[i], calls[i]) && UnfoldsCall(s, b[i], calls[i]);
      if |calls[i].parallel| > 0 {
        UniqueCalls(s, a[i].parallel, b[i].parallel, calls[i].parallel);
      } else {
        var e := calls[i].edge;
        UniqueUnfolding(s, a[i], b[i], e.to.value, e, e);
      }
    }
  }

  // ----- Building implies unfolding

  lemma {:induction false} BuildUnfolds(s: Schema, op: OpRef, edge: Edge, visiting: set<OpRef>)
    ensures var r := BuildOperation(s, op, edge, visiting); r.Ok? ==> Unfolds(s, r.value, op, edge)
    decreases |s.ops.Keys - visiting|, 0
  {
    if s.Op(op).service.Some? && op !in visiting {
      Shrinks(s.ops.Keys, visiting, op);
      BuildCallsUnfolds(s, s.Op(op).calls, visiting + {op});
    }
  }

  lemma {:induction false} BuildCallsUnfolds(s: Schema, calls: seq<CallNode>, visiting: set<OpRef>)
    ensures var r := BuildCalls(s, calls, visiting); r.Ok? ==> UnfoldsCalls(s, r.value, calls)
    decreases |s.ops.Keys - visiting|, 1, calls, 0
  {
    if calls != [] {
      BuildCallUnfolds(s, calls[0], visiting);
      BuildCallsUnfolds(s, calls[1..], visiting);
      assert calls == [calls[0]] + calls[1..];
    }
  }

  lemma {:induction false} BuildCallUnfolds(s: Schema, call: CallNode, visiting: set<OpRef>)
    ensures var r := BuildCall(s, call, visiting); r.Ok? ==> UnfoldsCall(s, r.value, call)
    decreases |s.ops.Keys - visiting|, 1, call, 1
  {
    if call.CallNode? {
      if |call.parallel| > 0 {
        BuildCallsUnfolds(s, call.parallel, visiting);
      } else if call.edge.Edge? && call.edge.to.Some? {
        BuildUnfolds(s, call.edge.to.value, call.edge, visiting);
      }
    }
  }

  // ----- Unfolding implies building

  /** Any unfolding of an operation on the build path would be bigger than what is being built. */
  ghost predicate Heavier(s: Schema, visiting: set<OpRef>, size: nat) {
    forall m, x, e | x in visiting && Unfolds(s, m, x, e) :: Size(m) > size
  }

  lemma StillHeavier(s: Schema, visiting: set<OpRef>, size: nat, more: nat)
    requires Heavier(s, visiting, more) && size <= more
    ensures Heavier(s, visiting, size)
  {
  }

  lemma {:induction false} UnfoldingBuilds(s: Schema, n: Node, op: OpRef, edge: Edge, visiting: set<OpRef>)
    requires Unfolds(s, n, op, edge) && Heavier(s, visiting, Size(n))
    ensures BuildOperation(s, op, edge, visiting) == Ok(n)
    decreases n, 0
  {
    var deeper := visiting + {op};
    forall m, x, e | x in deeper && Unfolds(s, m, x, e)
      ensures Size(m) > SizeAll(n.children)
    {
      if x == op { UniqueUnfolding(s, m, n, op, e, edge); }
    }
    assert Heavier(s, deeper, SizeAll(n.children));
    UnfoldingBuildsCalls(s, n.children, s.Op(op).calls, deeper);
    Shrinks(s.ops.Keys, visiting, op);
  }

  lemma {:induction false} UnfoldingBuildsCalls(s: Schema, ns: seq<Node>, calls: seq<CallNode>, visiting: set<OpRef>)
    requires UnfoldsCalls(s, ns, calls) && Heavier(s, visiting, SizeAll(ns))
    ensures BuildCalls(s, calls, visiting) == Ok(ns)
    decreases ns, 0
  {
    if ns != [] {
      var n, call := ns[0], calls[0];
      assert UnfoldsCall(s, n, call);
      StillHeavier(s, visiting, Size(n), SizeAll(ns));
      StillHeavier(s, visiting, SizeAll(n.parallel), SizeAll(ns));
      StillHeavier(s, visiting, SizeAll(ns[1..]), SizeAll(ns));
      if |call.parallel| > 0 {
        UnfoldingBuildsCalls(s, n.parallel, call.parallel, visiting);
      } else {
        UnfoldingBuilds(s, n, call.edge.to.value, call.edge, visiting);
      }
      forall i | 0 <= i < |ns[1..]|
        ensures UnfoldsCall(s, ns[1..][i], calls[1..][i])
      {
        assert UnfoldsCall(s, ns[i + 1], calls[i + 1]);
      }
      UnfoldingBuildsCalls(s, ns[1..], calls[1..], visiting);
      assert ns == [n] + ns[1..];
    }
  }

  /** On any schema, cyclic or not: the builder succeeds with n exactly when n is the finite unfolding. */
  lemma BuildIffUnfolds(s: Schema, op: OpRef, edge: Edge, n: Node)
    ensures BuildOperation(s, op, edge, {}) == Ok(n) <==> Unfolds(s, n, op, edge)
  {
    BuildUnfolds(s, op, edge, {});
    if Unfolds(s, n, op, edge) { UnfoldingBuilds(s, n, op, edge, {}); }
  }

  lemma {:induction false} StepsIffUnfold(s: Schema, steps: seq<Step>, ns: seq<Node>)
    ensures BuildSteps(s, steps) == Ok(ns) <==> UnfoldsSteps(s, ns, steps)
    decreases steps, 0
  {
    if steps != [] {
      var r := BuildStep(s, steps[0]);
      if ns != [] {
        StepIffUnfolds(s, steps[0], ns[0]);
        StepsIffUnfold(s, steps[1..], ns[1..]);
        assert ns == [ns[0]] + ns[1..] && steps == [steps[0]] + steps[1..];
      }
    }
  }

  lemma {:induction false} StepIffUnfolds(s: Schema, step: Step, n: Node)
    ensures BuildStep(s, step) == Ok(n) <==> UnfoldsStep(s, n, step)
    decreases step, 1
  {
    if step.Step? {
      if |step.parallel| > 0 {
        var r := BuildSteps(s, step.parallel);
        StepsIffUnfold(s, step.parallel, n.parallel);
      } else if step.op.Some? {
        BuildIffUnfolds(s, step.op.value, NilEdge, n);
      }
    }
  }

  lemma PlanIffUnfolds(s: Schema, name: string, root: Node)
    requires name in s.journeys && s.journeys[name].Some? && s.journeys[name].value.steps != []
    ensures BuildPlan(s, name) == Ok(root) <==> UnfoldsJourney(s, root, s.journeys[name].value)
  {
    var steps := s.journeys[name].value.steps;
    var r := BuildSteps(s, steps);
    StepsIffUnfold(s, steps, [root]);
    StepsIffUnfold(s, steps, root.children);
    if r.Ok? { StepsIffUnfold(s, steps, r.value); }
  }

  // ----- When the builder reports a cycle

  function CallTargets(calls: seq<CallNode>): set<OpRef>
    decreases calls, 0
  {
    if calls == [] then {} else CallTarget(calls[0]) + CallTargets(calls[1..])
  }

  function CallTarget(call: CallNode): set<OpRef>
    decreases call, 1
  {
    if call.NilCall? then {}
    else if |call.parallel| > 0 then CallTargets(call.parallel)
    else if call.edge.Edge? && call.edge.to.Some? then {call.edge.to.value} else {}
  }

  ghost predicate CallWalk(s: Schema, p: seq<OpRef>) {
    && |p| >= 1
    && (|p| > 1 ==> p[1] in CallTargets(s.Op(p[0]).calls) && CallWalk(s, p[1..]))
  }

  predicate CallsSound(calls: seq<CallNode>, universe: set<OpRef>)
    decreases calls
  {
    forall i | 0 <= i < |calls| ::
      && calls[i].CallNode?
      && (if |calls[i].parallel| > 0 then CallsSound(calls[i].parallel, universe)
          else calls[i].edge.Edge? && calls[i].edge.to.Some? && calls[i].edge.to.value in universe)
  }

  /** No nil pointer can be met from an operation of universe. */
  ghost predicate Sound(s: Schema, universe: set<OpRef>) {
    forall op | op in universe :: s.Op(op).service.Some? && CallsSound(s.Op(op).calls, universe)
  }

  ghost predicate Clear(p: seq<OpRef>, visiting: set<OpRef>) {
    NoDup(p) && forall x | x in p :: x !in visiting
  }

  ghost predicate OkOrCycle<T>(r: Built<T>) {
    r.Ok? || r.error == CycleError
  }

  lemma {:induction false} CallsOkIff(s: Schema, universe: set<OpRef>, calls: seq<CallNode>, visiting: set<OpRef>)
    requires CallsSound(calls, universe)
    requires forall t | t in universe :: OkOrCycle(BuildOperation(s, t, NilEdge, visiting))
    ensures CallTargets(calls) <= universe
    ensures OkOrCycle(BuildCalls(s, calls, visiting))
    ensures BuildCalls(s, calls, visiting).Ok?
       <==> forall t | t in CallTargets(calls) :: BuildOperation(s, t, NilEdge, visiting).Ok?
    decreases calls
  {
    if calls != [] {
      var call := calls[0];
      if |call.parallel| > 0 {
        CallsOkIff(s, universe, call.parallel, visiting);
      } else {
        var t := call.edge.to.value;
        assert t in universe;
        EdgeIrrelevant(s, t, call.edge, visiting);
      }
      CallsOkIff(s, universe, calls[1..], visiting);
    }
  }

  lemma EdgeIrrelevant(s: Schema, t: OpRef, edge: Edge, visiting: set<OpRef>)
    ensures var a, b := BuildOperation(s, t, edge, visiting), BuildOperation(s, t, NilEdge, visiting);
            (a.Ok? <==> b.Ok?) && (a.Err? ==> a == b)
  {
  }

  lemma {:induction false} CycleIff(s: Schema, universe: set<OpRef>, op: OpRef, visiting: set<OpRef>)
    requires Sound(s, universe) && op in universe
    ensures OkOrCycle(BuildOperation(s, op, NilEdge, visiting))
    ensures BuildOperation(s, op, NilEdge, visiting).Ok?
       <==> forall p | CallWalk(s, p) && p[0] == op :: Clear(p, visiting)
    decreases |s.ops.Keys - visiting|
  {
    if op in visiting {
      assert CallWalk(s, [op]) && op in [op];
    } else {
      var deeper, calls := visiting + {op}, s.Op(op).calls;
      Shrinks(s.ops.Keys, visiting, op);
      forall t | t in universe
        ensures OkOrCycle(BuildOperation(s, t, NilEdge, deeper))
        ensures BuildOperation(s, t, NilEdge, deeper).Ok? <==> WalksClear(s, t, deeper)
      {
        CycleIff(s, universe, t, deeper);
      }
      CallsOkIff(s, universe, calls, deeper);
      ExtendWalks(s, op, visiting);
    }
  }

  ghost predicate WalksClear(s: Schema, op: OpRef, visiting: set<OpRef>) {
    forall p | CallWalk(s, p) && p[0] == op :: Clear(p, visiting)
  }

  lemma ExtendWalks(s: Schema, op: OpRef, visiting: set<OpRef>)
    requires op !in visiting
    ensures WalksClear(s, op, visiting)
       <==> forall t | t in CallTargets(s.Op(op).calls) :: WalksClear(s, t, visiting + {op})
  {
    var deeper := visiting + {op};
    if WalksClear(s, op, visiting) {
      forall t, q | t in CallTargets(s.Op(op).calls) && CallWalk(s, q) && q[0] == t
        ensures Clear(q, deeper)
      {
        var p := [op] + q;
        assert p[1..] == q;
        assert CallWalk(s, p);
        forall i, j | 0 <= i < j < |q|
          ensures q[i] != q[j]
        {
          assert p[i + 1] != p[j + 1];
        }
        forall x | x in q
          ensures x !in deeper
        {
          var k :| 0 <= k < |q| && q[k] == x;
          assert p[k + 1] == x && p[0] == op;
        }
      }
    }
    if forall t | t in CallTargets(s.Op(op).calls) :: WalksClear(s, t, deeper) {
      forall p | CallWalk(s, p) && p[0] == op
        ensures Clear(p, visiting)
      {
        if |p| > 1 {
          assert WalksClear(s, p[1], deeper) && Clear(p[1..], deeper);
          assert forall i | 1 <= i < |p| :: p[i] == p[1..][i - 1];
        }
      }
    }
  }

  /** The operations a step list starts from, as the builder reads it. */
  function StepTargets(steps: seq<Step>): set<OpRef>
    decreases steps
  {
    if steps == [] then {}
    else
      (if steps[0].NilStep? then {}
       else if |steps[0].parallel| > 0 then StepTargets(steps[0].parallel)
       else if steps[0].op.Some? then {steps[0].op.value} else {})
      + StepTargets(steps[1..])
  }

  predicate StepsSound(steps: seq<Step>, universe: set<OpRef>)
    decreases steps
  {
    forall i | 0 <= i < |steps| ::
      && steps[i].Step?
      && (if |steps[i].parallel| > 0 then StepsSound(steps[i].parallel, universe)
          else steps[i].op.Some? && steps[i].op.value in universe)
  }

  lemma {:induction false} StepsOkIff(s: Schema, universe: set<OpRef>, steps: seq<Step>)
    requires Sound(s, universe) && StepsSound(steps, universe)
    ensures OkOrCycle(BuildSteps(s, steps))
    ensures BuildSteps(s, steps).Ok? <==> forall op | op in StepTargets(steps) :: WalksClear(s, op, {})
    decreases steps
  {
    hide Sound, BuildOperation, WalksClear;
    if steps != [] {
      if |steps[0].parallel| > 0 {
        StepsOkIff(s, universe, steps[0].parallel);
      } else {
        StepCycleIff(s, universe, steps[0].op.value);
      }
      StepsOkIff(s, universe, steps[1..]);
    }
  }

  lemma StepCycleIff(s: Schema, universe: set<OpRef>, op: OpRef)
    requires Sound(s, universe) && op in universe
    ensures OkOrCycle(BuildOperation(s, op, NilEdge, {}))
    ensures BuildOperation(s, op, NilEdge, {}).Ok? <==> WalksClear(s, op, {})
  {
    CycleIff(s, universe, op, {});
  }

  /** A journey fails to plan exactly when some call walk from one of its steps meets an operation twice. */
  lemma JourneyCycleIff(s: Schema, universe: set<OpRef>, name: string)
    requires Sound(s, universe) && name in s.journeys && s.journeys[name].Some?
    requires var steps := s.journeys[name].value.steps; steps != [] && StepsSound(steps, universe)
    ensures BuildPlan(s, name).Ok? || BuildPlan(s, name) == Err(CycleError)
    ensures BuildPlan(s, name) == Err(CycleError)
       <==> exists p :: CallWalk(s, p) && p[0] in StepTargets(s.journeys[name].value.steps) && !NoDup(p)
  {
    hide Sound, BuildOperation, CallWalk;
    var steps := s.journeys[name].value.steps;
    StepsOkIff(s, universe, steps);
    assert forall p :: Clear(p, {}) <==> NoDup(p);
  }

  // ----- What each error says

  /** A nil call, a nil edge or an edge without a target, among the calls or in their groups. */
  ghost predicate Defect(calls: seq<CallNode>, kind: PlanErrorKind)
    decreases calls
  {
    exists i | 0 <= i < |calls| ::
      if calls[i].NilCall? then kind == NilCallError
      else if calls[i].parallel != [] then Defect(calls[i].parallel, kind)
      else if calls[i].edge.NilEdge? then kind == NilEdgeError
      else kind == NilEdgeTo && calls[i].edge.to.None?
  }

  /** The last operation of the walk is what the error says it is. */
  ghost predicate Faulty(s: Schema, visiting: set<OpRef>, p: seq<OpRef>, kind: PlanErrorKind)
    requires p != []
  {
    var last := p[|p| - 1];
    match kind
    case NilOperation => s.Op(last).service.None?
    case CycleError => last in visiting || last in p[..|p| - 1]
    case _ => Defect(s.Op(last).calls, kind)
  }

  ghost predicate FaultBelow(s: Schema, op: OpRef, visiting: set<OpRef>, kind: PlanErrorKind) {
    exists p :: CallWalk(s, p) && p[0] == op && Faulty(s, visiting, p, kind)
  }

  /** An error while building an operation names something that some call walk from it really meets. */
  lemma {:induction false} OperationErrorReal(s: Schema, op: OpRef, edge: Edge, visiting: set<OpRef>)
    ensures var r := BuildOperation(s, op, edge, visiting); r.Err? ==> FaultBelow(s, op, visiting, r.error)
    decreases |s.ops.Keys - visiting|, 0
  {
    hide Defect;
    var r := BuildOperation(s, op, edge, visiting);
    if r.Err? {
      assert CallWalk(s, [op]) && [op][..0] == [];
      if s.Op(op).service.Some? && op !in visiting {
        Shrinks(s.ops.Keys, visiting, op);
        CallsErrorReal(s, s.Op(op).calls, visiting + {op});
        if Defect(s.Op(op).calls, r.error) {
          DefectKinds(s.Op(op).calls, r.error);
          assert Faulty(s, visiting, [op], r.error);
        } else {
          var t :| t in CallTargets(s.Op(op).calls) && FaultBelow(s, t, visiting + {op}, r.error);
          FaultFurther(s, op, t, visiting, r.error);
        }
      } else {
        assert Faulty(s, visiting, [op], r.error);
      }
    }
  }

  lemma {:induction false} DefectKinds(calls: seq<CallNode>, kind: PlanErrorKind)
    requires Defect(calls, kind)
    ensures kind in {NilCallError, NilEdgeError, NilEdgeTo}
    decreases calls
  {
    var i :| 0 <= i < |calls| && (
      if calls[i].NilCall? then kind == NilCallError
      else if calls[i].parallel != [] then Defect(calls[i].parallel, kind)
      else if calls[i].edge.NilEdge? then kind == NilEdgeError
      else kind == NilEdgeTo && calls[i].edge.to.None?);
    if calls[i].CallNode? && calls[i].parallel != [] { DefectKinds(calls[i].parallel, kind); }
  }

  lemma FaultFurther(s: Schema, op: OpRef, t: OpRef, visiting: set<OpRef>, kind: PlanErrorKind)
    requires t in CallTargets(s.Op(op).calls) && FaultBelow(s, t, visiting + {op}, kind)
    ensures FaultBelow(s, op, visiting, kind)
  {
    var q :| CallWalk(s, q) && q[0] == t && Faulty(s, visiting + {op}, q, kind);
    var p := [op] + q;
    assert p[1..] == q && p[..|p| - 1] == [op] + q[..|q| - 1];
    assert CallWalk(s, p) && Faulty(s, visiting, p, kind);
  }

  lemma {:induction false} CallsErrorReal(s: Schema, calls: seq<CallNode>, visiting: set<OpRef>)
    ensures var r := BuildCalls(s, calls, visiting);
            r.Err? ==> Defect(calls, r.error) || exists t :: t in CallTargets(calls) && FaultBelow(s, t, visiting, r.error)
    decreases |s.ops.Keys - visiting|, 1, calls
  {
    hide FaultBelow;
    if calls != [] {
      var call := calls[0];
      if call.CallNode? {
        if |call.parallel| > 0 {
          CallsErrorReal(s, call.parallel, visiting);
        } else if call.edge.Edge? && call.edge.to.Some? {
          OperationErrorReal(s, call.edge.to.value, call.edge, visiting);
        }
      }
      CallsErrorReal(s, calls[1..], visiting);
      var r := BuildCalls(s, calls, visiting);
      if r.Err? && Defect(calls[1..], r.error) { DefectLater(calls, r.error); }
      if r.Err? && BuildCall(s, call, visiting).Err? { assert r.error == BuildCall(s, call, visiting).error; }
    }
  }

  lemma DefectLater(calls: seq<CallNode>, kind: PlanErrorKind)
    requires calls != [] && Defect(calls[1..], kind)
    ensures Defect(calls, kind)
  {
    var rest := calls[1..];
    var i :| 0 <= i < |rest| && (
      if rest[i].NilCall? then kind == NilCallError
      else if rest[i].parallel != [] then Defect(rest[i].parallel, kind)
      else if rest[i].edge.NilEdge? then kind == NilEdgeError
      else kind == NilEdgeTo && rest[i].edge.to.None?);
    assert calls[i + 1] == rest[i];
  }

  /** A nil step, or a step that is neither an operation nor a group, at any depth. */
  ghost predicate StepDefect(steps: seq<Step>, kind: PlanErrorKind)
    decreases steps
  {
    exists i | 0 <= i < |steps| ::
      if steps[i].NilStep? then kind == NilStepError
      else if steps[i].parallel != [] then StepDefect(steps[i].parallel, kind)
      else kind == NilOperation && steps[i].op.None?
  }

  lemma {:induction false} StepsErrorReal(s: Schema, steps: seq<Step>)
    ensures var r := BuildSteps(s, steps);
            r.Err? ==> StepDefect(steps, r.error) || exists op :: op in StepTargets(steps) && FaultBelow(s, op, {}, r.error)
    ensures var r := BuildSteps(s, steps); r.Err? ==> r.error != UnknownJourney && r.error != EmptyJourney
    decreases steps
  {
    hide FaultBelow, BuildOperation;
    if steps != [] {
      var step := steps[0];
      if step.Step? {
        if |step.parallel| > 0 {
          StepsErrorReal(s, step.parallel);
        } else if step.op.Some? {
          OperationErrorReal(s, step.op.value, NilEdge, {});
          if BuildOperation(s, step.op.value, NilEdge, {}).Err? {
            FaultKinds(s, step.op.value, {}, BuildOperation(s, step.op.value, NilEdge, {}).error);
          }
        }
      }
      StepsErrorReal(s, steps[1..]);
      var r := BuildSteps(s, steps);
      if r.Err? && StepDefect(steps[1..], r.error) { StepDefectLater(steps, r.error); }
      if r.Err? && BuildStep(s, step).Err? { assert r.error == BuildStep(s, step).error; }
    }
  }

  lemma FaultKinds(s: Schema, op: OpRef, visiting: set<OpRef>, kind: PlanErrorKind)
    requires FaultBelow(s, op, visiting, kind)
    ensures kind != UnknownJourney && kind != EmptyJourney
  {
    var p :| CallWalk(s, p) && p[0] == op && Faulty(s, visiting, p, kind);
    if !kind.NilOperation? && !kind.CycleError? { DefectKinds(s.Op(p[|p| - 1]).calls, kind); }
  }

  lemma StepDefectLater(steps: seq<Step>, kind: PlanErrorKind)
    requires steps != [] && StepDefect(steps[1..], kind)
    ensures StepDefect(steps, kind)
  {
    var rest := steps[1..];
    var i :| 0 <= i < |rest| && (
      if rest[i].NilStep? then kind == NilStepError
      else if rest[i].parallel != [] then StepDefect(rest[i].parallel, kind)
      else kind == NilOperation && rest[i].op.None?);
    assert steps[i + 1] == rest[i];
  }

  /** Every error of the plan builder is about something real: the journey, one of its steps, or what a call walk from one meets. */
  lemma PlanErrorReal(s: Schema, name: string)
    ensures BuildPlan(s, name) == Err(UnknownJourney) <==> name !in s.journeys
    ensures BuildPlan(s, name) == Err(EmptyJourney)
       <==> name in s.journeys && (s.journeys[name].None? || s.journeys[name].value.steps == [])
    ensures var r := BuildPlan(s, name);
            r.Err? && r.error !in {UnknownJourney, EmptyJourney} ==>
              var steps := s.journeys[name].value.steps;
              StepDefect(steps, r.error) || exists op :: op in StepTargets(steps) && FaultBelow(s, op, {}, r.error)
  {
    hide BuildSteps, FaultBelow, StepDefect;
    if name in s.journeys && s.journeys[name].Some? { StepsErrorReal(s, s.journeys[name].value.steps); }
  }

  // ----- A validated schema always plans

  lemma {:induction false} ValidCallsSound(calls: seq<CallNode>, listed: set<OpRef>)
    requires NoOrphans(calls, listed) && CallVariantsOk(calls)
    ensures CallsSound(calls, listed)
    decreases calls
  {
    forall i | 0 <= i < |calls|
      ensures |calls[i].parallel| > 0 ==> CallsSound(calls[i].parallel, listed)
    {
      if |calls[i].parallel| > 0 { ValidCallsSound(calls[i].parallel, listed); }
    }
  }

  lemma {:induction false} EdgeTargetsAppend(a: seq<Edge>, b: seq<Edge>)
    ensures EdgeTargets(a + b) == EdgeTargets(a) + EdgeTargets(b)
    decreases a
  {
    hide EdgeTargets, TargetOf;
    if a == [] {
      NoTargets();
      assert a + b == b;
    } else {
      var rest := a[1..];
      EdgeTargetsAppend(rest, b);
      HeadAndRest(a, b);
      TargetsHead(a);
      TargetsHead(a + b);
      Associates(TargetOf(a[0]), EdgeTargets(rest), EdgeTargets(b));
    }
  }

  lemma NoTargets()
    ensures EdgeTargets([]) == []
  {
  }

  lemma HeadAndRest<T>(a: seq<T>, b: seq<T>)
    requires a != []
    ensures (a + b)[0] == a[0] && (a + b)[1..] == a[1..] + b
  {
  }

  lemma Associates<T>(a: seq<T>, b: seq<T>, c: seq<T>)
    ensures a + (b + c) == (a + b) + c
  {
  }

  function TargetOf(e: Edge): seq<OpRef> {
    if e.Edge? && e.to.Some? then [e.to.value] else []
  }

  lemma TargetsHead(es: seq<Edge>)
    requires es != []
    ensures EdgeTargets(es) == TargetOf(es[0]) + EdgeTargets(es[1..])
  {
  }

  /** Kahn's graph has every edge the builder follows (and the fallbacks besides). */
  lemma {:induction false} CallTargetsAreTargets(calls: seq<CallNode>, t: OpRef)
    requires t in CallTargets(calls)
    ensures t in EdgeTargets(EdgesInCalls(calls))
    decreases calls
  {
    var call := calls[0];
    EdgeTargetsAppend(EdgesInNode(call), EdgesInCalls(calls[1..]));
    if t in CallTarget(call) {
      var own := if call.edge.NilEdge? then [] else [call.edge] + NonNil(Fallbacks(call.edge));
      EdgeTargetsAppend(own, EdgesInCalls(call.parallel));
      if |call.parallel| > 0 {
        CallTargetsAreTargets(call.parallel, t);
      } else {
        EdgeTargetsAppend([call.edge], NonNil(Fallbacks(call.edge)));
      }
    } else {
      CallTargetsAreTargets(calls[1..], t);
    }
  }

  lemma ValidSound(s: Schema)
    requires Valid(s)
    ensures Sound(s, Listed(s))
  {
    forall op | op in Listed(s)
      ensures s.Op(op).service.Some? && CallsSound(s.Op(op).calls, Listed(s))
    {
      assert OperationOk(s, Listed(s), op);
      ValidCallsSound(s.Op(op).calls, Listed(s));
    }
  }

  ghost function ListedGraph(s: Schema): Graph {
    Graph(Listed(s), {}, map op | op in Listed(s) :: OutgoingTargets(s, op))
  }

  lemma ListedGraphAcyclic(s: Schema)
    requires Valid(s)
    ensures Acyclic(ListedGraph(s))
  {
    forall x
      ensures x in Listed(s) <==> InSchema(s, x)
      ensures !Aliased(s, x)
    {
      ListedIsInSchemaSet(s, x);
      NotAliased(s, x);
    }
    assert IsGraphOf(ListedGraph(s), s);
  }

  lemma {:induction false} SoundTargets(calls: seq<CallNode>, universe: set<OpRef>)
    requires CallsSound(calls, universe)
    ensures CallTargets(calls) <= universe
    decreases calls
  {
    if calls != [] {
      if |calls[0].parallel| > 0 { SoundTargets(calls[0].parallel, universe); }
      SoundTargets(calls[1..], universe);
    }
  }

  /** Every call the builder follows from a node of g is an edge of g. */
  ghost predicate Covers(g: Graph, s: Schema) {
    forall u, v | u in g.nodes && v in CallTargets(s.Op(u).calls) :: Linked(g, u, v)
  }

  lemma CallStaysListed(calls: seq<CallNode>, listed: set<OpRef>, v: OpRef)
    requires NoOrphans(calls, listed) && CallVariantsOk(calls) && v in CallTargets(calls)
    ensures v in listed && v in EdgeTargets(EdgesInCalls(calls))
  {
    CallTargetsAreTargets(calls, v);
    ValidCallsSound(calls, listed);
    SoundTargets(calls, listed);
  }

  lemma OperationCovered(s: Schema, u: OpRef)
    requires Valid(s) && u in Listed(s)
    ensures NoOrphans(s.Op(u).calls, Listed(s)) && CallVariantsOk(s.Op(u).calls)
  {
    assert OperationOk(s, Listed(s), u);
  }

  lemma ListedGraphCovers(s: Schema)
    requires Valid(s)
    ensures Covers(ListedGraph(s), s)
  {
    var g := ListedGraph(s);
    forall u, v | u in g.nodes && v in CallTargets(s.Op(u).calls)
      ensures Linked(g, u, v)
    {
      OperationCovered(s, u);
      CallStaysListed(s.Op(u).calls, g.nodes, v);
    }
  }

  lemma {:induction false} CallWalkIsWalk(s: Schema, g: Graph, p: seq<OpRef>)
    requires Covers(g, s) && CallWalk(s, p) && p[0] in g.nodes
    ensures Walk(g, p)
    decreases |p|
  {
    if |p| > 1 {
      assert Linked(g, p[0], p[1]);
      CallWalkIsWalk(s, g, p[1..]);
      WalkPrepend(g, p[0], p[1..]);
      assert p == [p[0]] + p[1..];
    }
  }

  lemma AcyclicWalkClear(s: Schema, g: Graph, p: seq<OpRef>)
    requires Covers(g, s) && Acyclic(g) && CallWalk(s, p) && p[0] in g.nodes
    ensures Clear(p, {})
  {
    CallWalkIsWalk(s, g, p);
    forall i, j | 0 <= i < j < |p|
      ensures p[i] != p[j]
    {
      WalkSlice(g, p, i, j + 1);
      if p[i] == p[j] {
        assert Path(g, p[i..j + 1], p[i], p[i]);
        assert OnCycle(g, p[i]);
      }
    }
  }

  lemma ValidOperationBuilds(s: Schema, op: OpRef)
    requires Valid(s) && op in Listed(s)
    ensures BuildOperation(s, op, NilEdge, {}).Ok?
  {
    var g, listed := ListedGraph(s), Listed(s);
    ValidSound(s);
    ListedGraphAcyclic(s);
    ListedGraphCovers(s);
    AcyclicBuilds(s, g, listed, op);
  }

  lemma AcyclicBuilds(s: Schema, g: Graph, listed: set<OpRef>, op: OpRef)
    requires Sound(s, listed) && g.nodes == listed && Covers(g, s) && Acyclic(g) && op in listed
    ensures BuildOperation(s, op, NilEdge, {}).Ok?
  {
    forall p | CallWalk(s, p) && p[0] == op
      ensures Clear(p, {})
    {
      AcyclicWalkClear(s, g, p);
    }
    CycleIff(s, listed, op, {});
  }

  lemma {:induction false} StepsBuild(s: Schema, steps: seq<Step>, listed: set<OpRef>)
    requires StepsReachable(steps, listed)
    requires forall op | op in listed :: BuildOperation(s, op, NilEdge, {}).Ok?
    ensures BuildSteps(s, steps).Ok?
    decreases steps
  {
    if steps != [] {
      if |steps[0].parallel| > 0 {
        StepsBuild(s, steps[0].parallel, listed);
      }
      StepsBuild(s, steps[1..], listed);
    }
  }

  lemma ValidJourney(s: Schema, name: string)
    requires Valid(s) && name in s.journeys
    ensures JourneyOk(name, s.journeys[name], Listed(s))
  {
  }

  /** The theorem joining validate.go and plan.go. */
  lemma ValidatedSchemaPlans(s: Schema, name: string)
    requires Valid(s) && name in s.journeys
    ensures BuildPlan(s, name).Ok?
  {
    ValidJourney(s, name);
    forall op | op in Listed(s)
      ensures BuildOperation(s, op, NilEdge, {}).Ok?
    {
      ValidOperationBuilds(s, op);
    }
    StepsBuild(s, s.journeys[name].value.steps, Listed(s));
  }
}
