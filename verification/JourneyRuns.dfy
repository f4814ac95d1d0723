/** The plan builder and the executor together: what a run of a built plan does, from conditions on the schema. */
module JourneyRuns {
  import opened Wrappers
  import opened Topology
  import opened Validate
  import opened Plan
  import opened PlanProofs
  import opened ExecModel
  import opened Interp
  import opened ExecCascade
  import opened ExecTime
  import opened ExecCoherence

  // ----- Every planned step reaches an operation

  lemma {:induction false} UnfoldedStepSolid(s: Schema, n: Node, step: Step)
    requires UnfoldsStep(s, n, step)
    ensures Solid(n)
    decreases n
  {
    if |step.parallel| > 0 {
      forall i | 0 <= i < |n.parallel|
        ensures Solid(n.parallel[i])
      {
        UnfoldedStepSolid(s, n.parallel[i], step.parallel[i]);
      }
    }
  }

  /** Steps before the i-th succeeded and the i-th failed, in a run of the first i + 1 steps. */
  predicate FirstFailure(env: Env, steps: seq<Node>, i: nat, start: int, st: State)
    requires i < |steps|
  {
    && ParentAfter(env, steps[..i], None, start, 0, st).None?
    && ParentAfter(env, steps[..i + 1], None, start, 0, st).Some?
  }

  /**
   A journey of several steps whose i-th step is the first to fail: the run of the whole
   plan ends with that failure's status and error type, takes no longer than the
   first i + 1 steps, and all its later spans repeat the failure.
   */
  lemma PlannedStepCascade(s: Schema, name: string, root: Node, env: Env, i: nat, start: int, st: State)
    requires name in s.journeys && s.journeys[name].Some? && |s.journeys[name].value.steps| > 1
    requires BuildPlan(s, name) == Ok(root)
    requires i < |root.children| && FirstFailure(env, root.children, i, start, st)
    ensures |root.children| == |s.journeys[name].value.steps|
    ensures
      var upto := RunSteps(env, root.children[..i + 1], None, start, 0, SUCCESS, st);
      var whole := RunNode(env, root, None, start, st);
      var failure := ParentAfter(env, root.children[..i + 1], None, start, 0, st).value;
      OnlyRepeats(upto, whole, start, failure) && Inherits(whole.outcome, failure)
  {
    hide RunSteps, ParentAfter, OnlyRepeats, BuildPlan;
    var steps := s.journeys[name].value.steps;
    PlanIffUnfolds(s, name, root);
    var last := |root.children| - 1;
    assert UnfoldsStep(s, root.children[last], steps[last]);
    UnfoldedStepSolid(s, root.children[last], steps[last]);
    StepCascade(env, root.children, i, start, st);
  }

  // ----- Containment from conditions on the schema's edges

  predicate Leaf(s: Schema, op: Option<OpRef>) {
    op.Some? ==> s.Op(op.value).calls == []
  }

  predicate CallsCalm(s: Schema, calls: seq<CallNode>)
    decreases calls
  {
    forall i | 0 <= i < |calls| ::
      calls[i].CallNode? ==>
        && (calls[i].edge.Edge? ==> EdgeCalm(calls[i].edge, Leaf(s, calls[i].edge.to)))
        && CallsCalm(s, calls[i].parallel)
  }

  /** Timeouts only on unretried calls to operations that call nothing, and delays that fit. */
  predicate SchemaCalm(s: Schema) {
    forall r | r in s.ops :: CallsCalm(s, s.ops[r].calls)
  }

  lemma {:induction false} UnfoldedCalm(s: Schema, n: Node, op: OpRef, edge: Edge)
    requires SchemaCalm(s) && EdgeCalm(edge, s.Op(op).calls == []) && Unfolds(s, n, op, edge)
    ensures Calm(n)
    decreases n, 0
  {
    UnfoldedCallsCalm(s, n.children, s.Op(op).calls);
  }

  lemma {:induction false} UnfoldedCallsCalm(s: Schema, ns: seq<Node>, calls: seq<CallNode>)
    requires SchemaCalm(s) && CallsCalm(s, calls) && UnfoldsCalls(s, ns, calls)
    ensures forall i | 0 <= i < |ns| :: Calm(ns[i])
    decreases ns
  {
    forall i | 0 <= i < |ns|
      ensures Calm(ns[i])
    {
      assert UnfoldsCall(s, ns[i], calls[i]);
      if |calls[i].parallel| > 0 {
        UnfoldedCallsCalm(s, ns[i].parallel, calls[i].parallel);
      } else {
        UnfoldedCalm(s, ns[i], calls[i].edge.to.value, calls[i].edge);
      }
    }
  }

  lemma {:induction false} UnfoldedStepsCalm(s: Schema, ns: seq<Node>, steps: seq<Step>)
    requires SchemaCalm(s) && UnfoldsSteps(s, ns, steps)
    ensures forall i | 0 <= i < |ns| :: Calm(ns[i])
    decreases ns
  {
    forall i | 0 <= i < |ns|
      ensures Calm(ns[i])
    {
      assert UnfoldsStep(s, ns[i], steps[i]);
      if |steps[i].parallel| > 0 {
        UnfoldedStepsCalm(s, ns[i].parallel, steps[i].parallel);
      } else {
        UnfoldedCalm(s, ns[i], steps[i].op.value, NilEdge);
      }
    }
  }

  /**
   Every journey of a validated schema that is calm can be planned, and running the plan at
   any time, under any fault overlay, ends coherently with every operation span inside
   the journey's interval and inside its parent's span.
   */
  lemma PlannedRunContained(s: Schema, name: string, env: Env, start: int, st: State)
    requires Valid(s) && name in s.journeys && SchemaCalm(s) && Sane(env)
    ensures BuildPlan(s, name).Ok?
    ensures var r := RunNode(env, BuildPlan(s, name).value, None, start, st);
            ExecTime.Covers(r, start) && Coherent(r.outcome)
  {
    hide Valid, BuildPlan, SchemaCalm, Sane, RunNode, ExecTime.Covers, Coherent;
    ValidatedSchemaPlans(s, name);
    ValidJourney(s, name);
    var root := BuildPlan(s, name).value;
    PlanIffUnfolds(s, name, root);
    var steps := s.journeys[name].value.steps;
    if |steps| == 1 {
      UnfoldedStepsCalm(s, [root], steps);
      assert Calm([root][0]);
    } else {
      UnfoldedStepsCalm(s, root.children, steps);
      assert Calm(root);
    }
    NodeContained(env, root, None, start, st);
    JourneyCoherent(env, root, start, st);
  }

  // ----- Fault schedules

  lemma {:induction false} NoneReached(points: seq<FaultSchedulePoint>, elapsed: int, before: real)
    requires forall i | 0 <= i < |points| :: elapsed < points[i].at
    ensures ScanSchedule(points, elapsed, before) == before
  {
  }

  lemma {:induction false} LatestIs(points: seq<FaultSchedulePoint>, elapsed: int, before: real, i: nat)
    requires forall j, k | 0 <= j < k < |points| :: points[j].at < points[k].at
    requires i < |points| && points[i].at <= elapsed && (i + 1 < |points| ==> elapsed < points[i + 1].at)
    ensures ScanSchedule(points, elapsed, before) == points[i].intensity
    decreases i
  {
    var rest := points[1..];
    assert points[0].at <= points[i].at;
    if i > 0 {
      LatestIs(rest, elapsed, points[0].intensity, i - 1);
    } else {
      forall k | 0 <= k < |rest|
        ensures elapsed < rest[k].at
      {
        assert k > 0 ==> points[1].at < points[k + 1].at;
      }
      NoneReached(rest, elapsed, points[0].intensity);
    }
  }

  /** On a validated schedule the scan is the step function: nothing before the first point, then the latest point reached. */
  lemma ValidScheduleIsStepFunction(points: seq<FaultSchedulePoint>, elapsed: int)
    requires ScheduleOk(points)
    ensures (forall i | 0 <= i < |points| :: elapsed < points[i].at) ==> ScheduledIntensity(points, elapsed) == 0.0
    ensures forall i | 0 <= i < |points| && points[i].at <= elapsed && (forall j | i < j < |points| :: elapsed < points[j].at) ::
              ScheduledIntensity(points, elapsed) == points[i].intensity
  {
    if forall i | 0 <= i < |points| :: elapsed < points[i].at { NoneReached(points, elapsed, 0.0); }
    forall i | 0 <= i < |points| && points[i].at <= elapsed && (forall j | i < j < |points| :: elapsed < points[j].at)
      ensures ScheduledIntensity(points, elapsed) == points[i].intensity
    {
      assert i + 1 < |points| ==> elapsed < points[i + 1].at;
      LatestIs(points, elapsed, 0.0, i);
    }
  }
}
