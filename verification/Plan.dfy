/**
 The plan builder of journey/plan.go.  The specification functions unfold the
 call graph under a set of operations already on the build path; the methods do
 it with one shared, restored visiting set, as the source does.
 */
module Plan {
  import opened Wrappers
  import opened Topology

  datatype PlanErrorKind =
    | UnknownJourney | EmptyJourney | NilStepError | NilOperation | NilCallError | NilEdgeError | NilEdgeTo | CycleError

  /** One invocation in a plan tree; virtual nodes have no service. */
  datatype Node = Node(
    service: Option<SvcRef>, operation: string, edge: Edge,
    parallel: seq<Node>, children: seq<Node>, telemetry: Telemetry)

  const NO_TELEMETRY := Telemetry([], [], [], None)

  function GroupNode(parallel: seq<Node>): Node {
    Node(None, "", NilEdge, parallel, [], NO_TELEMETRY)
  }

  function OperationNode(op: Operation, edge: Edge, children: seq<Node>): Node {
    Node(op.service, op.name, edge, [], children, op.telemetry)
  }

  type Built<T> = Result<T, PlanErrorKind>

  // ----- Specification

  function BuildOperation(s: Schema, op: OpRef, edge: Edge, visiting: set<OpRef>): (r: Built<Node>)
    decreases |s.ops.Keys - visiting|, 0
  {
    if s.Op(op).service.None? then Err(NilOperation)
    else if op in visiting then Err(CycleError)
    else
      Shrinks(s.ops.Keys, visiting, op);
      var kids :- BuildCalls(s, s.Op(op).calls, visiting + {op});
      Ok(OperationNode(s.Op(op), edge, kids))
  }

  function BuildCalls(s: Schema, calls: seq<CallNode>, visiting: set<OpRef>): (r: Built<seq<Node>>)
    decreases |s.ops.Keys - visiting|, 1, calls, 0
  {
    if calls == [] then Ok([])
    else
      var first :- BuildCall(s, calls[0], visiting);
      var rest :- BuildCalls(s, calls[1..], visiting);
      Ok([first] + rest)
  }

  function BuildCall(s: Schema, call: CallNode, visiting: set<OpRef>): (r: Built<Node>)
    decreases |s.ops.Keys - visiting|, 1, call, 1
  {
    if call.NilCall? then Err(NilCallError)
    else if |call.parallel| > 0 then
      var kids :- BuildCalls(s, call.parallel, visiting);
      Ok(GroupNode(kids))
    else if call.edge.NilEdge? then Err(NilEdgeError)
    else if call.edge.to.None? then Err(NilEdgeTo)
    else BuildOperation(s, call.edge.to.value, call.edge, visiting)
  }

  lemma Shrinks(keys: set<OpRef>, visiting: set<OpRef>, op: OpRef)
    requires op in keys && op !in visiting
    ensures |keys - (visiting + {op})| < |keys - visiting|
  {
    assert keys - visiting == (keys - (visiting + {op})) + {op};
  }

  function BuildStep(s: Schema, step: Step): (r: Built<Node>)
    decreases step, 1
  {
    if step.NilStep? then Err(NilStepError)
    else if |step.parallel| > 0 then
      var kids :- BuildSteps(s, step.parallel);
      Ok(GroupNode(kids))
    else if step.op.None? then Err(NilOperation)
    else BuildOperation(s, step.op.value, NilEdge, {})
  }

  function BuildSteps(s: Schema, steps: seq<Step>): (r: Built<seq<Node>>)
    decreases steps, 0
  {
    if steps == [] then Ok([])
    else
      var first :- BuildStep(s, steps[0]);
      var rest :- BuildSteps(s, steps[1..]);
      Ok([first] + rest)
  }

  function BuildPlan(s: Schema, name: string): (r: Built<Node>) {
    if name !in s.journeys then Err(UnknownJourney)
    else if s.journeys[name].None? || s.journeys[name].value.steps == [] then Err(EmptyJourney)
    else
      var kids :- BuildSteps(s, s.journeys[name].value.steps);
      Ok(if |kids| == 1 then kids[0] else Node(None, "", NilEdge, [], kids, NO_TELEMETRY))
  }

  // ----- The builder as the source runs it

  /** The visiting map: operation objects mapped to true. */
  class VisitSet {
    var marks: set<OpRef>

    constructor (initial: set<OpRef>)
      ensures marks == initial
    {
      marks := initial;
    }
  }

  function Elements(path: seq<OpRef>): set<OpRef> {
    set x | x in path
  }

  /** path is the chain of operations being built; the shared set holds exactly those. */
  method BuildOperationNode(s: Schema, op: OpRef, edge: Edge, visiting: VisitSet, ghost path: seq<OpRef>)
    returns (r: Built<Node>)
    requires visiting.marks == Elements(path)
    modifies visiting
    ensures visiting.marks == old(visiting.marks)
    ensures r == BuildOperation(s, op, edge, old(visiting.marks))
    decreases |s.ops.Keys - visiting.marks|, 0
  {
    if s.Op(op).service.None? {
      return Err(NilOperation);
    }
    if op in visiting.marks {
      return Err(CycleError);
    }
    ghost var before := visiting.marks;
    Shrinks(s.ops.Keys, before, op);
    visiting.marks := visiting.marks + {op};
    var node := OperationNode(s.Op(op), edge, []);
    var calls := s.Op(op).calls;
    assert calls[0..] == calls;
    PrefixedEnds([], BuildCalls(s, calls, before + {op}));
    for i := 0 to |calls|
      invariant visiting.marks == before + {op}
      invariant node == OperationNode(s.Op(op), edge, node.children)
      invariant BuildCalls(s, calls, before + {op}) == Prefixed(node.children, BuildCalls(s, calls[i..], before + {op}))
    {
      assert calls[i..][1..] == calls[i + 1..];
      var child := BuildCallNode(s, calls[i], visiting, path + [op]);
      if child.Err? {
        visiting.marks := visiting.marks - {op};
        assert visiting.marks == before;
        return Err(child.error);
      }
      PrefixedCons(node.children, child.value, BuildCalls(s, calls[i + 1..], before + {op}));
      node := node.(children := node.children + [child.value]);
    }
    assert calls[|calls|..] == [];
    PrefixedEnds(node.children, Ok([]));
    visiting.marks := visiting.marks - {op};
    assert visiting.marks == before;
    r := Ok(node);
  }

  /** What a loop that has already built done still has to produce. */
  function Prefixed(done: seq<Node>, rest: Built<seq<Node>>): Built<seq<Node>> {
    if rest.Ok? then Ok(done + rest.value) else rest
  }

  lemma PrefixedEnds(done: seq<Node>, rest: Built<seq<Node>>)
    ensures Prefixed([], rest) == rest
    ensures Prefixed(done, Ok([])) == Ok(done)
  {
    assert rest.Ok? ==> [] + rest.value == rest.value;
    assert done + [] == done;
  }

  lemma PrefixedCons(done: seq<Node>, x: Node, rest: Built<seq<Node>>)
    ensures rest.Ok? ==> done + ([x] + rest.value) == (done + [x]) + rest.value
  {
  }

  method BuildCallNode(s: Schema, call: CallNode, visiting: VisitSet, ghost path: seq<OpRef>) returns (r: Built<Node>)
    requires visiting.marks == Elements(path)
    modifies visiting
    ensures visiting.marks == old(visiting.marks)
    ensures r == BuildCall(s, call, old(visiting.marks))
    decreases |s.ops.Keys - visiting.marks|, 1, call
  {
    if call.NilCall? {
      return Err(NilCallError);
    }
    if |call.parallel| > 0 {
      var group := GroupNode([]);
      assert call.parallel[0..] == call.parallel;
      PrefixedEnds([], BuildCalls(s, call.parallel, visiting.marks));
      for i := 0 to |call.parallel|
        invariant visiting.marks == old(visiting.marks)
        invariant group == GroupNode(group.parallel)
        invariant BuildCalls(s, call.parallel, visiting.marks)
               == Prefixed(group.parallel, BuildCalls(s, call.parallel[i..], visiting.marks))
      {
        assert call.parallel[i..][1..] == call.parallel[i + 1..];
        var clone := new VisitSet(visiting.marks);
        var child := BuildCallNode(s, call.parallel[i], clone, path);
        if child.Err? {
          return Err(child.error);
        }
        PrefixedCons(group.parallel, child.value, BuildCalls(s, call.parallel[i + 1..], visiting.marks));
        group := group.(parallel := group.parallel + [child.value]);
      }
      assert call.parallel[|call.parallel|..] == [];
      PrefixedEnds(group.parallel, Ok([]));
      return Ok(group);
    }
    if call.edge.NilEdge? {
      return Err(NilEdgeError);
    }
    if call.edge.to.None? {
      return Err(NilEdgeTo);
    }
    r := BuildOperationNode(s, call.edge.to.value, call.edge, visiting, path);
  }

  method BuildStepNode(s: Schema, step: Step, visiting: VisitSet) returns (r: Built<Node>)
    requires visiting.marks == {}
    modifies visiting
    ensures visiting.marks == {}
    ensures r == BuildStep(s, step)
    decreases step
  {
    if step.NilStep? {
      return Err(NilStepError);
    }
    if |step.parallel| > 0 {
      var group := GroupNode([]);
      assert step.parallel[0..] == step.parallel;
      PrefixedEnds([], BuildSteps(s, step.parallel));
      for i := 0 to |step.parallel|
        invariant visiting.marks == {}
        invariant group == GroupNode(group.parallel)
        invariant BuildSteps(s, step.parallel) == Prefixed(group.parallel, BuildSteps(s, step.parallel[i..]))
      {
        assert step.parallel[i..][1..] == step.parallel[i + 1..];
        var clone := new VisitSet(visiting.marks);
        var child := BuildStepNode(s, step.parallel[i], clone);
        if child.Err? {
          return Err(child.error);
        }
        PrefixedCons(group.parallel, child.value, BuildSteps(s, step.parallel[i + 1..]));
        group := group.(parallel := group.parallel + [child.value]);
      }
      assert step.parallel[|step.parallel|..] == [];
      PrefixedEnds(group.parallel, Ok([]));
      return Ok(group);
    }
    if step.op.None? {
      return Err(NilOperation);
    }
    r := BuildOperationNode(s, step.op.value, NilEdge, visiting, []);
  }

  method BuildJourneyPlan(s: Schema, name: string) returns (r: Built<Node>)
    ensures r == BuildPlan(s, name)
  {
    if name !in s.journeys {
      return Err(UnknownJourney);
    }
    if s.journeys[name].None? || |s.journeys[name].value.steps| == 0 {
      return Err(EmptyJourney);
    }
    var steps := s.journeys[name].value.steps;
    var children: seq<Node> := [];
    assert steps[0..] == steps;
    PrefixedEnds([], BuildSteps(s, steps));
    for i := 0 to |steps|
      invariant |children| == i
      invariant BuildSteps(s, steps) == Prefixed(children, BuildSteps(s, steps[i..]))
    {
      assert steps[i..][1..] == steps[i + 1..];
      var visiting := new VisitSet({});
      var child := BuildStepNode(s, steps[i], visiting);
      if child.Err? {
        return Err(child.error);
      }
      PrefixedCons(children, child.value, BuildSteps(s, steps[i + 1..]));
      children := children + [child.value];
    }
    assert steps[|steps|..] == [];
    PrefixedEnds(children, Ok([]));
    r := Ok(if |children| == 1 then children[0] else Node(None, "", NilEdge, [], children, NO_TELEMETRY));
  }
}
