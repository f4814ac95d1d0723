/** What resolving establishes: every schema it returns has the shape that printing relies on. */
module ResolvedShape {
  import opened Wrappers
  import opened Strings
  import opened Topology
  import opened RawDocument
  import opened Tokens
  import opened Resolve
  import opened Marshal
  import opened RoundTrip

  // ----- Trees

  lemma {:induction false} CallNodeShaped(dir: Directory, owner: OpRef, rc: RawCallNode, path: seq<nat>)
    requires ResolveCallNode(dir, owner, rc, path).Ok?
    ensures ShapedCallNode(dir, owner, ResolveCallNode(dir, owner, rc, path).value, path)
    decreases rc, 1
  {
    hide Lookup, ParseProtocol, ParseBackoff, ParseExhausted;
    if rc.to.None? {
      CallNodesShaped(dir, owner, rc.parallel, path);
    } else {
      LookupIsKnown(dir, rc.to.value.service, rc.to.value.operation);
      if rc.onFailure.Some? { FallbacksShaped(dir, owner, rc.onFailure.value.fallback, path); }
    }
  }

  lemma LookupIsKnown(dir: Directory, svc: string, op: string)
    requires Lookup(dir, svc, op).Ok?
    ensures Known(dir, Some(Lookup(dir, svc, op).value)) && Lookup(dir, svc, op).value == OpRef(svc, op)
  {
  }

  lemma {:induction false} CallNodesShaped(dir: Directory, owner: OpRef, rcs: seq<RawCallNode>, path: seq<nat>)
    requires ResolveCallNodes(dir, owner, rcs, path).errs == []
    ensures |ResolveCallNodes(dir, owner, rcs, path).values| == |rcs|
    ensures ShapedCallNodes(dir, owner, ResolveCallNodes(dir, owner, rcs, path).values, path)
    decreases rcs, 0
  {
    hide ResolveCallNode, ShapedCallNode;
    if rcs != [] {
      var n := |rcs| - 1;
      CallNodesShaped(dir, owner, rcs[..n], path);
      CallNodeShaped(dir, owner, rcs[n], path + [n]);
    }
  }

  lemma {:induction false} FallbacksShaped(dir: Directory, owner: OpRef, rcs: seq<RawCallNode>, path: seq<nat>)
    requires ResolveFallbacks(dir, owner, rcs, path).errs == []
    ensures |ResolveFallbacks(dir, owner, rcs, path).values| == |rcs|
    ensures forall i | 0 <= i < |rcs| :: ShapedEdge(dir, owner, ResolveFallbacks(dir, owner, rcs, path).values[i], path + [i])
    decreases rcs, 0
  {
    hide ResolveCallNode, ShapedEdge;
    if rcs != [] {
      var n := |rcs| - 1;
      FallbacksShaped(dir, owner, rcs[..n], path);
      CallNodeShaped(dir, owner, rcs[n], path + [n]);
    }
  }

  lemma {:induction false} StepShaped(dir: Directory, rs: RawStep)
    requires ResolveStep(dir, rs).Ok?
    ensures ShapedStep(dir, ResolveStep(dir, rs).value)
    decreases rs, 1
  {
    hide Lookup;
    if rs.parallel != [] {
      StepsShaped(dir, rs.parallel);
    } else {
      LookupIsKnown(dir, rs.service, rs.operation);
    }
  }

  lemma {:induction false} StepsShaped(dir: Directory, rss: seq<RawStep>)
    requires ResolveSteps(dir, rss).errs == []
    ensures |ResolveSteps(dir, rss).values| == |rss| && ShapedSteps(dir, ResolveSteps(dir, rss).values)
    decreases rss, 0
  {
    hide ResolveStep, ShapedStep;
    if rss != [] {
      StepsShaped(dir, rss[..|rss| - 1]);
      StepShaped(dir, rss[|rss| - 1]);
    }
  }

  // ----- Fault targets

  lemma {:induction false} FirstMatchEnds(es: seq<Edge>, from: OpRef, to: OpRef)
    ensures var e := FirstMatch(es, from, to); e.Edge? ==> e in es && e.from == Some(from) && e.to == Some(to)
    decreases es
  {
    if es != [] { FirstMatchEnds(es[1..], from, to); }
  }

  lemma RefPrints(s: Schema, dir: Directory, spec: string)
    requires Truthful(s, dir) && ParseOperationRef(spec).Ok?
    requires var ref := ParseOperationRef(spec).value; Lookup(dir, ref.0, ref.1).Ok?
    ensures var ref := ParseOperationRef(spec).value;
            Lookup(dir, ref.0, ref.1).value == OpRef(ref.0, ref.1) && IdentifyOp(s, Some(OpRef(ref.0, ref.1))) == spec
  {
  }

  lemma EdgeTargetPrints(s: Schema, dir: Directory, ops: map<OpRef, Operation>, rest: string)
    requires Truthful(s, dir) && ResolveEdgeTarget(dir, ops, rest).Ok?
    ensures MarshalFaultTarget(s, ResolveEdgeTarget(dir, ops, rest).value) == "edge:" + rest
  {
    hide Truthful, Lookup, IdentifyOp, ParseOperationRef;
    var cut := Cut(rest, "->").value;
    RefPrints(s, dir, cut.0);
    RefPrints(s, dir, cut.1);
    var from, to := ParseOperationRef(cut.0).value, ParseOperationRef(cut.1).value;
    FirstMatchEnds(EdgesInCalls(CallsIn(ops, OpRef(from.0, from.1))), OpRef(from.0, from.1), OpRef(to.0, to.1));
    assert rest == cut.0 + "->" + cut.1;
  }

  /** A fault target prints as the very string it was resolved from. */
  lemma TargetPrints(s: Schema, dir: Directory, ops: map<OpRef, Operation>, spec: string)
    requires Truthful(s, dir) && ResolveFaultTarget(dir, ops, spec).Ok?
    ensures MarshalFaultTarget(s, ResolveFaultTarget(dir, ops, spec).value) == spec
  {
    hide Truthful, Lookup, ParseOperationRef, ResolveEdgeTarget, IdentifyOp;
    var cut := Cut(spec, ":").value;
    var kind, rest := cut.0, cut.1;
    assert spec == kind + ":" + rest;
    if kind == "node" {
      ServicePrints(s, dir, rest);
      assert "node" + ":" == "node:";
    } else if kind == "operation" {
      RefPrints(s, dir, rest);
      assert "operation" + ":" == "operation:";
    } else {
      EdgeTargetPrints(s, dir, ops, rest);
      EdgeTargetKind(dir, ops, rest);
      assert "edge" + ":" == "edge:";
    }
  }

  lemma ServicePrints(s: Schema, dir: Directory, svc: string)
    requires Truthful(s, dir) && svc in dir
    ensures s.Svc(SvcRef(svc)).name == svc
  {
  }

  lemma EdgeTargetKind(dir: Directory, ops: map<OpRef, Operation>, rest: string)
    requires ResolveEdgeTarget(dir, ops, rest).Ok?
    ensures ResolveEdgeTarget(dir, ops, rest).value.kind == TargetEdge
  {
  }

  // ----- Records

  lemma TelemetryShaped(ro: RawOperation)
    requires ro.RawOperation?
    ensures ShapedTelemetry(ResolveTelemetry(ro))
  {
    hide ParseFaultKind, ParseMetricType, ParseCondition, ParseSeverity, ResolveLogEvent, ResolveProfile, Somes;
  }

  lemma ServiceShaped(raw: RawSchema, id: string)
    requires id in raw.services
    ensures ShapedService(ServiceOf(raw, id), id)
  {
  }

  // ----- The schema

  lemma BuiltService(raw: RawSchema, id: string)
    requires id in raw.services
    ensures SvcRef(id) in Built(raw).svcs && Built(raw).Svc(SvcRef(id)) == ServiceOf(raw, id)
    ensures ServiceOf(raw, id).operations.Keys == Named(ServiceAt(raw, id).operations)
    ensures ShapedService(ServiceOf(raw, id), id)
  {
    hide OperationOf, Named, ServiceAt, AllRefs, ShapedService, ParseServiceKind, NamespaceOf;
    ServiceShaped(raw, id);
    assert SvcRef(id) in AllServices(raw);
  }

  lemma DirectoryNames(raw: RawSchema)
    ensures DirectoryOf(Built(raw)) == map id | id in raw.services :: Named(ServiceAt(raw, id).operations)
  {
    hide OperationOf, ServiceOf, Named, ServiceAt, AllRefs, ShapedService;
    var built := Built(raw);
    assert built.services.Keys == raw.services.Keys;
    forall id | id in raw.services
      ensures built.services[id] == Some(SvcRef(id)) && built.Svc(SvcRef(id)).operations.Keys == Named(ServiceAt(raw, id).operations)
    {
      BuiltService(raw, id);
    }
  }

  lemma BuiltHeap(raw: RawSchema)
    ensures var s := Referenced(raw);
            && s.services == Built(raw).services && s.svcs == Built(raw).svcs && s.ops.Keys == AllRefs(raw)
            && DirectoryOf(s) == DirectoryOf(Built(raw))
            && s.svcs.Keys == set id | id in raw.services :: SvcRef(id)
  {
    hide OperationOf, ServiceOf, CallsOf, JourneyOf, AllRefs, JourneyAt;
    SameDirectory(Referenced(raw), Built(raw));
    assert AllServices(raw) == set id | id in raw.services :: SvcRef(id);
  }

  lemma SameDirectory(s: Schema, t: Schema)
    requires s.services == t.services && s.svcs == t.svcs
    ensures DirectoryOf(s) == DirectoryOf(t)
  {
  }

  lemma ReferencedHeap(raw: RawSchema)
    ensures ShapedHeap(Referenced(raw)) && DirectoryOf(Referenced(raw)) == DirectoryOf(Built(raw))
    ensures Referenced(raw).ops.Keys == AllRefs(raw)
  {
    hide ShapedService, ServiceOf, Referenced, ServiceAt, Named, DirectoryOf, OperationOf;
    var s := Referenced(raw);
    BuiltHeap(raw);
    DirectoryNames(raw);
    forall id | id in s.services
      ensures s.services[id] == Some(SvcRef(id)) && ShapedService(s.Svc(SvcRef(id)), id)
    {
      BuiltService(raw, id);
    }
    assert s.services.Keys == raw.services.Keys;
    assert AllRefs(raw) == RefsOf(DirectoryOf(s));
  }

  lemma {:induction false} LastCallsClean(ros: seq<RawOperation>, dir: Directory, id: string, name: string)
    requires OperationsResolve(ros, dir, id)
    ensures ResolveCallNodes(dir, OpRef(id, name), LastCalls(ros, name), []).errs == []
    decreases ros
  {
    if ros != [] {
      LastCallsClean(ros[..|ros| - 1], dir, id, name);
    }
  }

  lemma OperationShaped(raw: RawSchema, ref: OpRef)
    requires ref in AllRefs(raw) && CallsResolve(raw, DirectoryOf(Built(raw)))
    ensures ref in Referenced(raw).ops && ShapedOperation(DirectoryOf(Built(raw)), Referenced(raw).ops[ref], ref)
    ensures Referenced(raw).ops[ref].name == ref.op && Referenced(raw).ops[ref].service == Some(SvcRef(ref.svc))
  {
    hide DirectoryOf, ResolveCallNodes, ShapedCallNodes, LastCalls, ResolveTelemetry, ShapedTelemetry,
      OperationsResolve, ServiceOf, JourneyOf;
    var dir := DirectoryOf(Built(raw));
    LastCallsClean(ServiceAt(raw, ref.svc).operations, dir, ref.svc, ref.op);
    CallNodesShaped(dir, ref, LastCalls(ServiceAt(raw, ref.svc).operations, ref.op), []);
    TelemetryShaped(LastNamed(ServiceAt(raw, ref.svc).operations, ref.op));
  }

  lemma {:induction false} FaultsShaped(s: Schema, dir: Directory, ops: map<OpRef, Operation>, rfs: seq<Option<RawFault>>)
    requires Truthful(s, dir) && ResolveFaults(dir, ops, rfs).errs == []
    ensures var fs := ResolveFaults(dir, ops, rfs).values;
            forall i | 0 <= i < |fs| :: ResolveFaultTarget(dir, ops, MarshalFaultTarget(s, fs[i].target)) == Ok(fs[i].target)
    decreases rfs
  {
    hide Truthful, ResolveFaultTarget, MarshalFaultTarget;
    if rfs != [] {
      var n := |rfs| - 1;
      FaultErrorsCount(dir, ops, rfs[n]);
      FaultsShaped(s, dir, ops, rfs[..n]);
      TargetPrints(s, dir, ops, rfs[n].value.target);
    }
  }

  lemma FaultErrorsCount(dir: Directory, ops: map<OpRef, Operation>, rf: Option<RawFault>)
    ensures ResolveFault(dir, ops, rf).Err? ==> ResolveFault(dir, ops, rf).error != []
  {
  }

  /** Everything resolving returns has the shape. */
  lemma ResolvedIsShaped(raw: RawSchema)
    requires ResolveSchema(raw).Some?
    ensures Shaped(ResolveSchema(raw).value)
  {
    hide ShapedOperation, ShapedSteps, OperationOf, ServiceOf, CallsOf, ResolveFaultTarget, MarshalFaultTarget,
      ResolveFaults, CallsResolve, ResolveSteps,
      DirectoryOf, RefsOf, ShapedService;
    var s, referenced, dir := ResolveSchema(raw).value, Referenced(raw), DirectoryOf(Built(raw));
    ReferencedHeap(raw);
    forall ref | ref in s.ops
      ensures ShapedOperation(dir, s.ops[ref], ref) && s.ops[ref].name == ref.op && s.ops[ref].service == Some(SvcRef(ref.svc))
    {
      OperationShaped(raw, ref);
    }
    SameHeap(s, referenced);
    forall name | name in s.journeys
      ensures s.journeys[name].Some? && s.journeys[name].value.name == name && ShapedSteps(dir, s.journeys[name].value.steps)
    {
      StepsShaped(dir, JourneyAt(raw, name).steps);
    }
    FaultsShaped(s, dir, referenced.ops, raw.faults);
  }

  lemma SameHeap(s: Schema, t: Schema)
    requires s.services == t.services && s.svcs == t.svcs && s.ops == t.ops && ShapedHeap(t)
    requires forall ref | ref in t.ops :: t.ops[ref].name == ref.op && t.ops[ref].service == Some(SvcRef(ref.svc))
    ensures DirectoryOf(s) == DirectoryOf(t) && ShapedHeap(s) && Truthful(s, DirectoryOf(s))
  {
    SameDirectory(s, t);
    assert ShapedHeap(s) by { hide ShapedService, DirectoryOf, RefsOf; }
    hide *;
    NamedHeapIsTruthful(s);
  }
}
