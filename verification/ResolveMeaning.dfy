/**
 What a document says, apart from how it is resolved: relations between raw and
 resolved call trees, steps and duplicates.  Resolving succeeds exactly on what one
 of these relates to something, and then yields that.
 */
module ResolveMeaning {
  import opened Wrappers
  import opened Strings
  import opened Topology
  import opened RawDocument
  import opened Tokens
  import opened Resolve

  // ----- References

  /** The reference names an operation of the directory. */
  predicate Names(dir: Directory, svc: string, op: string, r: OpRef) {
    svc != "" && op != "" && svc in dir && op in dir[svc] && r.svc == svc && r.op == op
  }

  lemma LookupMeans(dir: Directory, svc: string, op: string, r: OpRef)
    ensures Lookup(dir, svc, op) == Ok(r) <==> Names(dir, svc, op, r)
  {
  }

  lemma LookupDecides(dir: Directory, svc: string, op: string)
    ensures if Lookup(dir, svc, op).Ok? then Names(dir, svc, op, Lookup(dir, svc, op).value) else forall r :: !Names(dir, svc, op, r)
  {
  }

  /** A reference in a fault target is cut at its first dot. */
  lemma RefMeans(spec: string, svc: string, op: string)
    ensures ParseOperationRef(spec) == Ok((svc, op)) <==> svc != "" && op != "" && '.' !in svc && spec == svc + "." + op
  {
    var cut := Cut(spec, ".");
    assert forall i | 0 <= i < |spec| :: spec[i] == '.' <==> "." <= spec[i..];
    if cut.Some? {
      var (before, after) := cut.value;
      assert forall i | 0 <= i < |before| :: spec[i] == before[i];
      if '.' !in svc && spec == svc + "." + op { CutUnique(before, svc, after, op, '.'); }
    } else {
      assert '.' !in spec;
      if spec == svc + "." + op { DotIn(svc, op); }
    }
  }

  lemma DotIn(svc: string, op: string)
    ensures '.' in svc + "." + op
  {
    assert (svc + "." + op)[|svc|] == '.';
  }

  // ----- Calls

  /** Either half may be left out: then the median is 0 and the tail is the median. */
  predicate LatencyReads(rl: Option<RawLatency>, l: LatencyDist) {
    match rl
    case None => l.distribution == "constant" && l.p50 == 0 && l.p95 == 0
    case Some(r) =>
      && l.distribution == (if r.distribution == "" then "constant" else r.distribution)
      && l.p50 == (if r.p50.Some? then r.p50.value else 0)
      && l.p95 == (if r.p95.Some? then r.p95.value else l.p50)
  }

  predicate Given<T(==)>(raw: Option<T>, missing: T, v: T) {
    if raw.Some? then v == raw.value else v == missing
  }

  /** An edge with everything it was given and the defaults of what it was not, its fallbacks aside. */
  predicate EdgeReads(dir: Directory, owner: OpRef, rc: RawCallNode, path: seq<nat>, e: Edge)
    requires rc.RawCallNode? && rc.to.Some?
  {
    && e.Edge? && e.id == EdgeRef(owner, path) && e.from == Some(owner)
    && e.to.Some? && Names(dir, rc.to.value.service, rc.to.value.operation, e.to.value)
    && e.protocol == ParseProtocol(rc.protocol) && LatencyReads(rc.latency, e.latency)
    && Given(rc.errorRate, 0.0, e.errorRate) && Given(rc.timeout, 0, e.timeout) && Given(rc.retries, 0, e.retries)
    && e.retryBackoff == ParseBackoff(rc.retryBackoff) && Given(rc.retryBaseDelay, 100_000_000, e.retryBaseDelay)
    && e.onFailure.Some? == rc.onFailure.Some?
  }

  /** rc is one call or one group of calls; fallbacks are single calls placed under the position of theirs. */
  ghost predicate CallReads(dir: Directory, owner: OpRef, rc: RawCallNode, path: seq<nat>, n: CallNode)
    decreases rc
  {
    && rc.RawCallNode? && n.CallNode?
    && if rc.to.Some? then
         && rc.parallel == [] && n.parallel == [] && EdgeReads(dir, owner, rc, path, n.edge)
         && (rc.onFailure.Some? ==>
               var raw, policy := rc.onFailure.value, n.edge.onFailure.value;
               && policy.onExhausted == ParseExhausted(raw.onExhausted) && policy.defaultResponse == raw.defaultResponse
               && |policy.fallback| == |raw.fallback|
               && forall i | 0 <= i < |raw.fallback| ::
                    raw.fallback[i].RawCallNode? && raw.fallback[i].to.Some?
                    && CallReads(dir, owner, raw.fallback[i], path + [i], CallNode(policy.fallback[i], [])))
       else
         && rc.parallel != [] && n.edge.NilEdge? && |n.parallel| == |rc.parallel|
         && forall i | 0 <= i < |rc.parallel| :: CallReads(dir, owner, rc.parallel[i], path + [i], n.parallel[i])
  }

  ghost predicate CallsRead(dir: Directory, owner: OpRef, rcs: seq<RawCallNode>, path: seq<nat>, ns: seq<CallNode>) {
    |ns| == |rcs| && forall i | 0 <= i < |rcs| :: CallReads(dir, owner, rcs[i], path + [i], ns[i])
  }

  ghost predicate FallbacksRead(dir: Directory, owner: OpRef, rcs: seq<RawCallNode>, path: seq<nat>, es: seq<Edge>) {
    && |es| == |rcs|
    && forall i | 0 <= i < |rcs| ::
         rcs[i].RawCallNode? && rcs[i].to.Some? && CallReads(dir, owner, rcs[i], path + [i], CallNode(es[i], []))
  }

  /** Resolving a call succeeds exactly when the call reads as something, and yields it. */
  lemma {:induction false} CallMeans(dir: Directory, owner: OpRef, rc: RawCallNode, path: seq<nat>)
    ensures var r := ResolveCallNode(dir, owner, rc, path);
            (r.Ok? ==> CallReads(dir, owner, rc, path, r.value)) && (r.Err? ==> forall n :: !CallReads(dir, owner, rc, path, n))
    decreases rc, 1
  {
    hide Lookup, ParseProtocol, ParseBackoff, ParseExhausted, ResolveCallNodes, ResolveFallbacks;
    if rc.RawCallNode? && rc.to.Some? != (rc.parallel != []) {
      if rc.to.None? {
        CallsMean(dir, owner, rc.parallel, path);
        GroupMeans(dir, owner, rc, path);
      } else {
        var svc, op := rc.to.value.service, rc.to.value.operation;
        LookupDecides(dir, svc, op);
        if rc.onFailure.Some? { FallbacksMean(dir, owner, rc.onFailure.value.fallback, path); }
        SingleMeans(dir, owner, rc, path);
      }
    }
  }

  lemma GroupMeans(dir: Directory, owner: OpRef, rc: RawCallNode, path: seq<nat>)
    requires rc.RawCallNode? && rc.to.None? && rc.parallel != []
    requires var c := ResolveCallNodes(dir, owner, rc.parallel, path);
             (c.errs == [] ==> CallsRead(dir, owner, rc.parallel, path, c.values))
             && (c.errs != [] ==> forall ns :: !CallsRead(dir, owner, rc.parallel, path, ns))
    ensures var r := ResolveCallNode(dir, owner, rc, path);
            (r.Ok? ==> CallReads(dir, owner, rc, path, r.value)) && (r.Err? ==> forall n :: !CallReads(dir, owner, rc, path, n))
  {
    hide ResolveCallNodes;
    forall n | CallReads(dir, owner, rc, path, n)
      ensures n.CallNode? && CallsRead(dir, owner, rc.parallel, path, n.parallel)
    {
    }
  }

  lemma SingleMeans(dir: Directory, owner: OpRef, rc: RawCallNode, path: seq<nat>)
    requires rc.RawCallNode? && rc.to.Some? && rc.parallel == []
    requires var svc, op := rc.to.value.service, rc.to.value.operation;
             if Lookup(dir, svc, op).Ok? then Names(dir, svc, op, Lookup(dir, svc, op).value) else forall r :: !Names(dir, svc, op, r)
    requires rc.onFailure.Some? ==>
               var f := ResolveFallbacks(dir, owner, rc.onFailure.value.fallback, path);
               (f.errs == [] ==> FallbacksRead(dir, owner, rc.onFailure.value.fallback, path, f.values))
               && (f.errs != [] ==> forall es :: !FallbacksRead(dir, owner, rc.onFailure.value.fallback, path, es))
    ensures var r := ResolveCallNode(dir, owner, rc, path);
            (r.Ok? ==> CallReads(dir, owner, rc, path, r.value)) && (r.Err? ==> forall n :: !CallReads(dir, owner, rc, path, n))
  {
    hide Lookup, ParseProtocol, ParseBackoff, ParseExhausted, ResolveFallbacks, Names;
    forall n | CallReads(dir, owner, rc, path, n)
      ensures n.CallNode? && n.edge.Edge? && n.edge.to.Some?
      ensures Names(dir, rc.to.value.service, rc.to.value.operation, n.edge.to.value)
      ensures rc.onFailure.Some? ==>
                n.edge.onFailure.Some? && FallbacksRead(dir, owner, rc.onFailure.value.fallback, path, n.edge.onFailure.value.fallback)
    {
    }
  }

  lemma CallsSplit(dir: Directory, owner: OpRef, rcs: seq<RawCallNode>, path: seq<nat>, ns: seq<CallNode>)
    requires rcs != [] && CallsRead(dir, owner, rcs, path, ns)
    ensures var n := |rcs| - 1;
            CallReads(dir, owner, rcs[n], path + [n], ns[n]) && CallsRead(dir, owner, rcs[..n], path, ns[..n])
  {
    hide CallReads;
  }

  lemma FallbacksSplit(dir: Directory, owner: OpRef, rcs: seq<RawCallNode>, path: seq<nat>, es: seq<Edge>)
    requires rcs != [] && FallbacksRead(dir, owner, rcs, path, es)
    ensures var n := |rcs| - 1;
            && rcs[n].RawCallNode? && rcs[n].to.Some? && CallReads(dir, owner, rcs[n], path + [n], CallNode(es[n], []))
            && FallbacksRead(dir, owner, rcs[..n], path, es[..n])
  {
    hide CallReads;
  }

  lemma StepsSplit(dir: Directory, rss: seq<RawStep>, sts: seq<Step>)
    requires rss != [] && StepsRead(dir, rss, sts)
    ensures var n := |rss| - 1; StepReads(dir, rss[n], sts[n]) && StepsRead(dir, rss[..n], sts[..n])
  {
    hide StepReads;
  }

  lemma {:induction false} CallsMean(dir: Directory, owner: OpRef, rcs: seq<RawCallNode>, path: seq<nat>)
    ensures var c := ResolveCallNodes(dir, owner, rcs, path);
            (c.errs == [] ==> CallsRead(dir, owner, rcs, path, c.values))
            && (c.errs != [] ==> forall ns :: !CallsRead(dir, owner, rcs, path, ns))
    decreases rcs, 0
  {
    hide ResolveCallNode, CallReads;
    if rcs != [] {
      var n := |rcs| - 1;
      CallsMean(dir, owner, rcs[..n], path);
      CallMeans(dir, owner, rcs[n], path + [n]);
      var before := ResolveCallNodes(dir, owner, rcs[..n], path);
      var last := ResolveCallNode(dir, owner, rcs[n], path + [n]);
      if before.errs != [] || last.Err? {
        forall ns | CallsRead(dir, owner, rcs, path, ns)
          ensures false
        {
          CallsSplit(dir, owner, rcs, path, ns);
        }
      }
    }
  }

  lemma {:induction false} FallbacksMean(dir: Directory, owner: OpRef, rcs: seq<RawCallNode>, path: seq<nat>)
    ensures var f := ResolveFallbacks(dir, owner, rcs, path);
            (f.errs == [] ==> FallbacksRead(dir, owner, rcs, path, f.values))
            && (f.errs != [] ==> forall es :: !FallbacksRead(dir, owner, rcs, path, es))
    decreases rcs, 0
  {
    hide ResolveCallNode, CallReads;
    if rcs != [] {
      var n := |rcs| - 1;
      FallbacksMean(dir, owner, rcs[..n], path);
      CallMeans(dir, owner, rcs[n], path + [n]);
      var before := ResolveFallbacks(dir, owner, rcs[..n], path);
      var last := ResolveCallNode(dir, owner, rcs[n], path + [n]);
      if last.Ok? { EdgeForm(dir, owner, rcs[n], path + [n], last.value); }
      if before.errs != [] || AsFallback(last).Err? {
        forall es | FallbacksRead(dir, owner, rcs, path, es)
          ensures false
        {
          FallbacksSplit(dir, owner, rcs, path, es);
        }
      }
    }
  }

  /** A call reads as a single edge exactly when it names a target. */
  lemma EdgeForm(dir: Directory, owner: OpRef, rc: RawCallNode, path: seq<nat>, n: CallNode)
    requires CallReads(dir, owner, rc, path, n)
    ensures rc.RawCallNode? && n.CallNode? && (rc.to.Some? <==> n.edge.Edge?) && (rc.to.Some? ==> n == CallNode(n.edge, []))
  {
  }

  // ----- Steps

  ghost predicate StepReads(dir: Directory, rs: RawStep, st: Step)
    decreases rs
  {
    && rs.RawStep? && st.Step?
    && if rs.parallel == [] then st.parallel == [] && st.op.Some? && Names(dir, rs.service, rs.operation, st.op.value)
       else
         && rs.service == "" && rs.operation == "" && st.op.None? && |st.parallel| == |rs.parallel|
         && forall i | 0 <= i < |rs.parallel| :: StepReads(dir, rs.parallel[i], st.parallel[i])
  }

  ghost predicate StepsRead(dir: Directory, rss: seq<RawStep>, sts: seq<Step>) {
    |sts| == |rss| && forall i | 0 <= i < |rss| :: StepReads(dir, rss[i], sts[i])
  }

  lemma {:induction false} StepMeans(dir: Directory, rs: RawStep)
    ensures var r := ResolveStep(dir, rs);
            (r.Ok? ==> StepReads(dir, rs, r.value)) && (r.Err? ==> forall st :: !StepReads(dir, rs, st))
    decreases rs, 1
  {
    hide Lookup, ResolveSteps;
    if rs.RawStep? {
      if rs.parallel != [] {
        StepsMean(dir, rs.parallel);
        forall st | StepReads(dir, rs, st)
          ensures StepsRead(dir, rs.parallel, st.parallel)
        {
        }
      } else {
        LookupDecides(dir, rs.service, rs.operation);
      }
    }
  }

  /** Resolving steps succeeds exactly when they read as something, and yields it. */
  lemma {:induction false} StepsMean(dir: Directory, rss: seq<RawStep>)
    ensures var c := ResolveSteps(dir, rss);
            (c.errs == [] ==> StepsRead(dir, rss, c.values)) && (c.errs != [] ==> forall sts :: !StepsRead(dir, rss, sts))
    decreases rss, 0
  {
    hide ResolveStep, StepReads;
    if rss != [] {
      var n := |rss| - 1;
      StepsMean(dir, rss[..n]);
      StepMeans(dir, rss[n]);
      var before := ResolveSteps(dir, rss[..n]);
      if before.errs != [] || ResolveStep(dir, rss[n]).Err? {
        forall sts | StepsRead(dir, rss, sts)
          ensures false
        {
          StepsSplit(dir, rss, sts);
        }
      }
    }
  }

  // ----- Duplicates, nil entries, schedule points

  /** Position k is the last entry under the name; a nil entry counts as one without a name. */
  ghost predicate LastEntry(ros: seq<RawOperation>, name: string, k: nat) {
    && k < |ros| && (if ros[k].RawOperation? then ros[k].name else "") == name
    && forall i | k < i < |ros| :: (if ros[i].RawOperation? then ros[i].name else "") != name
  }

  /** The last entry of a name declares the operation. */
  lemma {:induction false} LastDeclares(ros: seq<RawOperation>, name: string, k: nat)
    requires LastEntry(ros, name, k)
    ensures name in Named(ros)
    ensures LastNamed(ros, name) == if ros[k].RawOperation? then ros[k] else RawOperation("", [], [], [], [], None)
    decreases ros
  {
    assert ros[k] in ros;
    if k < |ros| - 1 { LastDeclares(ros[..|ros| - 1], name, k); }
  }

  /** Position k is the last entry under the name that is not nil. */
  ghost predicate LastListed(ros: seq<RawOperation>, name: string, k: nat) {
    && k < |ros| && ros[k].RawOperation? && ros[k].name == name
    && forall i | k < i < |ros| :: ros[i].RawOperation? ==> ros[i].name != name
  }

  /** Its calls are those of the last entry that is not nil. */
  lemma {:induction false} LastCallsAre(ros: seq<RawOperation>, name: string)
    ensures forall k: nat | LastListed(ros, name, k) :: LastCalls(ros, name) == ros[k].calls
    ensures (forall ro | ro in ros :: ro.RawOperation? ==> ro.name != name) ==> LastCalls(ros, name) == []
    decreases ros
  {
    if ros != [] {
      var n := |ros| - 1;
      LastCallsAre(ros[..n], name);
      assert ros[n] in ros && forall ro | ro in ros[..n] :: ro in ros;
      forall k: nat | LastListed(ros, name, k)
        ensures LastCalls(ros, name) == ros[k].calls
      {
        if k < n { assert LastListed(ros[..n], name, k); }
      }
    }
  }

  /** A point without a time stands at the start, without an intensity at full intensity. */
  lemma PointMeans(p: Option<RawSchedulePoint>)
    ensures var r := ResolvePoint(p);
            && r.at == (if p.Some? && p.value.at.Some? then p.value.at.value else 0)
            && r.intensity == (if p.Some? && p.value.intensity.Some? then p.value.intensity.value else 1.0)
  {
  }

  predicate Links(e: Edge, from: OpRef, to: OpRef) {
    e.Edge? && e.from == Some(from) && e.to == Some(to)
  }

  ghost predicate FirstLink(es: seq<Edge>, from: OpRef, to: OpRef, i: nat) {
    i < |es| && Links(es[i], from, to) && forall j | 0 <= j < i :: !Links(es[j], from, to)
  }

  /** Finding an edge takes the first with both ends. */
  lemma {:induction false} FirstMatchMeans(es: seq<Edge>, from: OpRef, to: OpRef)
    ensures forall i: nat | FirstLink(es, from, to, i) :: FirstMatch(es, from, to) == es[i]
    ensures (forall i: nat :: !FirstLink(es, from, to, i)) ==> FirstMatch(es, from, to).NilEdge?
    decreases es
  {
    if es != [] {
      hide Links;
      FirstMatchMeans(es[1..], from, to);
      MatchHead(es, from, to);
      if Links(es[0], from, to) {
        assert FirstLink(es, from, to, 0);
      } else {
        forall i: nat
          ensures FirstLink(es[1..], from, to, i) ==> FirstLink(es, from, to, i + 1)
          ensures FirstLink(es, from, to, i) ==> i > 0 && FirstLink(es[1..], from, to, i - 1)
        {
          LinkTail(es, from, to, i);
        }
        if forall i: nat :: !FirstLink(es, from, to, i) {
          forall i: nat
            ensures !FirstLink(es[1..], from, to, i)
          {
            LinkTail(es, from, to, i);
          }
        }
      }
    }
  }

  lemma MatchHead(es: seq<Edge>, from: OpRef, to: OpRef)
    requires es != []
    ensures FirstMatch(es, from, to) == if Links(es[0], from, to) then es[0] else FirstMatch(es[1..], from, to)
  {
  }

  lemma LinkTail(es: seq<Edge>, from: OpRef, to: OpRef, i: nat)
    requires es != [] && !Links(es[0], from, to)
    ensures FirstLink(es[1..], from, to, i) ==> FirstLink(es, from, to, i + 1)
    ensures FirstLink(es, from, to, i) ==> i > 0 && FirstLink(es[1..], from, to, i - 1)
  {
    hide Links;
    var rest := es[1..];
    assert forall j | 0 <= j < |rest| :: rest[j] == es[j + 1];
    if FirstLink(rest, from, to, i) {
      forall j | 0 <= j < i + 1
        ensures !Links(es[j], from, to)
      {
        if j > 0 { assert !Links(rest[j - 1], from, to); }
      }
    }
  }

  // ----- Fault targets

  /** The arrow between the ends of an edge target is the first one. */
  ghost predicate CutAt(rest: string, mark: string, a: string, b: string) {
    rest == a + mark + b && forall i | 0 <= i < |a| :: !(mark <= rest[i..])
  }

  lemma CutMeans(rest: string, mark: string, a: string, b: string)
    requires mark != ""
    ensures Cut(rest, mark) == Some((a, b)) <==> CutAt(rest, mark, a, b)
  {
    var cut := Cut(rest, mark);
    if CutAt(rest, mark, a, b) {
      assert rest[|a|..] == mark + b;
      assert mark <= rest[|a|..];
      assert cut.Some?;
      var (x, y) := cut.value;
      assert rest[|x|..] == mark + y;
      assert |x| == |a|;
      assert x == rest[..|x|] == a && y == rest[|x| + |mark|..] == b;
    }
  }

  ghost predicate OperationTarget(dir: Directory, rest: string, r: OpRef) {
    '.' !in r.svc && rest == r.svc + "." + r.op && Names(dir, r.svc, r.op, r)
  }

  lemma OperationTargetMeans(dir: Directory, rest: string, r: OpRef)
    ensures OperationTarget(dir, rest, r)
       <==> ParseOperationRef(rest).Ok? && Lookup(dir, ParseOperationRef(rest).value.0, ParseOperationRef(rest).value.1) == Ok(r)
  {
    hide ParseOperationRef, Lookup;
    if ParseOperationRef(rest).Ok? {
      var (svc, op) := ParseOperationRef(rest).value;
      RefMeans(rest, svc, op);
      LookupMeans(dir, svc, op, r);
    }
    RefMeans(rest, r.svc, r.op);
    LookupMeans(dir, r.svc, r.op, r);
  }

  /** node:service, operation:service.operation or edge:service.operation->service.operation, all of it in the directory. */
  ghost predicate TargetReads(dir: Directory, ops: map<OpRef, Operation>, spec: string, t: FaultTarget) {
    exists rest :: rest != "" && (
      || (spec == "node:" + rest && rest in dir && t == FaultTarget(TargetNode, Some(SvcRef(rest)), None, NilEdge))
      || (spec == "operation:" + rest && exists r :: OperationTarget(dir, rest, r) && t == FaultTarget(TargetOperation, None, Some(r), NilEdge))
      || (spec == "edge:" + rest && EdgeTargetReads(dir, ops, rest, t)))
  }

  ghost predicate EdgeTargetReads(dir: Directory, ops: map<OpRef, Operation>, rest: string, t: FaultTarget) {
    exists a, b, from, to ::
      && CutAt(rest, "->", a, b) && OperationTarget(dir, a, from) && OperationTarget(dir, b, to)
      && EdgeBetween(if from in ops then ops[from].calls else [], from, to, t.edge)
      && t == FaultTarget(TargetEdge, None, None, t.edge)
  }

  ghost predicate EdgeBetween(calls: seq<CallNode>, from: OpRef, to: OpRef, e: Edge) {
    exists i: nat :: FirstLink(EdgesInCalls(calls), from, to, i) && EdgesInCalls(calls)[i] == e
  }

  lemma BetweenMeans(calls: seq<CallNode>, from: OpRef, to: OpRef, e: Edge)
    requires e.Edge?
    ensures FirstMatch(EdgesInCalls(calls), from, to) == e <==> EdgeBetween(calls, from, to, e)
  {
    hide EdgesInCalls, Links;
    var es := EdgesInCalls(calls);
    FirstMatchMeans(es, from, to);
    if FirstMatch(es, from, to) == e {
      var i: nat :| FirstLink(es, from, to, i);
      assert es[i] == e;
    }
  }

  lemma EdgeTargetMeans(dir: Directory, ops: map<OpRef, Operation>, rest: string, t: FaultTarget)
    ensures ResolveEdgeTarget(dir, ops, rest) == Ok(t) <==> EdgeTargetReads(dir, ops, rest, t)
  {
    hide ParseOperationRef, Lookup, OperationTarget, EdgeBetween, CutAt, EdgesInCalls, FirstMatch;
    var cut := Cut(rest, "->");
    if ResolveEdgeTarget(dir, ops, rest) == Ok(t) {
      var (a, b) := cut.value;
      CutMeans(rest, "->", a, b);
      var x, y := ParseOperationRef(a).value, ParseOperationRef(b).value;
      var from, to := Lookup(dir, x.0, x.1).value, Lookup(dir, y.0, y.1).value;
      OperationTargetMeans(dir, a, from);
      OperationTargetMeans(dir, b, to);
      BetweenMeans(CallsIn(ops, from), from, to, t.edge);
    }
    forall a, b, from, to | CutAt(rest, "->", a, b) && OperationTarget(dir, a, from) && OperationTarget(dir, b, to)
                            && EdgeBetween(CallsIn(ops, from), from, to, t.edge) && t == FaultTarget(TargetEdge, None, None, t.edge)
      ensures ResolveEdgeTarget(dir, ops, rest) == Ok(t)
    {
      CutMeans(rest, "->", a, b);
      OperationTargetMeans(dir, a, from);
      OperationTargetMeans(dir, b, to);
      SomethingThere(dir, a, from);
      SomethingThere(dir, b, to);
      FoundIsEdge(CallsIn(ops, from), from, to, t.edge);
      BetweenMeans(CallsIn(ops, from), from, to, t.edge);
    }
  }

  lemma SomethingThere(dir: Directory, rest: string, r: OpRef)
    requires OperationTarget(dir, rest, r)
    ensures rest != ""
  {
  }

  lemma FoundIsEdge(calls: seq<CallNode>, from: OpRef, to: OpRef, e: Edge)
    requires EdgeBetween(calls, from, to, e)
    ensures e.Edge?
  {
  }

  /** A fault target resolves exactly when it reads as one of the three forms, and to that. */
  lemma TargetMeans(dir: Directory, ops: map<OpRef, Operation>, spec: string, t: FaultTarget)
    ensures ResolveFaultTarget(dir, ops, spec) == Ok(t) <==> TargetReads(dir, ops, spec, t)
  {
    hide ParseOperationRef, Lookup, OperationTarget, ResolveEdgeTarget, EdgeTargetReads;
    if ResolveFaultTarget(dir, ops, spec) == Ok(t) {
      var (kind, rest) := Cut(spec, ":").value;
      assert spec == kind + ":" + rest;
      assert "node" + ":" == "node:" && "operation" + ":" == "operation:" && "edge" + ":" == "edge:";
      if kind == "operation" {
        var x := ParseOperationRef(rest).value;
        OperationTargetMeans(dir, rest, Lookup(dir, x.0, x.1).value);
      } else if kind == "edge" {
        EdgeTargetMeans(dir, ops, rest, t);
      }
    }
    if TargetReads(dir, ops, spec, t) {
      var rest :| rest != "" && (
        || (spec == "node:" + rest && rest in dir && t == FaultTarget(TargetNode, Some(SvcRef(rest)), None, NilEdge))
        || (spec == "operation:" + rest && exists r :: OperationTarget(dir, rest, r) && t == FaultTarget(TargetOperation, None, Some(r), NilEdge))
        || (spec == "edge:" + rest && EdgeTargetReads(dir, ops, rest, t)));
      var kind := if spec == "node:" + rest then "node" else if spec == "operation:" + rest then "operation" else "edge";
      KindCut(kind, rest);
      assert spec == kind + ":" + rest;
      if kind == "operation" {
        var r :| OperationTarget(dir, rest, r) && t == FaultTarget(TargetOperation, None, Some(r), NilEdge);
        OperationTargetMeans(dir, rest, r);
      } else if kind == "edge" {
        EdgeTargetMeans(dir, ops, rest, t);
      }
    }
  }

  lemma KindCut(kind: string, rest: string)
    requires kind in {"node", "operation", "edge"}
    ensures Cut(kind + ":" + rest, ":") == Some((kind, rest))
    ensures kind + ":" + rest == (if kind == "node" then "node:" else if kind == "operation" then "operation:" else "edge:") + rest
  {
    var spec := kind + ":" + rest;
    assert ':' !in "node" && ':' !in "operation" && ':' !in "edge";
    forall i | 0 <= i < |kind|
      ensures !(":" <= spec[i..])
    {
      assert spec[i..][0] == kind[i] && kind[i] in kind;
    }
    CutMeans(spec, ":", kind, rest);
    assert "node" + ":" == "node:" && "operation" + ":" == "operation:" && "edge" + ":" == "edge:";
  }

  // ----- The whole document

  ghost predicate CallsReadable(raw: RawSchema, dir: Directory) {
    forall id, k | id in raw.services && 0 <= k < |ServiceAt(raw, id).operations| ::
      var ro := ServiceAt(raw, id).operations[k];
      ro.RawOperation? ==> exists ns :: CallsRead(dir, OpRef(id, ro.name), ro.calls, [], ns)
  }

  ghost predicate JourneysReadable(raw: RawSchema, dir: Directory) {
    forall name | name in raw.journeys :: exists sts :: StepsRead(dir, JourneyAt(raw, name).steps, sts)
  }

  ghost predicate FaultsReadable(raw: RawSchema, dir: Directory, ops: map<OpRef, Operation>) {
    forall i | 0 <= i < |raw.faults| :: raw.faults[i].Some? && ResolveFaultTarget(dir, ops, raw.faults[i].value.target).Ok?
  }

  lemma {:induction false} FaultsMean(dir: Directory, ops: map<OpRef, Operation>, rfs: seq<Option<RawFault>>)
    ensures ResolveFaults(dir, ops, rfs).errs == []
       <==> forall i | 0 <= i < |rfs| :: rfs[i].Some? && ResolveFaultTarget(dir, ops, rfs[i].value.target).Ok?
    decreases rfs
  {
    hide ResolveFaultTarget;
    if rfs != [] {
      var n := |rfs| - 1;
      FaultsMean(dir, ops, rfs[..n]);
      TargetErrs(dir, ops, rfs[n]);
      assert rfs == rfs[..n] + [rfs[n]];
    }
  }

  lemma TargetErrs(dir: Directory, ops: map<OpRef, Operation>, rf: Option<RawFault>)
    ensures var r := ResolveFault(dir, ops, rf);
            (r.Ok? <==> rf.Some? && ResolveFaultTarget(dir, ops, rf.value.target).Ok?) && (r.Err? ==> r.error != [])
  {
  }

  /** A document resolves exactly when every call, step and fault target in it can be read, entries replaced later included. */
  lemma DocumentMeans(raw: RawSchema)
    ensures var dir := DirectoryOf(Built(raw));
            ResolveSchema(raw).Some?
            <==> CallsReadable(raw, dir) && JourneysReadable(raw, dir) && FaultsReadable(raw, dir, Referenced(raw).ops)
  {
    hide ResolveCallNodes, ResolveSteps, ResolveFaults, ResolveFaultTarget, CallsRead, StepsRead, Built, DirectoryOf, Referenced;
    var dir := DirectoryOf(Built(raw));
    FaultsMean(dir, Referenced(raw).ops, raw.faults);
    forall id, k | id in raw.services && 0 <= k < |ServiceAt(raw, id).operations| && ServiceAt(raw, id).operations[k].RawOperation?
      ensures var ro := ServiceAt(raw, id).operations[k];
              ResolveCallNodes(dir, OpRef(id, ro.name), ro.calls, []).errs == []
              <==> exists ns :: CallsRead(dir, OpRef(id, ro.name), ro.calls, [], ns)
    {
      var ro := ServiceAt(raw, id).operations[k];
      CallsMean(dir, OpRef(id, ro.name), ro.calls, []);
    }
    forall name | name in raw.journeys
      ensures ResolveSteps(dir, JourneyAt(raw, name).steps).errs == []
         <==> exists sts :: StepsRead(dir, JourneyAt(raw, name).steps, sts)
    {
      StepsMean(dir, JourneyAt(raw, name).steps);
    }
  }
}
