/**
 The executor as it runs: an engine whose random cursor advances and whose spans
 are begun and finished in an event log.  Every method is proved to do what Interp
 says, event by event.
 */
module Executor {
  import opened Wrappers
  import opened Topology
  import opened Plan
  import opened ExecModel
  import opened Interp
  import opened SpanLog

  class Engine {
    const env: Env
    var cursor: nat
    var polls: nat
    var readings: nat
    var log: seq<Event>

    constructor (env: Env)
      ensures this.env == env && St() == State(0, 0, 0) && log == []
    {
      this.env := env;
      cursor, polls, readings, log := 0, 0, 0, [];
    }

    ghost function St(): State
      reads this
    {
      State(cursor, polls, readings)
    }

    /** This state is what r leaves, the log having grown by r's spans; o is r's outcome. */
    ghost predicate Ran(r: Run, o: Outcome, before: seq<Event>)
      reads this
    {
      o == r.outcome && St() == r.st && log == before + FlattenAll(r.spans)
    }

    // ----- Draws

    method DrawIntN(n: int) returns (x: int)
      modifies this`cursor
      ensures (x, St()) == RandIntN(env, n, old(St()))
    {
      if n <= 1 {
        return 0;
      }
      x := env.intn(cursor, n);
      cursor := cursor + 1;
    }

    method DrawFloat64() returns (x: real)
      modifies this`cursor
      ensures (x, St()) == RandFloat64(env, old(St()))
    {
      x := env.float(cursor);
      cursor := cursor + 1;
    }

    /** A latency draws from the stream only when its distribution has a spread. */
    ghost function DrawsFor(edge: Edge): nat {
      if edge.NilEdge? || edge.latency.p95 <= edge.latency.p50 then 0
      else if edge.latency.distribution == "lognormal" && edge.latency.p50 > 0 then 2
      else if edge.latency.distribution == "uniform" then 1 else 0
    }

    lemma OffsetInside(u: real, width: int)
      requires 0.0 <= u < 1.0 && width > 0
      ensures 0 <= UniformOffset(u, width) < width
    {
      assert 0.0 <= u * width as real < width as real;
    }

    method DrawEdgeLatency(edge: Edge) returns (l: int)
      modifies this`cursor
      ensures (l, St()) == SampleEdgeLatency(env, edge, old(St()))
      ensures cursor == old(cursor) + DrawsFor(edge)
      ensures Sane(env) && edge.Edge? && edge.latency.p50 >= 0 ==> l >= 0
      ensures Sane(env) && DrawsFor(edge) == 1 ==> edge.latency.p50 <= l < edge.latency.p95
    {
      if edge.NilEdge? {
        return DEFAULT_ENTRY_LATENCY;
      }
      var d := edge.latency;
      if d.distribution == "lognormal" {
        if d.p50 <= 0 {
          return 0;
        }
        if d.p95 <= d.p50 {
          return d.p50;
        }
        var u1 := DrawFloat64();
        var u2 := DrawFloat64();
        l := env.lognormal(d.p50, d.p95, u1, u2);
      } else if d.distribution == "uniform" {
        if d.p95 <= d.p50 {
          return d.p50;
        }
        var u := DrawFloat64();
        l := d.p50 + UniformOffset(u, d.p95 - d.p50);
        if Sane(env) { OffsetInside(u, d.p95 - d.p50); }
      } else {
        l := d.p50;
      }
    }

    // ----- Faults

    /** The schedule scan: the last point not later than elapsed, stopping at the first later one. */
    method ScheduledFaultIntensity(points: seq<FaultSchedulePoint>) returns (intensity: real)
      modifies this`readings
      ensures readings == old(readings) + 1
      ensures intensity == ScheduledIntensity(points, env.elapsed(old(readings)))
    {
      var elapsed := env.elapsed(readings);
      readings := readings + 1;
      intensity := 0.0;
      var i := 0;
      assert points[0..] == points;
      while i < |points|
        invariant i <= |points|
        invariant ScanSchedule(points, elapsed, 0.0) == ScanSchedule(points[i..], elapsed, intensity)
      {
        if elapsed < points[i].at { break; }
        assert points[i..][1..] == points[i + 1..];
        intensity := points[i].intensity;
        i := i + 1;
      }
      if intensity < 0.0 { intensity := 0.0; }
    }

    method IntensityFor(spec: FaultSpec) returns (intensity: real)
      modifies this`readings
      ensures (intensity, St()) == FaultIntensityFor(env, spec, old(St()))
      ensures var target := FaultTargetString(env.schema, spec.target);
              if target != "" && target in env.targetIntensity then
                intensity == env.targetIntensity[target] && readings == old(readings)
              else readings == old(readings) + (if spec.schedule == [] then 0 else 1) && (spec.schedule != [] ==> intensity >= 0.0)
    {
      var target := FaultTargetString(env.schema, spec.target);
      if target != "" && target in env.targetIntensity {
        return env.targetIntensity[target];
      }
      if |spec.schedule| > 0 {
        intensity := ScheduledFaultIntensity(spec.schedule);
      } else {
        intensity := env.globalIntensity;
      }
    }

    /** The chance of a fault before it is clamped to a probability. */
    ghost function Chance(spec: FaultSpec, intensity: real): real {
      spec.severity.probability * intensity
    }

    lemma ChanceClamps(spec: FaultSpec, intensity: real)
      ensures var p, eff := Chance(spec, intensity), ScaledProbability(spec.severity.probability, intensity);
              (eff <= 0.0 <==> p <= 0.0) && (eff >= 1.0 <==> p >= 1.0) && (0.0 < p < 1.0 ==> eff == p)
    {
      var p := spec.severity.probability;
      var chance := p * intensity;
      ClampKeeps(chance);
      assert ScaledProbability(p, intensity) == ClampProbability(chance);
    }

    lemma ClampKeeps(p: real)
      ensures var eff := ClampProbability(p);
              (eff <= 0.0 <==> p <= 0.0) && (eff >= 1.0 <==> p >= 1.0) && (0.0 < p < 1.0 ==> eff == p)
    {
    }

    method IsActive(spec: FaultSpec, intensity: real) returns (active: bool)
      modifies this`cursor
      ensures (active, St()) == FaultActive(env, spec, intensity, old(St()))
      ensures var p := Chance(spec, intensity);
              && cursor == old(cursor) + (if 0.0 < p < 1.0 then 1 else 0)
              && (p <= 0.0 ==> !active) && (p >= 1.0 ==> active)
              && (0.0 < p < 1.0 ==> (active <==> env.float(old(cursor)) < p))
    {
      hide ScaledProbability, Chance;
      ChanceClamps(spec, intensity);
      var eff := ScaledProbability(spec.severity.probability, intensity);
      if eff <= 0.0 {
        return false;
      }
      if eff >= 1.0 {
        return true;
      }
      var u := DrawFloat64();
      active := u < eff;
    }

    /** The service's faults: crash and latency inflation. */
    method FoldNode(specs: seq<FaultSpec>, ff0: Folded) returns (ff: Folded)
      modifies this`cursor, this`readings
      ensures (ff, St()) == FoldNodeFaults(env, specs, ff0, old(St()))
    {
      hide FaultIntensityFor, FaultActive;
      ff := ff0;
      assert specs[0..] == specs;
      for i := 0 to |specs|
        invariant polls == old(polls)
        invariant FoldNodeFaults(env, specs, ff0, old(St())) == FoldNodeFaults(env, specs[i..], ff, St())
      {
        assert specs[i..][1..] == specs[i + 1..];
        var intensity := IntensityFor(specs[i]);
        match specs[i].kind {
          case Crash =>
            var active := IsActive(specs[i], intensity);
            if active { ff := ff.(crashed := true); }
          case LatencyInflation =>
            var active := IsActive(specs[i], intensity);
            if active { ff := ff.(inflate := ff.inflate + SampleInflation(specs[i], intensity)); }
          case _ =>
        }
      }
    }

    /** The edge's faults: disconnect and latency inflation. */
    method FoldEdge(specs: seq<FaultSpec>, ff0: Folded) returns (ff: Folded)
      modifies this`cursor, this`readings
      ensures (ff, St()) == FoldEdgeFaults(env, specs, ff0, old(St()))
    {
      hide FaultIntensityFor, FaultActive;
      ff := ff0;
      assert specs[0..] == specs;
      for i := 0 to |specs|
        invariant polls == old(polls)
        invariant FoldEdgeFaults(env, specs, ff0, old(St())) == FoldEdgeFaults(env, specs[i..], ff, St())
      {
        assert specs[i..][1..] == specs[i + 1..];
        var intensity := IntensityFor(specs[i]);
        match specs[i].kind {
          case Disconnect =>
            var active := IsActive(specs[i], intensity);
            if active { ff := ff.(disconnected := true); }
          case LatencyInflation =>
            var active := IsActive(specs[i], intensity);
            if active { ff := ff.(inflate := ff.inflate + SampleInflation(specs[i], intensity)); }
          case _ =>
        }
      }
    }

    /** The operation's faults: error rate override and latency inflation. */
    method FoldOperation(node: Node, specs: seq<FaultSpec>, ff0: Folded) returns (ff: Folded)
      modifies this`cursor, this`readings
      ensures (ff, St()) == FoldOperationFaults(env, node, specs, ff0, old(St()))
    {
      hide FaultIntensityFor, FaultActive;
      ff := ff0;
      assert specs[0..] == specs;
      for i := 0 to |specs|
        invariant polls == old(polls)
        invariant FoldOperationFaults(env, node, specs, ff0, old(St())) == FoldOperationFaults(env, node, specs[i..], ff, St())
      {
        assert specs[i..][1..] == specs[i + 1..];
        var intensity := IntensityFor(specs[i]);
        match specs[i].kind {
          case ErrorRateOverride =>
            ff := ff.(errorRate := OverrideRate(specs[i], intensity),
                      errorType := DefaultFaultErrorType(env.schema, node));
          case LatencyInflation =>
            var active := IsActive(specs[i], intensity);
            if active { ff := ff.(inflate := ff.inflate + SampleInflation(specs[i], intensity)); }
          case _ =>
        }
      }
    }

    method FoldFaultsOf(node: Node) returns (ff: Folded)
      modifies this`cursor, this`readings
      ensures (ff, St()) == FoldFaults(env, node, old(St()))
    {
      hide FoldNodeFaults, FoldOperationFaults;
      ff := FoldNode(SpecsOfNode(env, node), NO_FAULT);
      if node.edge.Edge? {
        ff := FoldEdge(SpecsOfEdge(env, node), NativeErrorRate(env, node, ff));
      }
      ff := FoldOperation(node, SpecsOfOperation(env, node), ff);
    }

    // ----- Spans

    method Emit(e: Event)
      modifies this`log
      ensures log == old(log) + [e]
    {
      log := log + [e];
    }

    /** emitMessagingProducerSpan: begun and finished at once, drawing nothing. */
    method EmitMessagingProducerSpan(edge: Edge, start: int)
      requires edge.Edge? && edge.protocol.Messaging? && edge.from.Some?
      modifies this`log
      ensures log == old(log) + FlattenAll(ProducerSpans(env, edge, start))
    {
      var from := env.schema.Op(edge.from.value);
      if from.service.None? {
        return;
      }
      var info := SpanInfo(ProducerSpan, from.service, from.name, Some(edge.id), 0);
      Emit(Begin(info, start));
      Emit(Finish(info, start + MessagingPublishLatency(edge), Ending(true, 200, NoError, false)));
      FlattenOne(ProducerSpans(env, edge, start)[0]);
    }

    function Info(node: Node, instance: int): SpanInfo {
      SpanInfo(OperationSpan, node.service, node.operation, EdgeRefOf(node.edge), instance)
    }

    // ----- Execution

    method ExecuteNodeAt(node: Node, parent: Option<Outcome>, start: int) returns (o: Outcome)
      modifies this
      ensures Ran(RunNode(env, node, parent, start, old(St())), o, old(log))
      decreases NodeSize(node), 4
    {
      hide RunBranches, RunSteps, RunSequence, RunCascade;
      if |node.parallel| > 0 {
        o := ExecuteParallelGroupAt(node, parent, start);
      } else if node.service.None? {
        o := ExecuteSequentialVirtualAt(node, parent, start);
      } else if parent.Some? && !parent.value.success {
        o := ExecuteCascadeAt(node, parent.value, start);
      } else {
        o := ExecuteAttemptSequence(node, start);
      }
    }

    method ExecuteCascadeAt(node: Node, parent: Outcome, start: int) returns (o: Outcome)
      modifies this`cursor, this`log
      ensures Ran(RunCascade(env, node, parent, start, old(St())), o, old(log))
    {
      var instance := DrawIntN(Replicas(env, node));
      Emit(Begin(Info(node, instance), start));
      o := Plain(false, 0, parent.statusCode, parent.errorType).(cascaded := true);
      Emit(Finish(Info(node, instance), start, EndingOf(o)));
      FlattenOne(OperationSpanOf(node, instance, start, start, o, []));
    }

    method ExecuteSequentialVirtualAt(node: Node, parent: Option<Outcome>, start: int) returns (o: Outcome)
      modifies this
      ensures Ran(RunSteps(env, node.children, parent, start, 0, SUCCESS, old(St())), o, old(log))
      decreases NodesSize(node.children), 5
    {
      hide RunNode, RunSteps, FlattenAll;
      FlattenNone();
      var ns := node.children;
      o := SUCCESS;
      var currentParent, total := parent, 0;
      ghost var spans: seq<Span> := [];
      assert ns[0..] == ns;
      for i := 0 to |ns|
        invariant NodesSize(ns[i..]) <= NodesSize(ns)
        invariant RunSteps(env, ns, parent, start, 0, SUCCESS, old(St()))
               == After(spans, RunSteps(env, ns[i..], currentParent, start, total, o, St()))
        invariant log == old(log) + FlattenAll(spans)
      {
        assert ns[i..][1..] == ns[i + 1..];
        OneStep(env, ns[i..], currentParent, start, total, o, St());
        ghost var r := RunNode(env, ns[i], currentParent, start + total, St());
        var child := ExecuteNodeAt(ns[i], currentParent, start + total);
        total := total + child.latency;
        o := child;
        if !child.success { currentParent := Some(child); }
        AfterStep(spans, r.spans, RunSteps(env, ns[i + 1..], currentParent, start, total, o, St()));
        FlattenJoin(spans, r.spans);
        spans := spans + r.spans;
      }
      NoStepsLeft(env, ns[|ns|..], currentParent, start, total, o, St());
      o := o.(latency := total);
      AfterEnd(spans);
    }

    method ExecuteParallelGroupAt(group: Node, parent: Option<Outcome>, start: int) returns (o: Outcome)
      modifies this
      ensures var b := RunBranches(env, group.parallel, parent, start, old(St()));
              Ran(Run(AggregateFrom(SUCCESS, b.outcomes), b.st, b.spans), o, old(log))
      decreases NodesSize(group.parallel), 5
    {
      hide RunNode, FlattenAll;
      FlattenNone();
      var ns := group.parallel;
      var outcomes: seq<Outcome> := [];
      ghost var spans: seq<Span> := [];
      assert ns[0..] == ns;
      for i := 0 to |ns|
        invariant NodesSize(ns[i..]) <= NodesSize(ns)
        invariant var rest := RunBranches(env, ns[i..], parent, start, St());
                  RunBranches(env, ns, parent, start, old(St()))
                  == Branches(outcomes + rest.outcomes, rest.st, spans + rest.spans)
        invariant log == old(log) + FlattenAll(spans)
      {
        assert ns[i..][1..] == ns[i + 1..];
        ghost var r := RunNode(env, ns[i], parent, start, St());
        var child := ExecuteNodeAt(ns[i], parent, start);
        ghost var rest := RunBranches(env, ns[i + 1..], parent, start, St());
        assert outcomes + ([child] + rest.outcomes) == (outcomes + [child]) + rest.outcomes;
        assert spans + (r.spans + rest.spans) == (spans + r.spans) + rest.spans;
        FlattenJoin(spans, r.spans);
        outcomes, spans := outcomes + [child], spans + r.spans;
      }
      assert outcomes + [] == outcomes && spans + [] == spans;
      o := AggregateParallelOutcomes(outcomes);
    }

    method AggregateParallelOutcomes(outcomes: seq<Outcome>) returns (agg: Outcome)
      ensures agg == AggregateFrom(SUCCESS, outcomes)
    {
      agg := SUCCESS;
      assert outcomes[0..] == outcomes;
      for i := 0 to |outcomes|
        invariant AggregateFrom(SUCCESS, outcomes) == AggregateFrom(agg, outcomes[i..])
      {
        assert outcomes[i..][1..] == outcomes[i + 1..];
        var o := outcomes[i];
        if o.latency > agg.latency { agg := agg.(latency := o.latency); }
        if !o.success && agg.success {
          agg := agg.(success := false, statusCode := o.statusCode, errorType := o.errorType, cascaded := o.cascaded);
        }
      }
    }

    method ExecuteAttemptSequence(node: Node, start: int) returns (final: Outcome)
      modifies this
      ensures Ran(RunSequence(env, node, start, old(St())), final, old(log))
      decreases NodeSize(node), 3
    {
      hide RunAttempts, RunFallbacks, RunKids, FlattenAll;
      FlattenNone();
      ghost var t := RunAttempts(env, node, start, 0, 0, St());
      var total;
      final, total := ExecuteAttempts(node, start);
      if final.success {
        final := final.(latency := total);
        return;
      }
      final := final.(latency := CapLatencyToTimeout(node.edge, total));
      if node.edge.Edge? && node.edge.timeout > 0 && total > node.edge.timeout {
        final := TimeoutFailure(node.edge, final);
      }
      ghost var recovered: seq<Span> := [];
      if node.edge.Edge? && node.edge.onFailure.Some? {
        ghost var r := RunFallbacks(env, node.edge.onFailure.value.fallback, node.edge.onFailure.value.onExhausted,
                                    final.(primaryFailed := true), start, St());
        final := ApplyRecoveryAt(node.edge.onFailure.value, final, start);
        recovered := r.spans;
      }
      FlattenJoin(t.spans, recovered);
      if ShouldCascadeChildren(final) {
        ghost var k := RunKids(env, node.children, final, start + final.latency, 0, St());
        var _ := ExecuteChildrenAt(node, final, start + final.latency);
        FlattenJoin(t.spans + recovered, k.spans);
      }
    }

    /** The retry loop. */
    method ExecuteAttempts(node: Node, start: int) returns (final: Outcome, total: int)
      modifies this
      ensures var t := RunAttempts(env, node, start, 0, 0, old(St()));
              total == t.total && Ran(Run(t.outcome, t.st, t.spans), final, old(log))
      decreases NodeSize(node), 2
    {
      hide RunSingle, FlattenAll, RetryBackoffDelay;
      FlattenNone();
      var attempts := Attempts(node.edge);
      total := 0;
      var attempt := 0;
      ghost var spans: seq<Span> := [];
      ghost var whole := RunAttempts(env, node, start, 0, 0, St());
      while true
        invariant attempt < attempts
        invariant var rest := RunAttempts(env, node, start, attempt, total, St());
                  whole.outcome == rest.outcome && whole.total == rest.total && whole.st == rest.st
                  && whole.spans == spans + rest.spans
        invariant log == old(log) + FlattenAll(spans)
        decreases attempts - attempt
      {
        total := total + RetryBackoffDelay(node.edge, attempt);
        ghost var r := RunSingle(env, node, start + total, St());
        final := ExecuteSingleAttempt(node, start + total);
        total := total + final.latency;
        FlattenJoin(spans, r.spans);
        if final.success || final.errorType.ContextCanceled? || attempt + 1 == attempts {
          return;
        }
        attempt := attempt + 1;
        ghost var rest := RunAttempts(env, node, start, attempt, total, St());
        assert spans + (r.spans + rest.spans) == (spans + r.spans) + rest.spans;
        spans := spans + r.spans;
      }
    }

    ghost predicate Overruns(edge: Edge, effective: int) {
      edge.Edge? && 0 < edge.timeout < effective
    }

    method CheckAttempt(edge: Edge, ff: Folded, effective: int) returns (opening: Opening)
      modifies this`cursor, this`polls
      ensures (opening, St()) == Decide(env, edge, ff, effective, old(St()))
      ensures polls == old(polls) + (if ff.crashed then 0 else 1)
      ensures cursor == old(cursor) + (if opening.Live? && ff.errorRate > 0.0 then 1 else 0)
      ensures opening.Stopped? ==> ShouldCascadeChildren(opening.outcome)
      ensures opening.Stopped? <==> ff.crashed || env.canceled(old(polls)) || Overruns(edge, effective) || ff.disconnected
      ensures opening.Live? ==> opening.latency == effective && (opening.forced ==> ff.errorRate > 0.0)
    {
      if ff.crashed {
        return Stopped(Plain(false, 0, 500, Crashed));
      }
      var canceled := env.canceled(polls);
      polls := polls + 1;
      if canceled {
        return Stopped(Plain(false, 0, 0, ContextCanceled));
      }
      if edge.Edge? && edge.timeout > 0 && effective > edge.timeout {
        return Stopped(TimeoutFailure(edge, Plain(false, edge.timeout, 0, NoError)));
      }
      if ff.disconnected {
        return Stopped(Plain(false, effective, 503, ConnectionRefused));
      }
      var forced := false;
      if ff.errorRate > 0.0 {
        var u := DrawFloat64();
        forced := u < ff.errorRate;
      }
      opening := Live(forced, ff.errorType, effective);
    }

    method ExecuteSingleAttempt(node: Node, start: int) returns (o: Outcome)
      modifies this
      ensures Ran(RunSingle(env, node, start, old(St())), o, old(log))
      decreases NodeSize(node), 1
    {
      hide FoldFaults, SampleEdgeLatency, RunKids, ProducerSpans, FlattenAll, Flatten, Decide, AttemptOutcome, Replicas;
      FlattenNone();
      var ff := FoldFaultsOf(node);
      var instance := DrawIntN(Replicas(env, node));
      var base := DrawEdgeLatency(node.edge);
      var effective := base + ff.inflate;
      ghost var sent := ProducerSpans(env, node.edge, start);
      NoProducers(node.edge, start);
      if node.edge.Edge? && node.edge.protocol.Messaging? && node.edge.from.Some? {
        EmitMessagingProducerSpan(node.edge, start);
      }
      Emit(Begin(Info(node, instance), start));
      ghost var kids: seq<Span> := [];
      var opening := CheckAttempt(node.edge, ff, effective);
      match opening {
        case Stopped(stopped) =>
          o := stopped;
        case Live(forced, errorType, latency) =>
          kids := RunKids(env, node.children, SUCCESS, start, latency, St()).spans;
          var spent := ExecuteChildrenFrom(node, SUCCESS, start, latency);
          o := AttemptOutcome(forced, errorType, spent);
      }
      Emit(Finish(Info(node, instance), start + o.latency, EndingOf(o)));
      AttemptLogged(node, instance, start, o, sent, kids, old(log));
    }

    /** Producer events, begin, kids, finish: the flattened spans of the attempt. */
    lemma AttemptLogged(node: Node, instance: int, start: int, o: Outcome, sent: seq<Span>, kids: seq<Span>, before: seq<Event>)
      ensures
        var own := OperationSpanOf(node, instance, start, start + o.latency, o, kids);
        before + FlattenAll(sent) + [Begin(Info(node, instance), start)] + FlattenAll(kids)
        + [Finish(Info(node, instance), start + o.latency, EndingOf(o))]
        == before + FlattenAll(sent + [own])
    {
      hide FlattenAll;
      var own := OperationSpanOf(node, instance, start, start + o.latency, o, kids);
      FlattenJoin(sent, [own]);
      FlattenOne(own);
      var inner := [Begin(Info(node, instance), start)] + FlattenAll(kids) + [Finish(own.info, own.end, own.ending)];
      assert Flatten(own) == inner;
      assert before + (FlattenAll(sent) + inner) == before + FlattenAll(sent + [own]);
    }

    lemma NoProducers(edge: Edge, start: int)
      ensures !(edge.Edge? && edge.protocol.Messaging? && edge.from.Some?) ==> ProducerSpans(env, edge, start) == []
    {
    }

    /** executeChildrenAt: the children of a failed operation, after the fact. */
    method ExecuteChildrenAt(node: Node, parent: Outcome, start: int) returns (spent: int)
      modifies this
      ensures var k := RunKids(env, node.children, parent, start, 0, old(St()));
              spent == k.total && St() == k.st && log == old(log) + FlattenAll(k.spans)
      decreases NodesSize(node.children), 6
    {
      spent := ExecuteChildrenFrom(node, parent, start, 0);
    }

    /** The child loop shared by a live attempt and a cascade: a live parent's stops at the first failure. */
    method ExecuteChildrenFrom(node: Node, parent: Outcome, start: int, spent0: int) returns (spent: int)
      modifies this
      ensures var k := RunKids(env, node.children, parent, start, spent0, old(St()));
              spent == k.total && St() == k.st && log == old(log) + FlattenAll(k.spans)
      decreases NodesSize(node.children), 5
    {
      hide RunNode, FlattenAll;
      FlattenNone();
      var ns := node.children;
      spent := spent0;
      ghost var spans: seq<Span> := [];
      ghost var whole := RunKids(env, ns, parent, start, spent0, St());
      assert ns[0..] == ns;
      for i := 0 to |ns|
        invariant NodesSize(ns[i..]) <= NodesSize(ns)
        invariant var rest := RunKids(env, ns[i..], parent, start, spent, St());
                  whole == Kids(rest.total, rest.st, spans + rest.spans)
        invariant log == old(log) + FlattenAll(spans)
      {
        assert ns[i..][1..] == ns[i + 1..];
        ghost var r := RunNode(env, ns[i], Some(parent), start + spent, St());
        var child := ExecuteNodeAt(ns[i], Some(parent), start + spent);
        spent := spent + child.latency;
        FlattenJoin(spans, r.spans);
        if !child.success && parent.success {
          return;
        }
        ghost var rest := RunKids(env, ns[i + 1..], parent, start, spent, St());
        assert spans + (r.spans + rest.spans) == (spans + r.spans) + rest.spans;
        spans := spans + r.spans;
      }
      assert spans + [] == spans;
    }

    method ApplyRecoveryAt(policy: RecoveryPolicy, primary: Outcome, start: int) returns (out: Outcome)
      modifies this
      ensures Ran(RunFallbacks(env, policy.fallback, policy.onExhausted, primary.(primaryFailed := true), start, old(St())),
                  out, old(log))
      decreases EdgesSize(policy.fallback), 6
    {
      hide RunFallback, RunFallbacks, FlattenAll, Exhaust;
      FlattenNone();
      out := primary.(primaryFailed := true);
      var fs := policy.fallback;
      ghost var spans: seq<Span> := [];
      ghost var whole := RunFallbacks(env, fs, policy.onExhausted, out, start, St());
      assert fs[0..] == fs;
      for i := 0 to |fs|
        invariant EdgesSize(fs[i..]) <= EdgesSize(fs)
        invariant whole == After(spans, RunFallbacks(env, fs[i..], policy.onExhausted, out, start, St()))
        invariant log == old(log) + FlattenAll(spans)
      {
        assert fs[i..][1..] == fs[i + 1..];
        ghost var f := RunFallback(env, fs[i], start + out.latency, St());
        OneFallback(env, fs[i..], policy.onExhausted, out, start, St());
        var fb := ExecuteFallbackAt(fs[i], start + out.latency);
        FlattenJoin(spans, f.spans);
        out := out.(latency := out.latency + fb.latency);
        if fb.success {
          out := out.(success := true, statusCode := fb.statusCode, errorType := NoError, fallbackUsed := fs[i]);
          return;
        }
        out := out.(fallbackAttempts := out.fallbackAttempts + [fs[i]]);
        AfterStep(spans, f.spans, RunFallbacks(env, fs[i + 1..], policy.onExhausted, out, start, St()));
        spans := spans + f.spans;
      }
      NoFallbacksLeft(env, fs[|fs|..], policy.onExhausted, out, start, St());
      AfterEnd(spans);
      out := OnExhausted(policy.onExhausted, out);
    }

    method OnExhausted(action: ExhaustedAction, failed: Outcome) returns (out: Outcome)
      ensures out == Exhaust(action, failed)
      ensures out.success <==> action.ReturnDefault? || action.SucceedSilently?
      ensures out.defaultUsed <==> failed.defaultUsed || action.ReturnDefault?
      ensures out.silentlySucceeded <==> failed.silentlySucceeded || action.SucceedSilently?
      ensures out.latency == failed.latency && out.fallbackAttempts == failed.fallbackAttempts && out.primaryFailed == failed.primaryFailed
      ensures if out.success then out.statusCode == 200 && out.errorType == NoError
              else out.statusCode == failed.statusCode && out.errorType == failed.errorType
    {
      out := failed;
      match action {
        case ReturnDefault =>
          out := out.(success := true, statusCode := 200, errorType := NoError, defaultUsed := true);
        case SucceedSilently =>
          out := out.(success := true, statusCode := 200, errorType := NoError, silentlySucceeded := true);
        case _ =>
          out := out.(success := false);
      }
    }

    method ExecuteFallbackAt(fb: Edge, start: int) returns (o: Outcome)
      modifies this
      ensures Ran(RunFallback(env, fb, start, old(St())), o, old(log))
      decreases 2 + EdgeSize(fb), 0
    {
      hide RunNode;
      if !Dialable(env, fb) {
        o := Plain(false, 0, 503, ConnectionRefused);
        assert FlattenAll([]) == [];
        return;
      }
      o := ExecuteNodeAt(FallbackNode(env, fb), None, start);
    }

    /** Execute: the span log of a whole journey is well bracketed and balances out. */
    method Execute(root: Node, start: int) returns (o: Outcome)
      requires log == []
      modifies this
      ensures Ran(RunNode(env, root, None, start, old(St())), o, [])
      ensures Replay([], log) == Open([])
      ensures Balanced(log)
    {
      hide RunNode;
      o := ExecuteNodeAt(root, None, start);
      ghost var spans := RunNode(env, root, None, start, old(St())).spans;
      assert log == FlattenAll(spans);
      ForestBracketed(spans);
      SequentialEmits(spans);
      EmissionBalanced(log, spans);
    }
  }

  // ----- Loop bookkeeping

  /** A run that still has to follow spans already emitted. */
  lemma AfterStep(spans: seq<Span>, more: seq<Span>, rest: Run)
    ensures After(spans, Run(rest.outcome, rest.st, more + rest.spans)) == After(spans + more, rest)
    ensures After([], rest) == rest
  {
    assert spans + (more + rest.spans) == (spans + more) + rest.spans;
    assert [] + rest.spans == rest.spans;
  }

  lemma AfterEnd(spans: seq<Span>)
    ensures spans + [] == spans
  {
  }
}
