/**
 BeginSpan and its finish closure in synth/synthesizer.go: a compare-and-swap lets
 one caller of the closure end the span and take back the active-request count,
 whatever other goroutines do and however often the closure is called.
 */
module SpanFinish {
  import opened Sets

  /** attrs is the attribute set the up-down counter is kept under; counted says the span is a counted server span. */
  datatype Span = Span(attrs: nat, counted: bool, begun: bool, finished: bool, ended: nat, released: bool)

  datatype Thread = Idle | Beginning(span: nat) | Calling(span: nat) | Ending(span: nat) | Releasing(span: nat)

  datatype State = State(spans: map<nat, Span>, threads: map<nat, Thread>, active: map<nat, int>)

  datatype Step =
    | Start(t: nat, id: nat, attrs: nat, counted: bool)
    | Increment(t: nat) | Call(t: nat, id: nat) | CompareAndSwap(t: nat) | End(t: nat) | Decrement(t: nat)

  function Active(s: State, attrs: nat): int {
    if attrs in s.active then s.active[attrs] else 0
  }

  predicate Enabled(s: State, step: Step) {
    && step.t in s.threads
    && match step
       case Start(t, id, _, _) => s.threads[t].Idle? && id !in s.spans
       case Increment(t) => s.threads[t].Beginning? && s.threads[t].span in s.spans
       case Call(t, id) => s.threads[t].Idle? && id in s.spans && s.spans[id].begun
       case CompareAndSwap(t) => s.threads[t].Calling? && s.threads[t].span in s.spans
       case End(t) => s.threads[t].Ending? && s.threads[t].span in s.spans
       case Decrement(t) => s.threads[t].Releasing? && s.threads[t].span in s.spans
  }

  function Move(s: State, t: nat, thread: Thread): State {
    s.(threads := s.threads[t := thread])
  }

  function Put(s: State, id: nat, span: Span): State {
    s.(spans := s.spans[id := span])
  }

  /** maybeIncActive: only counted spans touch the counter. */
  function MaybeInc(s: State, span: Span, delta: int): State {
    if span.counted then s.(active := s.active[span.attrs := Active(s, span.attrs) + delta]) else s
  }

  function Apply(s: State, step: Step): State
    requires Enabled(s, step)
  {
    match step
    case Start(t, id, attrs, counted) => Put(Move(s, t, Beginning(id)), id, Span(attrs, counted, false, false, 0, false))
    case Increment(t) =>
      var id := s.threads[t].span;
      MaybeInc(Put(Move(s, t, Idle), id, s.spans[id].(begun := true)), s.spans[id], 1)
    case Call(t, id) => Move(s, t, Calling(id))
    case CompareAndSwap(t) =>
      var id := s.threads[t].span;
      if s.spans[id].finished then Move(s, t, Idle)
      else Put(Move(s, t, Ending(id)), id, s.spans[id].(finished := true))
    case End(t) =>
      var id := s.threads[t].span;
      Put(Move(s, t, Releasing(id)), id, s.spans[id].(ended := s.spans[id].ended + 1))
    case Decrement(t) =>
      var id := s.threads[t].span;
      MaybeInc(Put(Move(s, t, Idle), id, s.spans[id].(released := true)), s.spans[id], -1)
  }

  predicate Init(s: State) {
    s.spans == map[] && s.active == map[] && forall t | t in s.threads :: s.threads[t].Idle?
  }

  ghost predicate Execution(ss: seq<State>, steps: seq<Step>) {
    && |ss| == |steps| + 1 && Init(ss[0])
    && forall i | 0 <= i < |steps| :: Enabled(ss[i], steps[i]) && ss[i + 1] == Apply(ss[i], steps[i])
  }

  /** The counted spans under attrs whose increment is not yet taken back. */
  ghost function Held(s: State, attrs: nat): set<nat> {
    set id | id in s.spans && s.spans[id].attrs == attrs && s.spans[id].counted && s.spans[id].begun && !s.spans[id].released
  }

  /** What a thread at work knows of its span, and that no other thread is at the same work. */
  ghost predicate ThreadOk(s: State, t: nat)
    requires t in s.threads
  {
    match s.threads[t]
    case Idle => true
    case Beginning(id) => id in s.spans && !s.spans[id].begun && !s.spans[id].finished && !s.spans[id].released
    case Calling(id) => id in s.spans && s.spans[id].begun
    case Ending(id) => id in s.spans && s.spans[id].begun && s.spans[id].finished && s.spans[id].ended == 0 && !s.spans[id].released
    case Releasing(id) => id in s.spans && s.spans[id].begun && s.spans[id].finished && s.spans[id].ended == 1 && !s.spans[id].released
  }

  predicate Working(th: Thread, id: nat) {
    th == Beginning(id) || th == Ending(id) || th == Releasing(id)
  }

  ghost predicate Inv(s: State) {
    && (forall t | t in s.threads :: ThreadOk(s, t))
    && (forall t, u, id | t in s.threads && u in s.threads && Working(s.threads[t], id) && Working(s.threads[u], id) :: t == u)
    && (forall id | id in s.spans :: SpanOk(s, id))
    && (forall attrs :: Active(s, attrs) == |Held(s, attrs)|)
  }

  /** An unfinished begun span is untouched; a finished one is being ended by somebody or completely ended. */
  ghost predicate SpanOk(s: State, id: nat)
    requires id in s.spans
  {
    var span := s.spans[id];
    && (!span.begun ==> exists t :: t in s.threads && s.threads[t] == Beginning(id))
    && (!span.finished ==> span.ended == 0 && !span.released)
    && (span.finished ==>
          || (span.ended == 1 && span.released)
          || exists t :: t in s.threads && (s.threads[t] == Ending(id) || s.threads[t] == Releasing(id)))
  }

  lemma HeldPut(s: State, s': State, id: nat, attrs: nat)
    requires id in s'.spans && s'.spans == s.spans[id := s'.spans[id]]
    ensures |Held(s', attrs)|
         == |Held(s, attrs)| + (if id in Held(s', attrs) then 1 else 0) - (if id in Held(s, attrs) then 1 else 0)
  {
    assert Held(s, attrs) - {id} == Held(s', attrs) - {id};
    OneMoved(Held(s, attrs), Held(s', attrs), id);
  }

  lemma StepActive(s: State, step: Step)
    requires Inv(s) && Enabled(s, step)
    ensures forall attrs :: Active(Apply(s, step), attrs) == |Held(Apply(s, step), attrs)|
  {
    hide SpanOk;
    var s' := Apply(s, step);
    assert ThreadOk(s, step.t);
    forall attrs
      ensures Active(s', attrs) == |Held(s', attrs)|
    {
      match step {
        case Start(t, id, _, _) => HeldPut(s, s', id, attrs);
        case Increment(t) => HeldPut(s, s', s.threads[t].span, attrs);
        case Call(t, id) => assert Held(s', attrs) == Held(s, attrs);
        case CompareAndSwap(t) => HeldPut(s, s', s.threads[t].span, attrs);
        case End(t) => HeldPut(s, s', s.threads[t].span, attrs);
        case Decrement(t) => HeldPut(s, s', s.threads[t].span, attrs);
      }
    }
  }

  lemma StepThreads(s: State, step: Step)
    requires Inv(s) && Enabled(s, step)
    ensures forall t | t in Apply(s, step).threads :: ThreadOk(Apply(s, step), t)
    ensures var s' := Apply(s, step);
            forall t, u, id | t in s'.threads && u in s'.threads && Working(s'.threads[t], id) && Working(s'.threads[u], id) :: t == u
  {
    hide Held;
    var s' := Apply(s, step);
    assert ThreadOk(s, step.t);
    forall t | t in s'.threads
      ensures ThreadOk(s', t)
    {
      assert ThreadOk(s, t);
      if t != step.t && !s.threads[t].Idle? && !s.threads[step.t].Idle? {
        var id := s.threads[t].span;
        assert !(Working(s.threads[t], id) && Working(s.threads[step.t], id));
        assert SpanOk(s, id);
      }
    }
  }

  lemma StepSpans(s: State, step: Step)
    requires Inv(s) && Enabled(s, step)
    ensures forall id | id in Apply(s, step).spans :: SpanOk(Apply(s, step), id)
  {
    hide Held;
    var s' := Apply(s, step);
    assert ThreadOk(s, step.t);
    assert s'.threads == s.threads[step.t := s'.threads[step.t]];
    forall id | id in s'.spans
      ensures SpanOk(s', id)
    {
      if id in s.spans {
        assert SpanOk(s, id);
        if !s.spans[id].begun {
          var t :| t in s.threads && s.threads[t] == Beginning(id);
          assert t != step.t ==> s'.threads[t] == Beginning(id);
        }
        if s.spans[id].finished && !(s.spans[id].ended == 1 && s.spans[id].released) {
          var t :| t in s.threads && (s.threads[t] == Ending(id) || s.threads[t] == Releasing(id));
          assert t != step.t ==> s'.threads[t] == s.threads[t];
          assert ThreadOk(s, t);
        }
      }
      assert s'.threads[step.t] == s'.threads[step.t];
    }
  }

  lemma {:induction false} AlwaysInv(ss: seq<State>, steps: seq<Step>, i: nat)
    requires Execution(ss, steps) && i < |ss|
    ensures Inv(ss[i])
  {
    hide ThreadOk, SpanOk;
    if i == 0 {
      forall attrs
        ensures Held(ss[0], attrs) == {}
      {
      }
      IdleOk(ss[0]);
    } else {
      AlwaysInv(ss, steps, i - 1);
      StepActive(ss[i - 1], steps[i - 1]);
      StepThreads(ss[i - 1], steps[i - 1]);
      StepSpans(ss[i - 1], steps[i - 1]);
    }
  }

  lemma IdleOk(s: State)
    ensures forall t | t in s.threads && s.threads[t].Idle? :: ThreadOk(s, t)
  {
  }

  /** At rest with every closure called, each span has ended exactly once and every gauge is back where it started. */
  lemma AllFinished(ss: seq<State>, steps: seq<Step>, i: nat)
    requires Execution(ss, steps) && i < |ss|
    requires forall t | t in ss[i].threads :: ss[i].threads[t].Idle?
    requires forall id | id in ss[i].spans :: ss[i].spans[id].finished
    ensures forall id | id in ss[i].spans :: ss[i].spans[id].ended == 1
    ensures forall attrs :: Active(ss[i], attrs) == 0
  {
    AlwaysInv(ss, steps, i);
    forall id | id in ss[i].spans
      ensures ss[i].spans[id].ended == 1 && ss[i].spans[id].released
    {
      assert SpanOk(ss[i], id);
    }
    forall attrs
      ensures Active(ss[i], attrs) == 0
    {
      assert Held(ss[i], attrs) == {};
    }
  }

  /** A call made once the span is finished finds the flag set and changes nothing but its own program counter. */
  lemma RepeatedFinish(ss: seq<State>, steps: seq<Step>, i: nat)
    requires Execution(ss, steps) && i < |steps| && steps[i].CompareAndSwap?
    requires ss[i].spans[ss[i].threads[steps[i].t].span].finished
    ensures ss[i + 1].spans == ss[i].spans && ss[i + 1].active == ss[i].active
    ensures ss[i + 1].threads == ss[i].threads[steps[i].t := Idle]
  {
    assert Enabled(ss[i], steps[i]);
  }

  /** At any moment no span has ended twice, and no gauge is below zero. */
  lemma NeverTwice(ss: seq<State>, steps: seq<Step>, i: nat)
    requires Execution(ss, steps) && i < |ss|
    ensures forall id | id in ss[i].spans :: ss[i].spans[id].ended <= 1
    ensures forall attrs :: Active(ss[i], attrs) >= 0
  {
    AlwaysInv(ss, steps, i);
    forall id | id in ss[i].spans
      ensures ss[i].spans[id].ended <= 1
    {
      assert SpanOk(ss[i], id);
      if ss[i].spans[id].finished && ss[i].spans[id].ended != 1 {
        var t :| t in ss[i].threads && (ss[i].threads[t] == Ending(id) || ss[i].threads[t] == Releasing(id));
        assert ThreadOk(ss[i], t);
      }
    }
  }
}
