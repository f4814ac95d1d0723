/**
 The sample queue of k6output/output.go as atomic steps of any number of producers
 and one flusher.  A channel operation, an atomic counter update, a read of the
 context, the emission of one container and the close of flushDone are one step each;
 everything else of a goroutine is private to it.
 */
module SampleQueue {
  import opened Sets

  const MAX_FLUSH_BATCH_SIZE: nat := 1024

  /** A container handed to AddMetricSamples, identified by its producer and its place in that producer's order. */
  datatype Sample = Sample(producer: nat, number: nat)

  /** Where a producer stands in AddMetricSamples and tryPush; held is the number of the sample in its hand. */
  datatype Pc = Idle | Sending | Evicting(held: nat) | CountingEvicted(held: nat) | Retrying(held: nat) | CountingLost

  /** left samples of the current call are still unsent; next numbers the next one. */
  datatype Producer = Producer(pc: Pc, left: nat, next: nat)

  /** Serving and Draining are the two loops of flushLoop; Stopping is after the drain found the queue empty. */
  datatype Flusher = Serving | Draining | Stopping | Closed

  /** batch is what is still to be emitted; flushing says the flusher is inside flush. */
  datatype State = State(
    capacity: nat, queue: seq<Sample>, batch: seq<Sample>, emitted: seq<Sample>,
    drops: nat, discarded: seq<Sample>,
    canceled: bool, flusher: Flusher, flushing: bool, producers: map<nat, Producer>)

  datatype Step =
    | Call(p: nat, count: nat) | Send(p: nat) | Evict(p: nat) | CountEvicted(p: nat) | Retry(p: nat) | CountLost(p: nat)
    | Cancel | Receive | Tick | NoticeCancel | DrainReceive | DrainEmpty | EmitOne | FlushEnd | Close

  predicate Enabled(s: State, step: Step) {
    match step
    case Call(p, _) => p in s.producers && s.producers[p].pc.Idle?
    case Send(p) => p in s.producers && s.producers[p].pc.Sending?
    case Evict(p) => p in s.producers && s.producers[p].pc.Evicting?
    case CountEvicted(p) => p in s.producers && s.producers[p].pc.CountingEvicted?
    case Retry(p) => p in s.producers && s.producers[p].pc.Retrying?
    case CountLost(p) => p in s.producers && s.producers[p].pc.CountingLost?
    case Cancel => true
    case Receive => s.flusher == Serving && !s.flushing && s.queue != []
    case Tick => s.flusher == Serving && !s.flushing
    case NoticeCancel => s.flusher == Serving && !s.flushing && s.canceled
    case DrainReceive => s.flusher == Draining && !s.flushing && s.queue != []
    case DrainEmpty => s.flusher == Draining && !s.flushing && s.queue == []
    case EmitOne => s.flushing && s.batch != []
    case FlushEnd => s.flushing && s.batch == []
    case Close => s.flusher == Stopping && !s.flushing
  }

  function Move(s: State, p: nat, q: Producer): State {
    s.(producers := s.producers[p := q])
  }

  function Emit(s: State): State
    requires s.batch != []
  {
    s.(emitted := s.emitted + [s.batch[0]], batch := s.batch[1..])
  }

  /** The flusher takes the head of the queue into its batch, and flushes when the batch is full. */
  function Take(s: State): State
    requires s.queue != []
  {
    s.(batch := s.batch + [s.queue[0]], queue := s.queue[1..], flushing := |s.batch| + 1 >= MAX_FLUSH_BATCH_SIZE)
  }

  function Apply(s: State, step: Step): State
    requires Enabled(s, step)
  {
    match step
    case Call(p, count) => if s.canceled then s else Move(s, p, s.producers[p].(pc := Sending, left := count))
    case Send(p) =>
      var q := s.producers[p];
      if q.left == 0 then Move(s, p, q.(pc := Idle))
      else if |s.queue| < s.capacity then
        Move(s, p, q.(left := q.left - 1, next := q.next + 1)).(queue := s.queue + [Sample(p, q.next)])
      else Move(s, p, Producer(Evicting(q.next), q.left - 1, q.next + 1))
    case Evict(p) =>
      var q := s.producers[p];
      if s.queue != [] then
        Move(s, p, q.(pc := CountingEvicted(q.pc.held)))
        .(queue := s.queue[1..], discarded := s.discarded + [s.queue[0]])
      else Move(s, p, q.(pc := Retrying(q.pc.held)))
    case CountEvicted(p) =>
      var q := s.producers[p];
      Move(s, p, q.(pc := Retrying(q.pc.held))).(drops := s.drops + 1)
    case Retry(p) =>
      var q := s.producers[p];
      if |s.queue| < s.capacity then
        Move(s, p, q.(pc := Sending)).(queue := s.queue + [Sample(p, q.pc.held)])
      else Move(s, p, q.(pc := CountingLost)).(discarded := s.discarded + [Sample(p, q.pc.held)])
    case CountLost(p) => Move(s, p, s.producers[p].(pc := Sending)).(drops := s.drops + 1)
    case Cancel => s.(canceled := true)
    case Receive => Take(s)
    case Tick => s.(flushing := true)
    case NoticeCancel => s.(flusher := Draining)
    case DrainReceive => Take(s)
    case DrainEmpty => s.(flusher := Stopping, flushing := true)
    case EmitOne => Emit(s)
    case FlushEnd => s.(flushing := false)
    case Close => s.(flusher := Closed)
  }

  predicate Init(s: State) {
    && s.capacity >= 1
    && s.queue == [] && s.batch == [] && s.emitted == [] && s.drops == 0 && s.discarded == []
    && !s.canceled && s.flusher == Serving && !s.flushing
    && forall p | p in s.producers :: s.producers[p] == Producer(Idle, 0, 0)
  }

  /** A run: a state per moment, each obtained from the one before by an enabled step. */
  ghost predicate Execution(ss: seq<State>, steps: seq<Step>) {
    && |ss| == |steps| + 1 && Init(ss[0])
    && forall i | 0 <= i < |steps| :: Enabled(ss[i], steps[i]) && ss[i + 1] == Apply(ss[i], steps[i])
  }

  // ----- What every step keeps

  predicate Holding(q: Producer) {
    q.pc.Evicting? || q.pc.CountingEvicted? || q.pc.Retrying?
  }

  predicate InHand(s: State, x: Sample) {
    x.producer in s.producers && Holding(s.producers[x.producer]) && x.number == s.producers[x.producer].pc.held
  }

  predicate Offered(s: State, x: Sample) {
    x.producer in s.producers && x.number < s.producers[x.producer].next
  }

  function Line(s: State): seq<Sample> {
    s.emitted + s.batch + s.queue
  }

  function Count(xs: seq<Sample>, x: Sample): nat {
    multiset(xs)[x]
  }

  /** An offered sample is in exactly one place: emitted, in the batch, queued, discarded, or in its producer's hand. */
  ghost predicate Conserved(s: State) {
    forall x :: Placed(s, x) == if Offered(s, x) then 1 else 0
  }

  function Placed(s: State, x: Sample): nat {
    Count(s.emitted, x) + Count(s.batch, x) + Count(s.queue, x) + Count(s.discarded, x)
    + (if InHand(s, x) then 1 else 0)
  }

  /** Along emitted, batch and queue each producer's samples keep their order. */
  ghost predicate InOrder(line: seq<Sample>) {
    forall i, j | 0 <= i < j < |line| && line[i].producer == line[j].producer :: line[i].number < line[j].number
  }

  /** Every sample in line has been offered and is older than the one its producer holds. */
  ghost predicate OlderThanHand(s: State) {
    forall i | 0 <= i < |Line(s)| :: Behind(s, Line(s)[i])
  }

  predicate Behind(s: State, x: Sample) {
    && x.producer in s.producers
    && x.number < if Holding(s.producers[x.producer]) then s.producers[x.producer].pc.held else s.producers[x.producer].next
  }

  /** Producers that have discarded a sample and not counted it yet. */
  ghost function Counting(s: State): set<nat> {
    set p | p in s.producers && (s.producers[p].pc.CountingEvicted? || s.producers[p].pc.CountingLost?)
  }

  ghost predicate Bounded(s: State) {
    && s.capacity >= 1 && |s.queue| <= s.capacity
    && |s.batch| <= MAX_FLUSH_BATCH_SIZE && (!s.flushing ==> |s.batch| < MAX_FLUSH_BATCH_SIZE)
    && (s.flusher != Serving ==> s.canceled)
    && (s.flusher == Stopping && !s.flushing ==> s.batch == [])
    && (s.flusher == Closed ==> s.batch == [] && !s.flushing)
    && (forall p | p in s.producers && Holding(s.producers[p]) :: s.producers[p].pc.held + 1 == s.producers[p].next)
  }

  ghost predicate Inv(s: State) {
    && Bounded(s)
    && Conserved(s)
    && InOrder(Line(s)) && OlderThanHand(s)
    && s.drops + |Counting(s)| == |s.discarded|
  }

  lemma CountLast(xs: seq<Sample>, x: Sample, y: Sample)
    ensures Count(xs + [y], x) == Count(xs, x) + (if x == y then 1 else 0)
  {
  }

  lemma CountHead(xs: seq<Sample>, x: Sample)
    requires xs != []
    ensures Count(xs, x) == Count(xs[1..], x) + (if x == xs[0] then 1 else 0)
  {
    assert xs == [xs[0]] + xs[1..];
  }

  lemma EmitKeeps(s: State, x: Sample)
    requires s.batch != []
    ensures Line(Emit(s)) == Line(s) && Placed(Emit(s), x) == Placed(s, x)
  {
    hide Count;
    assert [s.batch[0]] + s.batch[1..] == s.batch;
    CountHead(s.batch, x);
    CountLast(s.emitted, x, s.batch[0]);
  }

  lemma TakeKeeps(s: State, x: Sample)
    requires s.queue != []
    ensures Line(Take(s)) == Line(s) && Placed(Take(s), x) == Placed(s, x)
  {
    hide Count;
    assert [s.queue[0]] + s.queue[1..] == s.queue;
    CountHead(s.queue, x);
    CountLast(s.batch, x, s.queue[0]);
  }

  lemma SendPlaces(s: State, p: nat, x: Sample)
    requires Bounded(s) && Enabled(s, Send(p))
    requires Placed(s, x) == if Offered(s, x) then 1 else 0
    ensures Placed(Apply(s, Send(p)), x) == if Offered(Apply(s, Send(p)), x) then 1 else 0
  {
    hide Count, Take, Emit;
    CountLast(s.queue, x, Sample(p, s.producers[p].next));
  }

  lemma RetryPlaces(s: State, p: nat, x: Sample)
    requires Enabled(s, Retry(p))
    ensures Placed(Apply(s, Retry(p)), x) == Placed(s, x)
    ensures Offered(Apply(s, Retry(p)), x) <==> Offered(s, x)
  {
    hide Count, Take, Emit;
    CountLast(s.queue, x, Sample(p, s.producers[p].pc.held));
    CountLast(s.discarded, x, Sample(p, s.producers[p].pc.held));
  }

  lemma EvictPlaces(s: State, p: nat, x: Sample)
    requires Enabled(s, Evict(p))
    ensures Placed(Apply(s, Evict(p)), x) == Placed(s, x)
    ensures Offered(Apply(s, Evict(p)), x) <==> Offered(s, x)
  {
    hide Count, Take, Emit;
    if s.queue != [] {
      CountHead(s.queue, x);
      CountLast(s.discarded, x, s.queue[0]);
    }
  }

  predicate ByFlusher(step: Step) {
    step.Cancel? || step.Receive? || step.Tick? || step.NoticeCancel? || step.DrainReceive? || step.DrainEmpty?
    || step.EmitOne? || step.FlushEnd? || step.Close?
  }

  /** The flusher moves no producer and takes at most the head of the queue. */
  lemma FlusherStep(s: State, step: Step)
    requires Enabled(s, step) && ByFlusher(step)
    ensures var t := Apply(s, step);
      && t.producers == s.producers && t.capacity == s.capacity
      && (t.queue == s.queue || (s.queue != [] && t.queue == s.queue[1..]))
  {
  }

  /** One step keeps one sample in exactly one place. */
  lemma StepPlaces(s: State, step: Step, x: Sample)
    requires Bounded(s) && Enabled(s, step)
    requires Placed(s, x) == if Offered(s, x) then 1 else 0
    ensures Placed(Apply(s, step), x) == if Offered(Apply(s, step), x) then 1 else 0
  {
    hide Count, Take, Emit, Bounded;
    match step {
      case Send(p) => SendPlaces(s, p, x);
      case Evict(p) => EvictPlaces(s, p, x);
      case Retry(p) => RetryPlaces(s, p, x);
      case Receive =>
        TakeKeeps(s, x);
        FlusherStep(s, step);
      case DrainReceive =>
        TakeKeeps(s, x);
        FlusherStep(s, step);
      case EmitOne =>
        EmitKeeps(s, x);
        FlusherStep(s, step);
      case _ =>
    }
  }

  lemma StepConserves(s: State, step: Step)
    requires Inv(s) && Enabled(s, step)
    ensures Conserved(Apply(s, step))
  {
    forall x
      ensures Placed(Apply(s, step), x) == if Offered(Apply(s, step), x) then 1 else 0
    {
      StepPlaces(s, step, x);
    }
  }

  lemma FlusherOrders(s: State, step: Step)
    requires Inv(s) && Enabled(s, step) && ByFlusher(step)
    ensures InOrder(Line(Apply(s, step))) && OlderThanHand(Apply(s, step))
  {
    hide Bounded, Conserved, InOrder, OlderThanHand, Counting;
    FlusherStep(s, step);
    if step.Receive? || step.DrainReceive? { TakeKeeps(s, s.queue[0]); }
    if step.EmitOne? { EmitKeeps(s, s.batch[0]); }
    SameLine(s, Apply(s, step));
  }

  /** The line grows at its end by a newer sample of the producer, or loses the head of the queue. */
  lemma StepOrders(s: State, step: Step)
    requires Inv(s) && Enabled(s, step)
    ensures InOrder(Line(Apply(s, step))) && OlderThanHand(Apply(s, step))
  {
    hide Conserved, InOrder, OlderThanHand, Counting, Take, Emit;
    var t := Apply(s, step);
    if ByFlusher(step) {
      FlusherOrders(s, step);
    } else if step.Evict? && s.queue != [] {
      LineLoses(s, t);
    } else if step.Send? && s.producers[step.p].left > 0 && |s.queue| < s.capacity {
      LineGrows(s, t, Sample(step.p, s.producers[step.p].next));
    } else if step.Retry? && |s.queue| < s.capacity {
      LineGrows(s, t, Sample(step.p, s.producers[step.p].pc.held));
    } else {
      SameLine(s, t);
    }
  }

  /** Nothing a sample in line is behind has moved closer. */
  ghost predicate KeepsBehind(s: State, t: State) {
    forall x | Behind(s, x) :: Behind(t, x)
  }

  lemma SameLine(s: State, t: State)
    requires Inv(s) && Line(t) == Line(s) && KeepsBehind(s, t)
    ensures InOrder(Line(t)) && OlderThanHand(t)
  {
    forall i | 0 <= i < |Line(t)|
      ensures Behind(t, Line(t)[i])
    {
      assert Behind(s, Line(s)[i]);
    }
  }

  lemma LineLoses(s: State, t: State)
    requires Inv(s) && s.queue != [] && KeepsBehind(s, t)
    requires t.emitted == s.emitted && t.batch == s.batch && t.queue == s.queue[1..]
    ensures InOrder(Line(t)) && OlderThanHand(t)
  {
    var k := |s.emitted + s.batch|;
    assert forall i | 0 <= i < |Line(t)| :: Line(t)[i] == Line(s)[if i < k then i else i + 1];
    forall i | 0 <= i < |Line(t)|
      ensures Behind(t, Line(t)[i])
    {
      assert Behind(s, Line(s)[if i < k then i else i + 1]);
    }
  }

  lemma LineGrows(s: State, t: State, x: Sample)
    requires Inv(s) && KeepsBehind(s, t)
    requires t.emitted == s.emitted && t.batch == s.batch && t.queue == s.queue + [x]
    requires Behind(t, x)
    requires forall y | Behind(s, y) && y.producer == x.producer :: y.number < x.number
    ensures InOrder(Line(t)) && OlderThanHand(t)
  {
    assert Line(t) == Line(s) + [x];
    forall i | 0 <= i < |Line(s)|
      ensures Behind(s, Line(s)[i]) && Behind(t, Line(s)[i])
    {
    }
  }

  lemma StepCounts(s: State, step: Step)
    requires Inv(s) && Enabled(s, step)
    ensures var t := Apply(s, step); t.drops + |Counting(t)| == |t.discarded|
  {
    hide Bounded, Conserved, InOrder, OlderThanHand;
    var t := Apply(s, step);
    if ByFlusher(step) {
      FlusherStep(s, step);
      assert Counting(t) == Counting(s);
    } else {
      CountingChanges(s, t, step.p);
    }
  }

  /** Moving one producer changes the set of uncounted discards by that producer at most. */
  lemma CountingChanges(s: State, t: State, p: nat)
    requires p in s.producers && p in t.producers && t.producers == s.producers[p := t.producers[p]]
    ensures |Counting(t)| == |Counting(s)| + (if p in Counting(t) then 1 else 0) - (if p in Counting(s) then 1 else 0)
  {
    assert Counting(s) - {p} == Counting(t) - {p};
    OneMoved(Counting(s), Counting(t), p);
  }

  lemma StepBounds(s: State, step: Step)
    requires Inv(s) && Enabled(s, step)
    ensures Bounded(Apply(s, step))
  {
    hide Conserved, InOrder, OlderThanHand, Counting;
    if ByFlusher(step) {
      FlusherStep(s, step);
    } else {
      hide Take, Emit;
      assert Apply(s, step).batch == s.batch;
    }
  }

  lemma StepInv(s: State, step: Step)
    requires Inv(s) && Enabled(s, step)
    ensures Inv(Apply(s, step))
  {
    StepBounds(s, step);
    StepConserves(s, step);
    StepOrders(s, step);
    StepCounts(s, step);
  }

  lemma InitInv(s: State)
    requires Init(s)
    ensures Inv(s)
  {
    assert Counting(s) == {};
  }

  /** The invariant holds at every moment of every run. */
  lemma {:induction false} AlwaysInv(ss: seq<State>, steps: seq<Step>, i: nat)
    requires Execution(ss, steps) && i < |ss|
    ensures Inv(ss[i])
  {
    hide Inv;
    if i == 0 {
      InitInv(ss[0]);
    } else {
      AlwaysInv(ss, steps, i - 1);
      StepInv(ss[i - 1], steps[i - 1]);
    }
  }

  /** Conservation, order, exact drop counts and bounds, at every moment of every interleaving. */
  lemma EveryMoment(ss: seq<State>, steps: seq<Step>, i: nat, x: Sample)
    requires Execution(ss, steps) && i < |ss|
    ensures Count(ss[i].emitted, x) + Count(ss[i].batch, x) + Count(ss[i].queue, x) + Count(ss[i].discarded, x)
            + (if InHand(ss[i], x) then 1 else 0)
         == (if Offered(ss[i], x) then 1 else 0)
    ensures InOrder(ss[i].emitted + ss[i].batch + ss[i].queue)
    ensures ss[i].drops + |Counting(ss[i])| == |ss[i].discarded|
    ensures |ss[i].queue| <= ss[i].capacity
    ensures |ss[i].batch| < if ss[i].flushing then MAX_FLUSH_BATCH_SIZE + 1 else MAX_FLUSH_BATCH_SIZE
  {
    AlwaysInv(ss, steps, i);
    assert Placed(ss[i], x) == if Offered(ss[i], x) then 1 else 0;
  }

  // ----- Calls and flushes

  lemma CallGoesOn(s: State, step: Step, p: nat)
    requires Enabled(s, step) && p in s.producers && !s.producers[p].pc.Idle?
    ensures p in Apply(s, step).producers
    ensures var q, r := s.producers[p], Apply(s, step).producers[p];
            r.next + r.left == q.next + q.left && (r.pc.Idle? ==> r.left == 0)
  {
  }

  /** A call offers its samples one by one, and all of them before it returns; once the output is canceled it offers none. */
  lemma {:induction false} CallOffersAll(ss: seq<State>, steps: seq<Step>, i: nat, j: nat, p: nat, count: nat)
    requires Execution(ss, steps) && i < j < |ss| && steps[i] == Call(p, count)
    requires forall k | i < k < j :: p in ss[k].producers && !ss[k].producers[p].pc.Idle?
    ensures p in ss[i].producers && p in ss[j].producers
    ensures if ss[i].canceled then j == i + 1 && ss[j].producers[p] == ss[i].producers[p]
            else
              var q := ss[j].producers[p];
              q.next + q.left == ss[i].producers[p].next + count && (q.pc.Idle? ==> q.next == ss[i].producers[p].next + count)
    decreases j
  {
    hide Apply, Enabled;
    if j == i + 1 {
      CallStarts(ss[i], p, count);
    } else {
      CallOffersAll(ss, steps, i, j - 1, p, count);
      if ss[i].canceled {
        CallStarts(ss[i], p, count);
      } else {
        CallGoesOn(ss[j - 1], steps[j - 1], p);
      }
    }
  }

  lemma CallStarts(s: State, p: nat, count: nat)
    requires Enabled(s, Call(p, count))
    ensures p in s.producers && s.producers[p].pc.Idle?
    ensures Apply(s, Call(p, count)) == if s.canceled then s
            else s.(producers := s.producers[p := Producer(Sending, count, s.producers[p].next)])
  {
  }

  /** A flush begins at a tick, at the end of the drain, and when the batch is full. */
  lemma FlushStarts(ss: seq<State>, steps: seq<Step>, i: nat)
    requires Execution(ss, steps) && i < |steps|
    ensures !ss[i].flushing && ss[i + 1].flushing
       <==> steps[i] in {Tick, DrainEmpty} || (steps[i] in {Receive, DrainReceive} && |ss[i].batch| + 1 >= 1024)
  {
    assert Enabled(ss[i], steps[i]);
  }

  /** From its beginning to its end a flush emits the batch, in order, and nothing else. */
  lemma {:induction false} FlushEmits(ss: seq<State>, steps: seq<Step>, i: nat, j: nat)
    requires Execution(ss, steps) && i <= j < |ss| && forall k | i <= k < j :: ss[k].flushing
    ensures ss[j].emitted + ss[j].batch == ss[i].emitted + ss[i].batch
    ensures i < j && !ss[j].flushing ==> ss[j].batch == [] && ss[j].emitted == ss[i].emitted + ss[i].batch
    decreases j
  {
    if i < j {
      FlushEmits(ss, steps, i, j - 1);
      FlushKeeps(ss[j - 1], steps[j - 1]);
    }
  }

  lemma FlushKeeps(s: State, step: Step)
    requires s.flushing && Enabled(s, step)
    ensures var t := Apply(s, step); t.emitted + t.batch == s.emitted + s.batch && (!t.flushing ==> t.batch == [])
  {
  }

  // ----- One producer

  /** The first number not in the queue or before it. */
  function Top(q: Producer): nat {
    if Holding(q) then q.pc.held else q.next
  }

  /** With a single producer the queue is the newest run of its samples, and an eviction always makes room. */
  ghost predicate SoleInv(s: State, p: nat) {
    && s.producers.Keys == {p}
    && !s.producers[p].pc.CountingLost?
    && (s.producers[p].pc.CountingEvicted? || s.producers[p].pc.Retrying? ==> |s.queue| < s.capacity)
    && |s.queue| <= Top(s.producers[p])
    && forall i | 0 <= i < |s.queue| :: s.queue[i] == Sample(p, Top(s.producers[p]) - |s.queue| + i)
  }

  lemma SoleStep(s: State, step: Step, p: nat)
    requires Bounded(s) && SoleInv(s, p) && Enabled(s, step)
    ensures SoleInv(Apply(s, step), p)
  {
    if ByFlusher(step) {
      hide Apply;
      FlusherStep(s, step);
    } else {
      hide Take, Emit;
      SolePush(s, step, p);
    }
  }

  lemma SolePush(s: State, step: Step, p: nat)
    requires Bounded(s) && SoleInv(s, p) && Enabled(s, step) && !ByFlusher(step)
    ensures SoleInv(Apply(s, step), p)
  {
    hide Take, Emit;
    var t := Apply(s, step);
    assert step.p == p;
    assert t.producers.Keys == {p};
  }

  lemma SoleInit(s: State, p: nat)
    requires Init(s) && s.producers.Keys == {p}
    ensures SoleInv(s, p)
  {
  }

  lemma InvBounds(s: State)
    requires Inv(s)
    ensures Bounded(s)
  {
  }

  lemma SoleRetry(s: State, p: nat)
    requires SoleInv(s, p) && Enabled(s, Retry(p))
    ensures Apply(s, Retry(p)).queue == s.queue + [Sample(p, s.producers[p].pc.held)]
  {
  }

  /** A lone producer's push never fails: the queue always ends in its newest sample, older ones make way. */
  lemma {:induction false} SoleProducer(ss: seq<State>, steps: seq<Step>, i: nat, p: nat)
    requires Execution(ss, steps) && i < |ss| && ss[0].producers.Keys == {p}
    ensures SoleInv(ss[i], p)
    ensures i < |steps| && steps[i] == Retry(p) ==> ss[i + 1].queue == ss[i].queue + [Sample(p, ss[i].producers[p].pc.held)]
  {
    hide Inv, Bounded, SoleInv;
    if i == 0 {
      SoleInit(ss[0], p);
    } else {
      SoleProducer(ss, steps, i - 1, p);
      AlwaysInv(ss, steps, i - 1);
      InvBounds(ss[i - 1]);
      SoleStep(ss[i - 1], steps[i - 1], p);
    }
    if i < |steps| && steps[i] == Retry(p) { SoleRetry(ss[i], p); }
  }

  // ----- Shutdown

  /** A producer in the middle of a call that still has a sample to push. */
  predicate CanPush(q: Producer) {
    Holding(q) || ((q.pc.Sending? || q.pc.CountingLost?) && q.left > 0)
  }

  /** What holds in s ever after the drain's last look, which left state c with an empty queue. */
  ghost predicate AfterLook(c: State, s: State) {
    && s.canceled && (s.flusher == Stopping || s.flusher == Closed)
    && s.emitted + s.batch == c.emitted + c.batch
    && s.producers.Keys == c.producers.Keys
    && (forall p | p in c.producers && !CanPush(c.producers[p]) ::
          !CanPush(s.producers[p]) && s.producers[p].next == c.producers[p].next)
    && (forall x | x in s.queue :: x.producer in c.producers && CanPush(c.producers[x.producer]))
  }

  lemma LookStep(c: State, s: State, step: Step)
    requires AfterLook(c, s) && Enabled(s, step)
    ensures AfterLook(c, Apply(s, step))
  {
    if ByFlusher(step) {
      FlusherStep(s, step);
      if step.EmitOne? { assert [s.batch[0]] + s.batch[1..] == s.batch; }
    } else {
      hide Take, Emit;
      assert CanPush(s.producers[step.p]) ==> CanPush(c.producers[step.p]);
    }
  }

  /** Any further steps from c, by anybody. */
  ghost predicate Continues(c: State, ss: seq<State>, steps: seq<Step>) {
    && |ss| == |steps| + 1 && ss[0] == c
    && forall i | 0 <= i < |steps| :: Enabled(ss[i], steps[i]) && ss[i + 1] == Apply(ss[i], steps[i])
  }

  lemma {:induction false} LookKept(c: State, ss: seq<State>, steps: seq<Step>, j: nat)
    requires AfterLook(c, c) && Continues(c, ss, steps) && j < |ss|
    ensures AfterLook(c, ss[j])
  {
    hide Enabled, Apply, AfterLook;
    if j > 0 {
      LookKept(c, ss, steps, j - 1);
      LookStep(c, ss[j - 1], steps[j - 1]);
    }
  }

  lemma LookHolds(ss: seq<State>, steps: seq<Step>, i: nat)
    requires Execution(ss, steps) && i < |steps| && steps[i] == DrainEmpty
    ensures Inv(ss[i + 1]) && ss[i + 1].queue == [] && AfterLook(ss[i + 1], ss[i + 1])
  {
    hide Conserved, InOrder, OlderThanHand, Counting;
    AlwaysInv(ss, steps, i);
    AlwaysInv(ss, steps, i + 1);
    assert Enabled(ss[i], steps[i]) && ss[i + 1] == Apply(ss[i], steps[i]);
  }

  /** Whatever is in the queue after the last look was pushed by a producer that still could push then. */
  lemma StrandedOnlyInFlight(ss: seq<State>, steps: seq<Step>, i: nat, j: nat)
    requires Execution(ss, steps) && i < |steps| && steps[i] == DrainEmpty && i < j < |ss|
    ensures AfterLook(ss[i + 1], ss[j])
  {
    hide AfterLook, Apply, Enabled;
    LookHolds(ss, steps, i);
    var later, laterSteps := ss[i + 1..], steps[i + 1..];
    forall k | 0 <= k < |laterSteps|
      ensures Enabled(later[k], laterSteps[k]) && later[k + 1] == Apply(later[k], laterSteps[k])
    {
      assert Enabled(ss[i + 1 + k], steps[i + 1 + k]);
    }
    LookKept(ss[i + 1], later, laterSteps, j - i - 1);
  }

  /** A producer that can still push fills the empty queue within two steps of its own. */
  lemma Fills(c: State, p: nat) returns (ss: seq<State>, steps: seq<Step>)
    requires c.queue == [] && c.capacity >= 1 && p in c.producers && CanPush(c.producers[p])
    ensures Continues(c, ss, steps) && ss[|ss| - 1].queue != []
  {
    match c.producers[p].pc {
      case Sending => steps := [Send(p)];
      case Retrying(_) => steps := [Retry(p)];
      case Evicting(_) => steps := [Evict(p), Retry(p)];
      case CountingEvicted(_) => steps := [CountEvicted(p), Retry(p)];
      case CountingLost => steps := [CountLost(p), Send(p)];
    }
    var c1 := Apply(c, steps[0]);
    ss := if |steps| == 1 then [c, c1] else [c, c1, Apply(c1, steps[1])];
  }

  ghost predicate NeverFilled(ss: seq<State>) {
    forall j | 0 <= j < |ss| :: ss[j].queue == []
  }

  predicate NoneCanPush(c: State) {
    forall p | p in c.producers :: !CanPush(c.producers[p])
  }

  ghost predicate QueueIsSafe(c: State) {
    forall ss, steps | Continues(c, ss, steps) :: NeverFilled(ss)
  }

  /** After the last look the queue is sure to stay empty exactly when no producer could still push at that moment. */
  lemma StaysEmptyIff(ss: seq<State>, steps: seq<Step>, i: nat)
    requires Execution(ss, steps) && i < |steps| && steps[i] == DrainEmpty
    ensures QueueIsSafe(ss[i + 1]) <==> NoneCanPush(ss[i + 1])
  {
    hide Enabled, Apply, CanPush, Conserved, InOrder, OlderThanHand, Counting;
    var c := ss[i + 1];
    LookHolds(ss, steps, i);
    if p :| p in c.producers && CanPush(c.producers[p]) {
      var ts, us := Fills(c, p);
      assert Continues(c, ts, us) && !NeverFilled(ts);
    } else {
      forall ts: seq<State>, us: seq<Step> | Continues(c, ts, us)
        ensures NeverFilled(ts)
      {
        forall j | 0 <= j < |ts|
          ensures ts[j].queue == []
        {
          LookKept(c, ts, us, j);
          NothingIn(ts[j].queue);
        }
      }
    }
  }

  lemma NothingIn(q: seq<Sample>)
    ensures q != [] ==> exists x :: x in q
  {
    if q != [] { assert q[0] in q; }
  }

  /** If no producer could, every offered sample ends up emitted or discarded, and each discard gets counted. */
  lemma CleanShutdown(ss: seq<State>, steps: seq<Step>, i: nat, j: nat, x: Sample)
    requires Execution(ss, steps) && i < |steps| && steps[i] == DrainEmpty && i < j < |ss|
    requires forall p | p in ss[i].producers :: !CanPush(ss[i].producers[p])
    ensures ss[j].queue == [] && (ss[j].flusher == Closed ==> ss[j].batch == [])
    ensures Offered(ss[j], x) <==> Offered(ss[i], x)
    ensures Offered(ss[j], x) ==> Count(ss[j].emitted, x) + Count(ss[j].batch, x) + Count(ss[j].discarded, x) == 1
    ensures ss[j].drops + |Counting(ss[j])| == |ss[j].discarded|
  {
    assert Enabled(ss[i], steps[i]) && ss[i + 1] == Apply(ss[i], steps[i]);
    StrandedOnlyInFlight(ss, steps, i, j);
    AlwaysInv(ss, steps, j);
    NothingIn(ss[j].queue);
    assert Placed(ss[j], x) == if Offered(ss[j], x) then 1 else 0;
    assert !InHand(ss[j], x);
  }

  /** At rest after the close, the samples neither emitted nor counted are exactly those left in the queue. */
  lemma FinalAccount(ss: seq<State>, steps: seq<Step>, j: nat, x: Sample)
    requires Execution(ss, steps) && j < |ss| && ss[j].flusher == Closed
    requires forall p | p in ss[j].producers :: ss[j].producers[p].pc.Idle?
    ensures Offered(ss[j], x) ==>
              Count(ss[j].emitted, x) + Count(ss[j].discarded, x) == (if x in ss[j].queue then 0 else 1)
    ensures ss[j].drops == |ss[j].discarded|
  {
    AlwaysInv(ss, steps, j);
    assert Placed(ss[j], x) == if Offered(ss[j], x) then 1 else 0;
    assert Counting(ss[j]) == {};
    assert x in ss[j].queue <==> Count(ss[j].queue, x) > 0;
  }

  lemma Extend(ss: seq<State>, steps: seq<Step>, step: Step) returns (ss': seq<State>, steps': seq<Step>)
    requires Execution(ss, steps) && Enabled(ss[|ss| - 1], step)
    ensures Execution(ss', steps') && ss' == ss + [Apply(ss[|ss| - 1], step)] && steps' == steps + [step]
  {
    ss', steps' := ss + [Apply(ss[|ss| - 1], step)], steps + [step];
  }

  /** A call that passed its context check before the cancel is about to push when the drain has looked for the last time. */
  lemma LateCall(capacity: nat) returns (ss: seq<State>, steps: seq<Step>)
    requires capacity >= 1
    ensures Execution(ss, steps)
    ensures ss[|ss| - 1] == State(capacity, [], [], [], 0, [], true, Stopping, true, map[0 := Producer(Sending, 1, 0)])
  {
    ss, steps := [State(capacity, [], [], [], 0, [], false, Serving, false, map[0 := Producer(Idle, 0, 0)])], [];
    assert Execution(ss, steps);
    hide Execution;
    ss, steps := Extend(ss, steps, Call(0, 1));
    ss, steps := Extend(ss, steps, Cancel);
    ss, steps := Extend(ss, steps, NoticeCancel);
    ss, steps := Extend(ss, steps, DrainEmpty);
  }

  /** A push between the last look and the close strands its sample although every producer is idle at the close. */
  lemma StrandedSample(capacity: nat) returns (ss: seq<State>, steps: seq<Step>)
    requires capacity >= 1
    ensures Execution(ss, steps) && |steps| > 0 && steps[|steps| - 1] == Close
    ensures var last := ss[|ss| - 1];
      && last.flusher == Closed && last.drops == 0 && last.emitted == []
      && last.queue == [Sample(0, 0)] && last.producers == map[0 := Producer(Idle, 0, 1)]
    ensures ss[|ss| - 2].producers == map[0 := Producer(Idle, 0, 1)] && ss[|ss| - 2].queue == [Sample(0, 0)]
  {
    hide Execution;
    ss, steps := LateCall(capacity);
    ss, steps := Extend(ss, steps, Send(0));
    ss, steps := Extend(ss, steps, Send(0));
    ss, steps := Extend(ss, steps, FlushEnd);
    assert ss[|ss| - 1] == State(capacity, [Sample(0, 0)], [], [], 0, [], true, Stopping, false, map[0 := Producer(Idle, 0, 1)]);
    ss, steps := Extend(ss, steps, Close);
  }

  // ----- The code between interferences, in place

  /** The last capacity elements. */
  function Newest(xs: seq<Sample>, capacity: nat): seq<Sample> {
    if |xs| <= capacity then xs else xs[|xs| - capacity..]
  }

  /** One goroutine's view: AddMetricSamples undisturbed, and the final drain of flushLoop. */
  class Output {
    const capacity: nat
    var queue: seq<Sample>
    var batch: seq<Sample>
    var emitted: seq<Sample>
    var drops: nat
    var canceled: bool

    ghost predicate Valid()
      reads this
    {
      |queue| <= capacity && |batch| < MAX_FLUSH_BATCH_SIZE
    }

    constructor (capacity: nat)
      ensures Valid() && queue == [] && batch == [] && emitted == [] && drops == 0 && this.capacity == capacity && !canceled
    {
      this.capacity := capacity;
      queue, batch, emitted, drops, canceled := [], [], [], 0, false;
    }

    /** Undisturbed, a push into a buffered queue succeeds and costs at most the oldest queued sample. */
    method TryPush(x: Sample) returns (ok: bool)
      requires Valid()
      modifies this`queue, this`drops
      ensures Valid() && (ok <==> capacity > 0)
      ensures queue == Newest(old(queue) + [x], capacity)
      ensures drops + (if ok then 0 else 1) == old(drops) + |old(queue)| + 1 - |queue|
    {
      if |queue| < capacity {
        queue := queue + [x];
        return true;
      }
      if |queue| > 0 {
        queue := queue[1..];
        drops := drops + 1;
      }
      if |queue| < capacity {
        queue := queue + [x];
        return true;
      }
      return false;
    }

    /** Once canceled, nothing is taken; before, the queue ends up with the newest samples overall and every other one is counted. */
    method AddMetricSamples(samples: seq<Sample>)
      requires Valid()
      modifies this`queue, this`drops
      ensures Valid()
      ensures canceled ==> queue == old(queue) && drops == old(drops)
      ensures !canceled ==> queue == Newest(old(queue) + samples, capacity)
      ensures !canceled ==> drops == old(drops) + |old(queue)| + |samples| - |queue|
    {
      if canceled { return; }
      assert old(queue) + samples[..0] == old(queue);
      for i := 0 to |samples|
        invariant Valid()
        invariant queue == Newest(old(queue) + samples[..i], capacity)
        invariant drops == old(drops) + |old(queue)| + i - |queue|
      {
        assert (old(queue) + samples[..i]) + [samples[i]] == old(queue) + samples[..i + 1];
        NewestAgain(old(queue) + samples[..i], samples[i], capacity);
        var ok := TryPush(samples[i]);
        if !ok { drops := drops + 1; }
      }
      assert samples[..|samples|] == samples;
    }

    method FlushBatch()
      modifies this`batch, this`emitted
      ensures emitted == old(emitted) + old(batch) && batch == []
    {
      var i := 0;
      while i < |batch|
        invariant i <= |batch| && batch == old(batch)
        invariant emitted == old(emitted) + old(batch)[..i]
      {
        emitted := emitted + [batch[i]];
        i := i + 1;
      }
      batch := [];
    }

    /** The drain after ctx.Done: everything pending is emitted in order, in batches. */
    method DrainAndFlush()
      requires Valid()
      modifies this`queue, this`batch, this`emitted
      ensures Valid() && queue == [] && batch == []
      ensures emitted == old(emitted) + old(batch) + old(queue)
    {
      while |queue| > 0
        invariant Valid()
        invariant emitted + batch + queue == old(emitted) + old(batch) + old(queue)
        decreases |queue|
      {
        ghost var line := emitted + batch + queue;
        batch := batch + [queue[0]];
        queue := queue[1..];
        assert emitted + batch + queue == line;
        if |batch| >= MAX_FLUSH_BATCH_SIZE { FlushBatch(); }
        assert emitted + batch + queue == line;
      }
      FlushBatch();
    }
  }

  lemma NewestAgain(xs: seq<Sample>, x: Sample, capacity: nat)
    ensures Newest(Newest(xs, capacity) + [x], capacity) == Newest(xs + [x], capacity)
  {
  }
}
