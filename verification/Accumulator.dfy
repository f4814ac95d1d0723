/**
 ObservableState of synth/observable.go: a map of cells filled by LoadOrStore and
 updated by a compare-and-swap loop, under any interleaving of any number of
 goroutines.  Deltas and values are reals.
 */
module Accumulator {
  import opened Sets

  datatype Update = Update(key: string, delta: real)

  /** Where a goroutine stands in Add; version is how often the cell had been swapped when it was read. */
  datatype Thread =
    | Idle
    | Storing(update: Update)
    | Reading(update: Update, cell: nat)
    | Swapping(update: Update, cell: nat, seen: real, version: nat)

  datatype Cell = Cell(value: real, swaps: nat)

  /** cells is the sync.Map, heap holds the cell objects, begun and done list the calls in order of start and effect. */
  datatype State = State(
    cells: map<string, nat>, heap: map<nat, Cell>, threads: map<nat, Thread>, begun: seq<Update>, done: seq<Update>)

  datatype Step = Begin(t: nat, update: Update) | LoadOrStore(t: nat, newCell: nat) | Read(t: nat) | Swap(t: nat)

  predicate Enabled(s: State, step: Step) {
    && step.t in s.threads
    && match step
       case Begin(t, u) => s.threads[t].Idle? && u.key != ""
       case LoadOrStore(t, newCell) => s.threads[t].Storing? && newCell !in s.heap
       case Read(t) => s.threads[t].Reading? && s.threads[t].cell in s.heap
       case Swap(t) => s.threads[t].Swapping? && s.threads[t].cell in s.heap
  }

  function Move(s: State, t: nat, thread: Thread): State {
    s.(threads := s.threads[t := thread])
  }

  function Apply(s: State, step: Step): State
    requires Enabled(s, step)
  {
    match step
    case Begin(t, u) => Move(s, t, Storing(u)).(begun := s.begun + [u])
    case LoadOrStore(t, newCell) =>
      var u := s.threads[t].update;
      if u.key in s.cells then Move(s, t, Reading(u, s.cells[u.key]))
      else Move(s, t, Reading(u, newCell)).(cells := s.cells[u.key := newCell], heap := s.heap[newCell := Cell(0.0, 0)])
    case Read(t) =>
      var th := s.threads[t];
      Move(s, t, Swapping(th.update, th.cell, s.heap[th.cell].value, s.heap[th.cell].swaps))
    case Swap(t) =>
      var th := s.threads[t];
      var cell := s.heap[th.cell];
      if cell.value == th.seen then
        Move(s, t, Idle).(heap := s.heap[th.cell := Cell(th.seen + th.update.delta, cell.swaps + 1)],
                          done := s.done + [th.update])
      else Move(s, t, Reading(th.update, th.cell))
  }

  predicate Init(s: State) {
    s.cells == map[] && s.heap == map[] && s.begun == [] && s.done == [] && forall t | t in s.threads :: s.threads[t].Idle?
  }

  ghost predicate Execution(ss: seq<State>, steps: seq<Step>) {
    && |ss| == |steps| + 1 && Init(ss[0])
    && forall i | 0 <= i < |steps| :: Enabled(ss[i], steps[i]) && ss[i + 1] == Apply(ss[i], steps[i])
  }

  /** ObservableState.Load. */
  function Load(s: State, key: string): real {
    if key == "" || key !in s.cells || s.cells[key] !in s.heap then 0.0 else s.heap[s.cells[key]].value
  }

  function Sum(updates: seq<Update>, key: string): real {
    if updates == [] then 0.0
    else
      var last := updates[|updates| - 1];
      Sum(updates[..|updates| - 1], key) + (if last.key == key then last.delta else 0.0)
  }

  ghost function Busy(s: State): set<nat> {
    set t | t in s.threads && !s.threads[t].Idle?
  }

  /** The goroutines in the middle of adding u. */
  ghost function Adding(s: State, u: Update): set<nat> {
    set t | t in s.threads && !s.threads[t].Idle? && s.threads[t].update == u
  }

  /** Every begun update has taken effect or is still being added by its goroutine, never both. */
  ghost predicate Accounted(s: State, u: Update) {
    multiset(s.begun)[u] == multiset(s.done)[u] + |Adding(s, u)|
  }

  ghost predicate ThreadOk(s: State, th: Thread) {
    match th
    case Idle => true
    case Storing(u) => u.key != ""
    case Reading(u, cell) => u.key != "" && u.key in s.cells && s.cells[u.key] == cell
    case Swapping(u, cell, seen, version) =>
      && u.key != "" && u.key in s.cells && s.cells[u.key] == cell && cell in s.heap
      && version <= s.heap[cell].swaps
      && (version == s.heap[cell].swaps ==> seen == s.heap[cell].value)
  }

  ghost predicate Inv(s: State) {
    && CellsOk(s)
    && (forall t | t in s.threads :: ThreadOk(s, s.threads[t]))
    && |s.begun| == |s.done| + |Busy(s)|
    && (forall u :: Accounted(s, u))
  }

  lemma SumLast(updates: seq<Update>, u: Update, key: string)
    ensures Sum(updates + [u], key) == Sum(updates, key) + (if u.key == key then u.delta else 0.0)
  {
    assert (updates + [u])[..|updates|] == updates;
  }

  lemma BusyMoves(s: State, t: nat, thread: Thread)
    requires t in s.threads
    ensures |Busy(Move(s, t, thread))|
         == |Busy(s)| + (if thread.Idle? then 0 else 1) - (if s.threads[t].Idle? then 0 else 1)
  {
    assert Busy(s) - {t} == Busy(Move(s, t, thread)) - {t};
    OneMoved(Busy(s), Busy(Move(s, t, thread)), t);
  }

  lemma AddingMoves(s: State, step: Step, u: Update)
    requires Enabled(s, step) && Accounted(s, u)
    ensures Accounted(Apply(s, step), u)
  {
    var s' := Apply(s, step);
    assert Adding(s, u) - {step.t} == Adding(s', u) - {step.t};
    OneMoved(Adding(s, u), Adding(s', u), step.t);
  }

  /** The sums follow done, and cells stay apart. */
  ghost predicate CellsOk(s: State) {
    && (forall k | k in s.cells :: k != "" && s.cells[k] in s.heap && s.heap[s.cells[k]].value == Sum(s.done, k))
    && (forall k | k !in s.cells :: Sum(s.done, k) == 0.0)
    && (forall j, k | j in s.cells && k in s.cells && j != k :: s.cells[j] != s.cells[k])
  }

  lemma StepCells(s: State, step: Step)
    requires CellsOk(s) && Enabled(s, step) && ThreadOk(s, s.threads[step.t])
    ensures CellsOk(Apply(s, step))
  {
    if step.Swap? {
      var u := s.threads[step.t].update;
      forall k
        ensures Sum(s.done + [u], k) == Sum(s.done, k) + (if u.key == k then u.delta else 0.0)
      {
        SumLast(s.done, u, k);
      }
    }
  }

  lemma StepThreads(s: State, step: Step)
    requires Inv(s) && Enabled(s, step)
    ensures var s' := Apply(s, step); forall t | t in s'.threads :: ThreadOk(s', s'.threads[t])
  {
    hide Sum;
    var s' := Apply(s, step);
    forall t | t in s'.threads
      ensures ThreadOk(s', s'.threads[t])
    {
      assert ThreadOk(s, s.threads[t]) && ThreadOk(s, s.threads[step.t]);
    }
  }

  lemma StepInv(s: State, step: Step)
    requires Inv(s) && Enabled(s, step)
    ensures Inv(Apply(s, step))
  {
    StepThreads(s, step);
    var s' := Apply(s, step);
    forall u
      ensures Accounted(s', u)
    {
      AddingMoves(s, step, u);
    }
    hide ThreadOk, Sum, Accounted;
    var t := step.t;
    BusyMoves(s, t, s'.threads[t]);
    assert Busy(s') == Busy(Move(s, t, s'.threads[t]));
    StepCells(s, step);
  }

  lemma InitInv(s: State)
    requires Init(s)
    ensures Inv(s)
  {
    assert Busy(s) == {};
    assert forall u :: Adding(s, u) == {};
  }

  lemma {:induction false} AlwaysInv(ss: seq<State>, steps: seq<Step>, i: nat)
    requires Execution(ss, steps) && i < |ss|
    ensures Inv(ss[i])
  {
    hide Inv;
    if i == 0 {
      InitInv(ss[0]);
    } else {
      AlwaysInv(ss, steps, i - 1);
      StepInv(ss[i - 1], steps[i - 1]);
    }
  }

  /**
   At every moment of every run Load gives the sum of the deltas that have taken effect,
   and each begun update is either among those or in the hands of one goroutine.
   */
  lemma LoadIsSum(ss: seq<State>, steps: seq<Step>, i: nat, key: string)
    requires Execution(ss, steps) && i < |ss| && key != ""
    ensures Load(ss[i], key) == Sum(ss[i].done, key)
    ensures |ss[i].begun| == |ss[i].done| + |Busy(ss[i])|
    ensures forall u :: multiset(ss[i].begun)[u] == multiset(ss[i].done)[u] + |Adding(ss[i], u)|
    ensures Busy(ss[i]) == {} ==> multiset(ss[i].begun) == multiset(ss[i].done)
  {
    AlwaysInv(ss, steps, i);
    forall u
      ensures Accounted(ss[i], u) && Adding(ss[i], u) <= Busy(ss[i])
    {
    }
  }

  /** A key keeps its cell for good. */
  lemma {:induction false} CellNeverReplaced(ss: seq<State>, steps: seq<Step>, i: nat, j: nat, key: string)
    requires Execution(ss, steps) && i <= j < |ss| && key in ss[i].cells
    ensures key in ss[j].cells && ss[j].cells[key] == ss[i].cells[key]
    decreases j
  {
    if i < j {
      CellNeverReplaced(ss, steps, i, j - 1, key);
    }
  }

  /** A call takes effect at its successful swap, once: it leaves its goroutine idle and lengthens done by itself. */
  lemma EffectOnce(ss: seq<State>, steps: seq<Step>, i: nat)
    requires Execution(ss, steps) && i < |steps|
    ensures ss[i + 1].done != ss[i].done ==>
      && steps[i].Swap? && ss[i].threads[steps[i].t].Swapping?
      && ss[i + 1].threads[steps[i].t].Idle?
      && ss[i + 1].done == ss[i].done + [ss[i].threads[steps[i].t].update]
    ensures steps[i].Swap? && ss[i + 1].done == ss[i].done ==> !ss[i + 1].threads[steps[i].t].Idle?
  {
  }

  /** A swap fails only because another goroutine has swapped the same cell since the read. */
  lemma FailureMeansProgress(ss: seq<State>, steps: seq<Step>, i: nat)
    requires Execution(ss, steps) && i < |steps|
    requires steps[i].Swap? && ss[i + 1].done == ss[i].done
    ensures var th := ss[i].threads[steps[i].t];
            th.Swapping? && th.cell in ss[i].heap && ss[i].heap[th.cell].swaps > th.version
  {
    AlwaysInv(ss, steps, i);
    assert ThreadOk(ss[i], ss[i].threads[steps[i].t]);
  }
}
