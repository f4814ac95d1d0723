/**
 Every schedule of a concurrent run.  A log interleaves the branches of a trace; the
 answer a question gets is the stream's next one when it is asked.  In every such log
 each span is begun once and finished once, later; every place of a stream is read
 once; and the run is one of the interpreter's, on the answers it was given.
 */
module ExecSchedules {
  import opened Wrappers
  import opened Topology
  import opened Plan
  import opened ExecModel
  import opened Interp
  import opened SpanLog
  import opened ExecCoherence
  import opened ExecTime
  import opened ExecTheorems
  import opened ExecConcurrent

  // ----- Logs

  /** The identity of a span is its position in the trace. */
  type Id = seq<nat>

  datatype Entry =
    | Asked(stream: Stream, number: nat)
    | Began(id: Id, info: SpanInfo, at: int)
    | Ended(id: Id, info: SpanInfo, at: int, ending: Ending)

  ghost predicate Linear(log: seq<Entry>, t: Trace, path: Id)
    decreases t
  {
    match t
    case Done => log == []
    case Ask(x, n) => log == [Asked(x, n)]
    case Then(a, b) => exists i | 0 <= i <= |log| :: Linear(log[..i], a, path + [0]) && Linear(log[i..], b, path + [1])
    case Both(a, b) => exists l, m :: Shuffle(log, l, m) && Linear(l, a, path + [0]) && Linear(m, b, path + [1])
    case Spanned(info, start, end, ending, inner) =>
      && |log| >= 2 && log[0] == Began(path, info, start) && log[|log| - 1] == Ended(path, info, end, ending)
      && Linear(log[1..|log| - 1], inner, path + [0])
  }

  lemma ThenSplits(log: seq<Entry>, t: Trace, path: Id) returns (i: nat)
    requires t.Then? && Linear(log, t, path)
    ensures i <= |log| && Linear(log[..i], t.first, path + [0]) && Linear(log[i..], t.second, path + [1])
  {
    i :| 0 <= i <= |log| && Linear(log[..i], t.first, path + [0]) && Linear(log[i..], t.second, path + [1]);
  }

  lemma BothSplits(log: seq<Entry>, t: Trace, path: Id) returns (l: seq<Entry>, m: seq<Entry>)
    requires t.Both? && Linear(log, t, path)
    ensures Shuffle(log, l, m) && Linear(l, t.left, path + [0]) && Linear(m, t.right, path + [1])
  {
    hide Shuffle;
    l, m :| Shuffle(log, l, m) && Linear(l, t.left, path + [0]) && Linear(m, t.right, path + [1]);
  }

  lemma Wrapped<T>(log: seq<T>)
    requires |log| >= 2
    ensures log == [log[0]] + log[1..|log| - 1] + [log[|log| - 1]]
  {
  }

  lemma SpanEnds(log: seq<Entry>, t: Trace, path: Id)
    requires t.Spanned? && Linear(log, t, path)
    ensures |log| >= 2 && log[0] == Began(path, t.info, t.start) && log[|log| - 1] == Ended(path, t.info, t.end, t.ending)
    ensures Linear(log[1..|log| - 1], t.inner, path + [0])
  {
    hide Shuffle;
  }

  lemma SpanWraps(log: seq<Entry>, t: Trace, path: Id)
    requires t.Spanned? && Linear(log, t, path)
    ensures |log| >= 2 && log == [Began(path, t.info, t.start)] + log[1..|log| - 1] + [Ended(path, t.info, t.end, t.ending)]
    ensures Linear(log[1..|log| - 1], t.inner, path + [0])
  {
    hide Linear;
    SpanEnds(log, t, path);
    Wrapped(log);
  }

  lemma LeafIs(log: seq<Entry>, t: Trace, path: Id)
    requires (t.Done? || t.Ask?) && Linear(log, t, path)
    ensures log == if t.Done? then [] else [Asked(t.stream, t.number)]
  {
  }

  /** The schedule that runs branches in index order. */
  function InOrder(t: Trace, path: Id): seq<Entry> {
    match t
    case Done => []
    case Ask(x, n) => [Asked(x, n)]
    case Then(a, b) => InOrder(a, path + [0]) + InOrder(b, path + [1])
    case Both(a, b) => InOrder(a, path + [0]) + InOrder(b, path + [1])
    case Spanned(info, start, end, ending, inner) =>
      [Began(path, info, start)] + InOrder(inner, path + [0]) + [Ended(path, info, end, ending)]
  }

  lemma {:induction false} InOrderIsLinear(t: Trace, path: Id)
    ensures Linear(InOrder(t, path), t, path)
    decreases t
  {
    var log := InOrder(t, path);
    match t
    case Done =>
    case Ask(_, _) =>
    case Then(a, b) =>
      var l, m := InOrder(a, path + [0]), InOrder(b, path + [1]);
      InOrderIsLinear(a, path + [0]);
      InOrderIsLinear(b, path + [1]);
      assert log[..|l|] == l && log[|l|..] == m;
    case Both(a, b) =>
      InOrderIsLinear(a, path + [0]);
      InOrderIsLinear(b, path + [1]);
      Concatenation(InOrder(a, path + [0]), InOrder(b, path + [1]));
    case Spanned(_, _, _, _, inner) =>
      InOrderIsLinear(inner, path + [0]);
      assert log[1..|log| - 1] == InOrder(inner, path + [0]);
  }

  // ----- Every span once

  datatype Mark = BeginOf(id: Id) | EndOf(id: Id) | AskOf(stream: Stream, number: nat)

  function MarkOf(e: Entry): Mark {
    match e
    case Asked(x, n) => AskOf(x, n)
    case Began(id, _, _) => BeginOf(id)
    case Ended(id, _, _, _) => EndOf(id)
  }

  function Tally(log: seq<Entry>, m: Mark): nat {
    if log == [] then 0 else (if MarkOf(log[0]) == m then 1 else 0) + Tally(log[1..], m)
  }

  lemma {:induction false} TallyJoin(a: seq<Entry>, b: seq<Entry>, m: Mark)
    ensures Tally(a + b, m) == Tally(a, m) + Tally(b, m)
    decreases a
  {
    if a == [] {
      assert a + b == b;
    } else {
      TallyJoin(a[1..], b, m);
      assert (a + b)[1..] == a[1..] + b;
    }
  }

  /** A prefix of an interleaving interleaves two prefixes. */
  lemma {:induction false} ShuffleTally(log: seq<Entry>, a: seq<Entry>, b: seq<Entry>, n: nat) returns (i: nat, j: nat)
    requires Shuffle(log, a, b) && n <= |log|
    ensures i <= |a| && j <= |b| && forall m :: Tally(log[..n], m) == Tally(a[..i], m) + Tally(b[..j], m)
    ensures n == |log| ==> i == |a| && j == |b|
    decreases log
  {
    if n == 0 {
      i, j := 0, 0;
    } else {
      assert log[..n][1..] == log[1..][..n - 1];
      if a != [] && a[0] == log[0] && Shuffle(log[1..], a[1..], b) {
        i, j := ShuffleTally(log[1..], a[1..], b, n - 1);
        assert a[..i + 1][1..] == a[1..][..i];
        i := i + 1;
      } else {
        i, j := ShuffleTally(log[1..], a, b[1..], n - 1);
        assert b[..j + 1][1..] == b[1..][..j];
        j := j + 1;
      }
    }
  }

  /** Every span that has begun did so once, and it has ended as often at the close, never before. */
  ghost predicate EachOnce(log: seq<Entry>) {
    && (forall id :: Tally(log, EndOf(id)) == Tally(log, BeginOf(id)) <= 1)
    && (forall n: nat, id | n <= |log| :: Tally(log[..n], EndOf(id)) <= Tally(log[..n], BeginOf(id)))
  }

  /** Identities in this part of the log start with path. */
  ghost predicate Below(log: seq<Entry>, path: Id) {
    forall id | Tally(log, BeginOf(id)) > 0 :: path <= id
  }

  lemma Apart(a: seq<Entry>, b: seq<Entry>, path: Id, id: Id)
    requires Below(a, path + [0]) && Below(b, path + [1])
    ensures Tally(a, BeginOf(id)) == 0 || Tally(b, BeginOf(id)) == 0
    ensures Tally(a, BeginOf(id)) + Tally(b, BeginOf(id)) > 0 ==> path <= id
  {
    if Tally(a, BeginOf(id)) > 0 { assert (path + [0])[|path|] == id[|path|] == 0; }
    if Tally(b, BeginOf(id)) > 0 { assert (path + [1])[|path|] == id[|path|] == 1; }
    assert path <= path + [0] && path <= path + [1];
  }

  lemma ShuffleOnce(log: seq<Entry>, a: seq<Entry>, b: seq<Entry>, path: Id)
    requires Shuffle(log, a, b) && EachOnce(a) && EachOnce(b) && Below(a, path + [0]) && Below(b, path + [1])
    ensures EachOnce(log) && Below(log, path)
  {
    var i, j := ShuffleTally(log, a, b, |log|);
    assert log[..|log|] == log && a[..i] == a && b[..j] == b;
    forall id
      ensures Tally(log, EndOf(id)) == Tally(log, BeginOf(id)) <= 1
      ensures Tally(log, BeginOf(id)) > 0 ==> path <= id
    {
      Apart(a, b, path, id);
    }
    forall n: nat, id | n <= |log|
      ensures Tally(log[..n], EndOf(id)) <= Tally(log[..n], BeginOf(id))
    {
      var i, j := ShuffleTally(log, a, b, n);
      assert Tally(a[..i], EndOf(id)) <= Tally(a[..i], BeginOf(id));
      assert Tally(b[..j], EndOf(id)) <= Tally(b[..j], BeginOf(id));
    }
  }

  lemma SpanOnce(inner: seq<Entry>, path: Id, info: SpanInfo, start: int, end: int, ending: Ending)
    requires EachOnce(inner) && Below(inner, path + [0])
    ensures var log := [Began(path, info, start)] + inner + [Ended(path, info, end, ending)]; EachOnce(log) && Below(log, path)
  {
    var first, last := Began(path, info, start), Ended(path, info, end, ending);
    var log := [first] + inner + [last];
    assert !(path + [0] <= path) && path <= path + [0];
    forall id
      ensures Tally(log, EndOf(id)) == Tally(log, BeginOf(id)) <= 1
      ensures Tally(log, BeginOf(id)) > 0 ==> path <= id
    {
      TallyWrapped(first, inner, last, BeginOf(id));
      TallyWrapped(first, inner, last, EndOf(id));
    }
    forall n: nat, id | n <= |log|
      ensures Tally(log[..n], EndOf(id)) <= Tally(log[..n], BeginOf(id))
    {
      if n == |log| {
        assert log[..n] == log;
      } else if n > 0 {
        assert log[..n] == [first] + inner[..n - 1];
        assert log[..n][1..] == inner[..n - 1];
        assert Tally(inner[..n - 1], EndOf(id)) <= Tally(inner[..n - 1], BeginOf(id));
      }
    }
  }

  lemma TallyWrapped(first: Entry, inner: seq<Entry>, last: Entry, m: Mark)
    ensures Tally([first] + inner + [last], m) == Tally(inner, m) + (if MarkOf(first) == m then 1 else 0) + (if MarkOf(last) == m then 1 else 0)
  {
    TallyJoin([first] + inner, [last], m);
    TallyJoin([first], inner, m);
    assert [first][1..] == [] && [last][1..] == [];
  }

  lemma {:induction false} LinearOnce(log: seq<Entry>, t: Trace, path: Id)
    requires Linear(log, t, path)
    ensures EachOnce(log) && Below(log, path)
    decreases t
  {
    hide EachOnce, Below, Shuffle, Linear;
    match t
    case Done =>
      LeafIs(log, t, path);
      NothingOnce(log, path);
    case Ask(_, _) =>
      LeafIs(log, t, path);
      NothingOnce(log, path);
    case Then(a, b) =>
      var i := ThenSplits(log, t, path);
      LinearOnce(log[..i], a, path + [0]);
      LinearOnce(log[i..], b, path + [1]);
      Concatenation(log[..i], log[i..]);
      assert log == log[..i] + log[i..];
      ShuffleOnce(log, log[..i], log[i..], path);
    case Both(a, b) =>
      var l, m := BothSplits(log, t, path);
      LinearOnce(l, a, path + [0]);
      LinearOnce(m, b, path + [1]);
      ShuffleOnce(log, l, m, path);
    case Spanned(info, start, end, ending, inner) =>
      SpanWraps(log, t, path);
      LinearOnce(log[1..|log| - 1], inner, path + [0]);
      SpanOnce(log[1..|log| - 1], path, info, start, end, ending);
  }

  lemma NothingOnce(log: seq<Entry>, path: Id)
    requires |log| <= 1 && forall e | e in log :: e.Asked?
    ensures EachOnce(log) && Below(log, path)
  {
    if |log| == 1 { assert log[0] in log && log[1..] == []; }
    assert forall m: Mark | !m.AskOf? :: Tally(log, m) == 0;
    assert forall n: nat | n <= |log| :: log[..n] == [] || log[..n] == log;
  }

  // ----- Begin and finish tell the same span

  /** e is the begin or the finish of the span with its identity. */
  ghost predicate Tells(t: Trace, path: Id, e: Entry)
    decreases t
  {
    match t
    case Done => false
    case Ask(_, _) => false
    case Then(a, b) => Tells(a, path + [0], e) || Tells(b, path + [1], e)
    case Both(a, b) => Tells(a, path + [0], e) || Tells(b, path + [1], e)
    case Spanned(info, start, end, ending, inner) =>
      e == Began(path, info, start) || e == Ended(path, info, end, ending) || Tells(inner, path + [0], e)
  }

  lemma {:induction false} ShuffleMembers<T>(log: seq<T>, a: seq<T>, b: seq<T>, e: T)
    requires Shuffle(log, a, b)
    ensures e in log <==> e in a || e in b
    decreases log
  {
    if log != [] {
      if a != [] && a[0] == log[0] && Shuffle(log[1..], a[1..], b) {
        ShuffleMembers(log[1..], a[1..], b, e);
      } else {
        ShuffleMembers(log[1..], a, b[1..], e);
      }
    }
  }

  lemma {:induction false} EntriesTell(log: seq<Entry>, t: Trace, path: Id, e: Entry)
    requires Linear(log, t, path) && e in log && !e.Asked?
    ensures Tells(t, path, e)
    decreases t
  {
    match t
    case Done =>
    case Ask(_, _) =>
    case Then(a, b) =>
      var i :| 0 <= i <= |log| && Linear(log[..i], a, path + [0]) && Linear(log[i..], b, path + [1]);
      if e in log[..i] {
        EntriesTell(log[..i], a, path + [0], e);
      } else {
        EntriesTell(log[i..], b, path + [1], e);
      }
    case Both(a, b) =>
      var l, m :| Shuffle(log, l, m) && Linear(l, a, path + [0]) && Linear(m, b, path + [1]);
      ShuffleMembers(log, l, m, e);
      if e in l {
        EntriesTell(l, a, path + [0], e);
      } else {
        EntriesTell(m, b, path + [1], e);
      }
    case Spanned(info, start, end, ending, inner) =>
      if e in log[1..|log| - 1] { EntriesTell(log[1..|log| - 1], inner, path + [0], e); }
  }

  lemma {:induction false} TellsBelow(t: Trace, path: Id, e: Entry)
    requires Tells(t, path, e)
    ensures !e.Asked? && path <= e.id
    decreases t
  {
    match t
    case Then(a, b) =>
      if Tells(a, path + [0], e) { TellsBelow(a, path + [0], e); } else { TellsBelow(b, path + [1], e); }
    case Both(a, b) =>
      if Tells(a, path + [0], e) { TellsBelow(a, path + [0], e); } else { TellsBelow(b, path + [1], e); }
    case Spanned(_, _, _, _, inner) =>
      if Tells(inner, path + [0], e) { TellsBelow(inner, path + [0], e); }
  }

  /** A span of the forest, at any depth. */
  ghost predicate Emitted(spans: seq<Span>, info: SpanInfo, start: int, end: int, ending: Ending)
    decreases spans
  {
    exists i | 0 <= i < |spans| ::
      || (spans[i].info == info && spans[i].start == start && spans[i].end == end && spans[i].ending == ending)
      || Emitted(spans[i].kids, info, start, end, ending)
  }

  lemma EmittedPart(a: seq<Span>, b: seq<Span>, info: SpanInfo, start: int, end: int, ending: Ending)
    requires Emitted(a, info, start, end, ending) || Emitted(b, info, start, end, ending)
    ensures Emitted(a + b, info, start, end, ending)
  {
    assert forall i | 0 <= i < |a| :: (a + b)[i] == a[i];
    assert forall i | 0 <= i < |b| :: (a + b)[|a| + i] == b[i];
    if Emitted(a, info, start, end, ending) {
      var i :| 0 <= i < |a| && ((a[i].info == info && a[i].start == start && a[i].end == end && a[i].ending == ending)
                                || Emitted(a[i].kids, info, start, end, ending));
      assert (a + b)[i] == a[i];
    } else {
      var i :| 0 <= i < |b| && ((b[i].info == info && b[i].start == start && b[i].end == end && b[i].ending == ending)
                                || Emitted(b[i].kids, info, start, end, ending));
      assert (a + b)[|a| + i] == b[i];
    }
  }

  lemma SideOf(t: Trace, path: Id, k: nat, e: Entry)
    requires Tells(t, path + [k], e)
    ensures !e.Asked? && |e.id| > |path| && e.id[|path|] == k
  {
    TellsBelow(t, path + [k], e);
    assert (path + [k])[|path|] == k;
  }

  lemma SidesDiffer(a: Trace, b: Trace, path: Id, e: Entry, f: Entry)
    requires !e.Asked? && !f.Asked? && e.id == f.id
    ensures !(Tells(a, path + [0], e) && Tells(b, path + [1], f))
  {
    if Tells(a, path + [0], e) { SideOf(a, path, 0, e); }
    if Tells(b, path + [1], f) { SideOf(b, path, 1, f); }
  }

  /** The begin and the finish of one identity are those of one span of the forest. */
  lemma {:induction false} SameSpan(t: Trace, path: Id, id: Id, info: SpanInfo, info': SpanInfo, start: int, end: int, ending: Ending)
    requires Tells(t, path, Began(id, info, start)) && Tells(t, path, Ended(id, info', end, ending))
    ensures info == info' && Emitted(Forest(t), info, start, end, ending)
    decreases t, 1
  {
    var e, f := Began(id, info, start), Ended(id, info', end, ending);
    match t
    case Then(a, b) => SameSide(t, a, b, path, id, info, info', start, end, ending);
    case Both(a, b) => SameSide(t, a, b, path, id, info, info', start, end, ending);
    case Spanned(_, _, _, _, inner) =>
      if Tells(inner, path + [0], e) || Tells(inner, path + [0], f) {
        if Tells(inner, path + [0], e) { TellsBelow(inner, path + [0], e); } else { TellsBelow(inner, path + [0], f); }
        assert id != path;
        SameSpan(inner, path + [0], id, info, info', start, end, ending);
        assert Forest(t)[0].kids == Forest(inner);
      } else {
        assert Forest(t)[0].info == info;
      }
  }

  lemma {:induction false} SameSide(t: Trace, a: Trace, b: Trace, path: Id, id: Id, info: SpanInfo, info': SpanInfo,
                                    start: int, end: int, ending: Ending)
    requires t == Then(a, b) || t == Both(a, b)
    requires var e, f := Began(id, info, start), Ended(id, info', end, ending);
             (Tells(a, path + [0], e) || Tells(b, path + [1], e)) && (Tells(a, path + [0], f) || Tells(b, path + [1], f))
    ensures info == info' && Emitted(Forest(a) + Forest(b), info, start, end, ending)
    decreases t, 0
  {
    var e, f := Began(id, info, start), Ended(id, info', end, ending);
    SidesDiffer(a, b, path, e, f);
    SidesDiffer(a, b, path, f, e);
    if Tells(a, path + [0], e) {
      SameSpan(a, path + [0], id, info, info', start, end, ending);
    } else {
      SameSpan(b, path + [1], id, info, info', start, end, ending);
    }
    EmittedPart(Forest(a), Forest(b), info, start, end, ending);
  }

  // ----- The streams

  /** The questions to a stream in the order in which they were asked. */
  function Order(log: seq<Entry>, x: Stream): seq<nat> {
    if log == [] then [] else AskedOf(log[0], x) + Order(log[1..], x)
  }

  function AskedOf(e: Entry, x: Stream): seq<nat> {
    if e.Asked? && e.stream == x then [e.number] else []
  }

  lemma {:induction false} OrderJoin(a: seq<Entry>, b: seq<Entry>, x: Stream)
    ensures Order(a + b, x) == Order(a, x) + Order(b, x)
    decreases a
  {
    hide AskedOf;
    if a == [] {
      assert a + b == b;
    } else {
      OrderJoin(a[1..], b, x);
      assert (a + b)[1..] == a[1..] + b;
      var first := AskedOf(a[0], x);
      assert first + (Order(a[1..], x) + Order(b, x)) == (first + Order(a[1..], x)) + Order(b, x);
    }
  }

  lemma OrderHead(log: seq<Entry>, x: Stream)
    ensures Order([], x) == []
    ensures log != [] ==> multiset(Order(log, x)) == multiset(AskedOf(log[0], x)) + multiset(Order(log[1..], x))
  {
    hide AskedOf;
  }

  lemma {:induction false} ShuffleOrder(log: seq<Entry>, a: seq<Entry>, b: seq<Entry>, x: Stream)
    requires Shuffle(log, a, b)
    ensures multiset(Order(log, x)) == multiset(Order(a, x)) + multiset(Order(b, x))
    decreases log
  {
    hide AskedOf, Order;
    OrderHead(log, x);
    OrderHead(a, x);
    OrderHead(b, x);
    if log != [] {
      if a != [] && a[0] == log[0] && Shuffle(log[1..], a[1..], b) {
        ShuffleOrder(log[1..], a[1..], b, x);
      } else {
        ShuffleOrder(log[1..], a, b[1..], x);
      }
    }
  }

  lemma NumbersParts(t: Trace, x: Stream)
    ensures t.Then? ==> multiset(Numbers(t, x)) == multiset(Numbers(t.first, x)) + multiset(Numbers(t.second, x))
    ensures t.Both? ==> multiset(Numbers(t, x)) == multiset(Numbers(t.left, x)) + multiset(Numbers(t.right, x))
    ensures t.Spanned? ==> Numbers(t, x) == Numbers(t.inner, x)
    ensures t.Done? ==> Numbers(t, x) == []
    ensures t.Ask? ==> Numbers(t, x) == AskedOf(Asked(t.stream, t.number), x)
  {
  }

  lemma {:induction false} LinearOrder(log: seq<Entry>, t: Trace, path: Id, x: Stream)
    requires Linear(log, t, path)
    ensures multiset(Order(log, x)) == multiset(Numbers(t, x))
    decreases t
  {
    hide Order, Shuffle, Numbers, AskedOf, Linear;
    NumbersParts(t, x);
    match t
    case Done =>
      LeafIs(log, t, path);
      OrderHead(log, x);
    case Ask(_, _) =>
      LeafIs(log, t, path);
      OrderHead(log, x);
      assert log[1..] == [];
    case Then(a, b) =>
      var i := ThenSplits(log, t, path);
      LinearOrder(log[..i], a, path + [0], x);
      LinearOrder(log[i..], b, path + [1], x);
      Concatenation(log[..i], log[i..]);
      assert log == log[..i] + log[i..];
      ShuffleOrder(log, log[..i], log[i..], x);
    case Both(a, b) =>
      var l, m := BothSplits(log, t, path);
      LinearOrder(l, a, path + [0], x);
      LinearOrder(m, b, path + [1], x);
      ShuffleOrder(log, l, m, x);
    case Spanned(info, start, end, ending, inner) =>
      SpanWraps(log, t, path);
      LinearOrder(log[1..|log| - 1], inner, path + [0], x);
      WrappedOrder(Began(path, info, start), log[1..|log| - 1], Ended(path, info, end, ending), x);
  }

  lemma WrappedOrder(first: Entry, inner: seq<Entry>, last: Entry, x: Stream)
    requires !first.Asked? && !last.Asked?
    ensures Order([first] + inner + [last], x) == Order(inner, x)
  {
    OrderJoin([first] + inner, [last], x);
    OrderJoin([first], inner, x);
    assert [first][1..] == [] && [last][1..] == [];
  }

  lemma {:induction false} InOrderAsks(t: Trace, path: Id, x: Stream)
    ensures Order(InOrder(t, path), x) == Numbers(t, x)
    decreases t
  {
    match t
    case Done =>
    case Ask(y, n) => assert [Asked(y, n)][1..] == [];
    case Then(a, b) =>
      InOrderAsks(a, path + [0], x);
      InOrderAsks(b, path + [1], x);
      OrderJoin(InOrder(a, path + [0]), InOrder(b, path + [1]), x);
    case Both(a, b) =>
      InOrderAsks(a, path + [0], x);
      InOrderAsks(b, path + [1], x);
      OrderJoin(InOrder(a, path + [0]), InOrder(b, path + [1]), x);
    case Spanned(info, start, end, ending, inner) =>
      InOrderAsks(inner, path + [0], x);
      WrappedOrder(Began(path, info, start), InOrder(inner, path + [0]), Ended(path, info, end, ending), x);
  }

  function IndexOf(xs: seq<nat>, k: nat): (i: nat)
    requires k in xs
    ensures i < |xs| && xs[i] == k
  {
    if xs[0] == k then 0 else 1 + IndexOf(xs[1..], k)
  }

  /** The place in the stream of the answer to question k: as many places on as questions were asked before it. */
  function Place(log: seq<Entry>, x: Stream, k: nat, st: State): nat {
    var order := Order(log, x);
    if k in order then At(st, x) + IndexOf(order, k) else k
  }

  /** seen gives every question the answer that env's streams have for it under the schedule. */
  ghost predicate Answered(env: Env, seen: Env, log: seq<Entry>, st: State) {
    && seen.schema == env.schema && seen.overlay == env.overlay && seen.lognormal == env.lognormal
    && seen.globalIntensity == env.globalIntensity && seen.targetIntensity == env.targetIntensity
    && (forall k: nat :: seen.float(k) == env.float(Place(log, Draws, k, st)))
    && (forall k: nat, n :: seen.intn(k, n) == env.intn(Place(log, Draws, k, st), n))
    && (forall k: nat :: seen.canceled(k) == env.canceled(Place(log, Polls, k, st)))
    && (forall k: nat :: seen.elapsed(k) == env.elapsed(Place(log, Readings, k, st)))
  }

  /** Whatever the schedule, it has answers. */
  lemma AnswersExist(env: Env, log: seq<Entry>, st: State)
    ensures exists seen :: Answered(env, seen, log, st)
  {
    var seen := env.(
      float := (k: nat) => env.float(Place(log, Draws, k, st)),
      intn := (k: nat, n: int) => env.intn(Place(log, Draws, k, st), n),
      canceled := (k: nat) => env.canceled(Place(log, Polls, k, st)),
      elapsed := (k: nat) => env.elapsed(Place(log, Readings, k, st)));
    assert Answered(env, seen, log, st);
  }

  // ----- Concurrent runs

  /** log is a run of the node from st in which every question was given the answer seen holds for it. */
  ghost predicate ConcurrentRun(env: Env, seen: Env, node: Node, parent: Option<Outcome>, start: int, st: State, log: seq<Entry>) {
    Answered(env, seen, log, st) && Linear(log, TraceNode(seen, node, parent, start, st), [])
  }

  /** Each span is begun once and finished once, after it began, and both events are those of a span of the outcome's forest. */
  lemma EverySpanOnce(env: Env, seen: Env, node: Node, parent: Option<Outcome>, start: int, st: State, log: seq<Entry>)
    requires ConcurrentRun(env, seen, node, parent, start, st, log)
    ensures EachOnce(log)
    ensures forall id, info, info', begin, end, ending | Began(id, info, begin) in log && Ended(id, info', end, ending) in log ::
              info == info' && Emitted(RunNode(seen, node, parent, start, st).spans, info, begin, end, ending)
  {
    hide Linear, Tells, Emitted, EachOnce;
    var t := TraceNode(seen, node, parent, start, st);
    LinearOnce(log, t, []);
    forall id, info, info', begin, end, ending | Began(id, info, begin) in log && Ended(id, info', end, ending) in log
      ensures info == info' && Emitted(RunNode(seen, node, parent, start, st).spans, info, begin, end, ending)
    {
      EntriesTell(log, t, [], Began(id, info, begin));
      EntriesTell(log, t, [], Ended(id, info', end, ending));
      SameSpan(t, [], id, info, info', begin, end, ending);
    }
  }

  /** The branches share the streams out: every place up to the final state answers exactly one question. */
  lemma StreamsShared(env: Env, seen: Env, node: Node, parent: Option<Outcome>, start: int, st: State, log: seq<Entry>, x: Stream)
    requires ConcurrentRun(env, seen, node, parent, start, st, log)
    ensures var lo, hi := At(st, x), At(RunNode(seen, node, parent, start, st).st, x);
            && multiset(Order(log, x)) == multiset(Range(lo, hi))
            && (forall k: nat | lo <= k < hi :: lo <= Place(log, x, k, st) < hi)
            && (forall j: nat, k: nat | lo <= j < k < hi :: Place(log, x, j, st) != Place(log, x, k, st))
  {
    hide Linear, Answered, Order;
    var lo, hi := At(st, x), At(RunNode(seen, node, parent, start, st).st, x);
    LinearOrder(log, TraceNode(seen, node, parent, start, st), [], x);
    var order := Order(log, x);
    assert |order| == |multiset(order)| == |multiset(Range(lo, hi))| == |Range(lo, hi)|;
    forall k: nat | lo <= k < hi
      ensures k in order
    {
      assert Range(lo, hi)[k - lo] == k;
      assert k in multiset(Range(lo, hi));
      assert k in multiset(order);
    }
  }

  lemma SaneAnswers(env: Env, seen: Env, log: seq<Entry>, st: State)
    requires Sane(env) && Answered(env, seen, log, st)
    ensures Sane(seen)
  {
    hide Place;
  }

  /** What holds of every run in index order holds under every schedule. */
  lemma EveryScheduleCoherent(env: Env, seen: Env, node: Node, start: int, st: State, log: seq<Entry>)
    requires ConcurrentRun(env, seen, node, None, start, st, log)
    ensures var r := RunNode(seen, node, None, start, st);
            Coherent(r.outcome) && (Sane(env) && Calm(node) ==> Covers(r, start))
  {
    hide Coherent, Calm, Covers, Sane, Linear, Answered;
    NodeCoherent(seen, node, None, start, st);
    if Sane(env) && Calm(node) {
      SaneAnswers(env, seen, log, st);
      NodeContained(seen, node, None, start, st);
    }
  }

  // ----- The gauge of active spans

  /** What the tracer sees of a log. */
  function Events(log: seq<Entry>): seq<Event> {
    if log == [] then [] else EventsOf(log[0]) + Events(log[1..])
  }

  function EventsOf(e: Entry): seq<Event> {
    match e
    case Asked(_, _) => []
    case Began(_, info, at) => [Begin(info, at)]
    case Ended(_, info, at, ending) => [Finish(info, at, ending)]
  }

  lemma {:induction false} EventsJoin(a: seq<Entry>, b: seq<Entry>)
    ensures Events(a + b) == Events(a) + Events(b)
    decreases a
  {
    hide EventsOf;
    if a == [] {
      assert a + b == b;
    } else {
      EventsJoin(a[1..], b);
      assert (a + b)[1..] == a[1..] + b;
      assert EventsOf(a[0]) + (Events(a[1..]) + Events(b)) == (EventsOf(a[0]) + Events(a[1..])) + Events(b);
    }
  }

  lemma {:induction false} ShuffleEvents(log: seq<Entry>, a: seq<Entry>, b: seq<Entry>)
    requires Shuffle(log, a, b)
    ensures Shuffle(Events(log), Events(a), Events(b))
    decreases log
  {
    hide Events, EventsOf;
    EventsHead(log);
    EventsHead(a);
    EventsHead(b);
    if log != [] {
      if a != [] && a[0] == log[0] && Shuffle(log[1..], a[1..], b) {
        ShuffleEvents(log[1..], a[1..], b);
        ShuffleHead(EventsOf(log[0]), Events(log[1..]), Events(a[1..]), Events(b));
      } else {
        ShuffleEvents(log[1..], a, b[1..]);
        ShuffleHead(EventsOf(log[0]), Events(log[1..]), Events(a), Events(b[1..]));
      }
    }
  }

  lemma EventsHead(log: seq<Entry>)
    ensures Events(log) == if log == [] then [] else EventsOf(log[0]) + Events(log[1..])
    ensures log != [] ==> |EventsOf(log[0])| <= 1
  {
  }

  lemma ShuffleHead(e: seq<Event>, log: seq<Event>, a: seq<Event>, b: seq<Event>)
    requires Shuffle(log, a, b) && |e| <= 1
    ensures Shuffle(e + log, e + a, b) && Shuffle(e + log, a, e + b)
  {
    if e == [] {
      assert e + log == log && e + a == a && e + b == b;
    } else {
      assert (e + log)[1..] == log && (e + a)[1..] == a && (e + b)[1..] == b;
    }
  }

  lemma PairEmits(log: seq<Entry>, l: seq<Entry>, m: seq<Entry>, a: Trace, b: Trace)
    requires Shuffle(log, l, m) && Emits(Events(l), Forest(a)) && Emits(Events(m), Forest(b))
    ensures Emits(Events(log), Forest(a) + Forest(b))
  {
    hide *;
    ShuffleEvents(log, l, m);
    EmitsTogether(Events(log), Events(l), Events(m), Forest(a), Forest(b));
  }

  lemma NothingEmits(log: seq<Entry>)
    requires |log| <= 1 && forall e | e in log :: e.Asked?
    ensures Emits(Events(log), [])
  {
    if |log| == 1 { assert log[0] in log && log[1..] == []; }
  }

  /** The tracer sees an emission of the forest. */
  lemma {:induction false} LinearEmits(log: seq<Entry>, t: Trace, path: Id)
    requires Linear(log, t, path)
    ensures Emits(Events(log), Forest(t))
    decreases t
  {
    hide Shuffle, Emits, Events, EventsOf, Linear;
    match t
    case Done =>
      LeafIs(log, t, path);
      NothingEmits(log);
    case Ask(_, _) =>
      LeafIs(log, t, path);
      NothingEmits(log);
    case Then(a, b) =>
      var i := ThenSplits(log, t, path);
      LinearEmits(log[..i], a, path + [0]);
      LinearEmits(log[i..], b, path + [1]);
      Concatenation(log[..i], log[i..]);
      assert log == log[..i] + log[i..];
      PairEmits(log, log[..i], log[i..], a, b);
    case Both(a, b) =>
      var l, m := BothSplits(log, t, path);
      LinearEmits(l, a, path + [0]);
      LinearEmits(m, b, path + [1]);
      PairEmits(log, l, m, a, b);
    case Spanned(info, start, end, ending, inner) =>
      SpanWraps(log, t, path);
      var middle := log[1..|log| - 1];
      LinearEmits(middle, inner, path + [0]);
      SpanEmits(Began(path, info, start), middle, Ended(path, info, end, ending), Forest(t)[0], path);
  }

  lemma SpanEmits(first: Entry, inner: seq<Entry>, last: Entry, span: Span, path: Id)
    requires first == Began(path, span.info, span.start) && last == Ended(path, span.info, span.end, span.ending)
    requires Emits(Events(inner), span.kids)
    ensures Emits(Events([first] + inner + [last]), [span])
  {
    hide Emits, Events;
    WrappedEvents(first, inner, last);
    OneEmission(Begin(span.info, span.start), Events(inner), Finish(span.info, span.end, span.ending), span);
  }

  lemma WrappedEvents(first: Entry, inner: seq<Entry>, last: Entry)
    ensures Events([first] + inner + [last]) == EventsOf(first) + Events(inner) + EventsOf(last)
  {
    EventsJoin([first] + inner, [last]);
    EventsJoin([first], inner);
    assert [first][1..] == [] && [last][1..] == [];
  }

  lemma OneEmission(first: Event, inner: seq<Event>, last: Event, span: Span)
    requires first == Begin(span.info, span.start) && last == Finish(span.info, span.end, span.ending) && Emits(inner, span.kids)
    ensures Emits([first] + inner + [last], [span])
  {
    var log := [first] + inner + [last];
    assert log[1..|log| - 1] == inner;
    assert EmitsSpan(log, span);
    Concatenation(log, []);
    assert log + [] == log && [span][1..] == [];
  }

  /** Under every schedule the gauge of active spans, label by label, never falls below its start and ends there. */
  lemma GaugeBalanced(env: Env, seen: Env, node: Node, parent: Option<Outcome>, start: int, st: State, log: seq<Entry>)
    requires ConcurrentRun(env, seen, node, parent, start, st, log)
    ensures Balanced(Events(log))
  {
    hide Linear, Answered, Emits, Balanced, Events;
    LinearEmits(log, TraceNode(seen, node, parent, start, st), []);
    EmissionBalanced(Events(log), RunNode(seen, node, parent, start, st).spans);
  }

  lemma {:induction false} InOrderEvents(t: Trace, path: Id)
    ensures Events(InOrder(t, path)) == FlattenAll(Forest(t))
    decreases t, 1
  {
    match t
    case Done =>
    case Ask(x, n) => assert [Asked(x, n)][1..] == [];
    case Then(a, b) => InOrderEventsPair(t, a, b, path);
    case Both(a, b) => InOrderEventsPair(t, a, b, path);
    case Spanned(info, start, end, ending, inner) =>
      InOrderEvents(inner, path + [0]);
      WrappedEvents(Began(path, info, start), InOrder(inner, path + [0]), Ended(path, info, end, ending));
      FlattenOne(Forest(t)[0]);
  }

  lemma {:induction false} InOrderEventsPair(t: Trace, a: Trace, b: Trace, path: Id)
    requires t == Then(a, b) || t == Both(a, b)
    ensures Events(InOrder(a, path + [0]) + InOrder(b, path + [1])) == FlattenAll(Forest(a) + Forest(b))
    decreases t, 0
  {
    hide InOrder, Events, FlattenAll, Forest;
    InOrderEvents(a, path + [0]);
    InOrderEvents(b, path + [1]);
    EventsJoin(InOrder(a, path + [0]), InOrder(b, path + [1]));
    FlattenJoin(Forest(a), Forest(b));
  }

  /** Running the branches in index order is one of the schedules: the one of the sequential engine, log and all. */
  lemma IndexOrderIsARun(env: Env, node: Node, parent: Option<Outcome>, start: int, st: State)
    ensures var log := InOrder(TraceNode(env, node, parent, start, st), []);
            && ConcurrentRun(env, env, node, parent, start, st, log)
            && Events(log) == FlattenAll(RunNode(env, node, parent, start, st).spans)
  {
    hide Linear, InOrder, Events, FlattenAll;
    var t := TraceNode(env, node, parent, start, st);
    var log := InOrder(t, []);
    InOrderIsLinear(t, []);
    InOrderEvents(t, []);
    forall x, k: nat
      ensures Place(log, x, k, st) == k
    {
      InOrderAsks(t, [], x);
      if k in Order(log, x) { assert Order(log, x)[IndexOf(Order(log, x), k)] == k; }
    }
  }

  // ----- The schedule decides

  /** A call whose one question to the random stream is whether its own error rate strikes. */
  ghost predicate Coin(env: Env, n: Node) {
    && TriedOnce(n) && n.children == [] && n.edge.errorRate > 0.0 && n.edge.latency.distribution == "constant"
    && env.overlay == EMPTY_OVERLAY && Replicas(env, n) <= 1 && forall c :: !env.canceled(c)
  }

  predicate Survives(env: Env, n: Node, draw: nat)
    requires n.edge.Edge?
  {
    env.float(draw) >= ClampProbability(n.edge.errorRate)
  }

  lemma CoinOpens(env: Env, n: Node, st: State)
    requires Coin(env, n)
    ensures var (opening, _, next) := OpenAttempt(env, n, st);
            opening.Live? && next == State(st.cursor + 1, st.polls + 1, st.readings) && (opening.forced <==> !Survives(env, n, st.cursor))
  {
    assert FoldFaults(env, n, st) == (NativeErrorRate(env, n, NO_FAULT), st);
  }

  lemma CoinRuns(env: Env, n: Node, start: int, st: State)
    requires Coin(env, n)
    ensures var r := RunNode(env, n, None, start, st);
            r.st == State(st.cursor + 1, st.polls + 1, st.readings) && (r.outcome.success <==> Survives(env, n, st.cursor))
  {
    CoinOpens(env, n, st);
    OnceRuns(env, n, start, st);
    hide OpenAttempt, Survives, RetryBackoffDelay;
    var begun := start + RetryBackoffDelay(n.edge, 0);
    assert RunKids(env, [], SUCCESS, begun, OpenAttempt(env, n, st).0.latency, OpenAttempt(env, n, st).2).st == OpenAttempt(env, n, st).2;
    assert RunSingle(env, n, begun, st).st == OpenAttempt(env, n, st).2;
    hide RunSingle;
    assert RunAttempts(env, n, start, 0, 0, st).st == RunSingle(env, n, begun, st).st;
    hide RunAttempts;
    assert RunNode(env, n, None, start, st).st == RunAttempts(env, n, start, 0, 0, st).st;
  }

  /** c and the draw after it exchanged. */
  function Swapped(k: nat, c: nat): nat {
    if k == c then c + 1 else if k == c + 1 then c else k
  }

  lemma {:induction false} SecondFirst<T>(a: seq<T>, b: seq<T>)
    ensures Shuffle(b + a, a, b)
    decreases b
  {
    if b == [] {
      assert b + a == a;
      Concatenation(a, b);
      assert a + b == a;
    } else {
      SecondFirst(a, b[1..]);
      assert (b + a)[1..] == b[1..] + a;
    }
  }

  lemma CoinsRun(env: Env, a: Node, b: Node, start: int, st: State)
    requires Coin(env, a) && Coin(env, b)
    ensures var r := RunBranches(env, [a, b], None, start, st);
            && |r.outcomes| == 2 && r.st == State(st.cursor + 2, st.polls + 2, st.readings)
            && (r.outcomes[0].success <==> Survives(env, a, st.cursor))
            && (r.outcomes[1].success <==> Survives(env, b, st.cursor + 1))
  {
    hide RunNode, Survives, Coin;
    CoinRuns(env, a, start, st);
    var next := State(st.cursor + 1, st.polls + 1, st.readings);
    CoinRuns(env, b, start, next);
    var r := RunNode(env, a, None, start, st);
    assert [a, b][1..] == [b] && [b][1..] == [];
    assert RunBranches(env, [], None, start, RunNode(env, b, None, start, next).st).outcomes == [];
    assert RunBranches(env, [b], None, start, next).outcomes == [RunNode(env, b, None, start, next).outcome];
  }

  /** The environment as two branches see it when the second draws first. */
  function SecondDrawsFirst(env: Env, c: nat): Env {
    env.(float := (k: nat) => env.float(Swapped(k, c)), intn := (k: nat, n: int) => env.intn(Swapped(k, c), n))
  }

  lemma PairTrace(env: Env, a: Node, b: Node, start: int, st: State)
    ensures TraceNode(env, GroupNode([a, b]), None, start, st)
         == Both(TraceNode(env, a, None, start, st), TraceBranches(env, [b], None, start, RunNode(env, a, None, start, st).st))
  {
    hide RunNode;
    assert [a, b][1..] == [b];
  }

  /** Each of the two branches asks what lies between its states. */
  lemma PairAsks(env: Env, a: Node, b: Node, start: int, st: State)
    requires Coin(env, a) && Coin(env, b)
    ensures var middle, end := State(st.cursor + 1, st.polls + 1, st.readings), State(st.cursor + 2, st.polls + 2, st.readings);
            && RunNode(env, a, None, start, st).st == middle
            && Fits(TraceNode(env, a, None, start, st), st, middle, RunNode(env, a, None, start, st).spans)
            && Fits(TraceBranches(env, [b], None, start, middle), middle, end, RunBranches(env, [b], None, start, middle).spans)
  {
    hide RunNode, Survives, Coin, Fits;
    var middle := State(st.cursor + 1, st.polls + 1, st.readings);
    CoinRuns(env, a, start, st);
    CoinRuns(env, b, start, middle);
    assert [b][1..] == [];
  }

  /** The log in which the second branch runs before the first. */
  lemma SecondBranchFirst(env: Env, a: Node, b: Node, start: int, st: State) returns (log: seq<Entry>)
    requires Coin(env, a) && Coin(env, b)
    ensures Linear(log, TraceNode(env, GroupNode([a, b]), None, start, st), [])
    ensures Order(log, Draws) == [st.cursor + 1, st.cursor] && Order(log, Readings) == []
  {
    hide Linear, InOrder, RunNode, RunBranches, Shuffle, Coin, TraceNode, TraceBranches, Order;
    var middle, end := State(st.cursor + 1, st.polls + 1, st.readings), State(st.cursor + 2, st.polls + 2, st.readings);
    PairAsks(env, a, b, start, st);
    PairTrace(env, a, b, start, st);
    var one, other := TraceNode(env, a, None, start, st), TraceBranches(env, [b], None, start, middle);
    log := InOrder(other, [1]) + InOrder(one, [0]);
    InOrderIsLinear(one, [0]);
    InOrderIsLinear(other, [1]);
    SecondFirst(InOrder(one, [0]), InOrder(other, [1]));
    BothLinear(log, one, other);
    forall x
      ensures Order(log, x) == Range(At(middle, x), At(end, x)) + Range(At(st, x), At(middle, x))
    {
      OrderJoin(InOrder(other, [1]), InOrder(one, [0]), x);
      InOrderAsks(other, [1], x);
      InOrderAsks(one, [0], x);
    }
  }

  lemma SwapAnswers(env: Env, log: seq<Entry>, st: State)
    requires Order(log, Draws) == [st.cursor + 1, st.cursor] && Order(log, Readings) == [] && forall c :: !env.canceled(c)
    ensures Answered(env, SecondDrawsFirst(env, st.cursor), log, st)
  {
    hide Order;
    var c := st.cursor;
    assert [c + 1, c][1..] == [c];
    forall k: nat
      ensures Place(log, Draws, k, st) == Swapped(k, c) && Place(log, Readings, k, st) == k
    {
    }
  }

  lemma BothLinear(log: seq<Entry>, one: Trace, other: Trace)
    requires Shuffle(log, InOrder(one, [0]), InOrder(other, [1]))
    requires Linear(InOrder(one, [0]), one, [0]) && Linear(InOrder(other, [1]), other, [1])
    ensures Linear(log, Both(one, other), [])
  {
    hide Shuffle, InOrder;
    assert [] + [0] == [0] && [] + [1] == [1];
  }

  /** Which of two calls fails is a matter of the schedule: the branch that runs first takes the first draw. */
  lemma ScheduleDecides(env: Env, a: Node, b: Node, start: int, st: State)
    requires Coin(env, a) && Coin(env, b)
    ensures var o := RunBranches(env, [a, b], None, start, st).outcomes;
            |o| == 2 && (o[0].success <==> Survives(env, a, st.cursor)) && (o[1].success <==> Survives(env, b, st.cursor + 1))
    ensures exists seen, log ::
              && ConcurrentRun(env, seen, GroupNode([a, b]), None, start, st, log)
              && var o := RunBranches(seen, [a, b], None, start, st).outcomes;
                 |o| == 2 && (o[0].success <==> Survives(env, a, st.cursor + 1)) && (o[1].success <==> Survives(env, b, st.cursor))
  {
    hide RunBranches, RunNode, Linear, Answered, TraceNode, Order;
    var seen := SecondDrawsFirst(env, st.cursor);
    CoinsRun(env, a, b, start, st);
    CoinsSwapped(env, a, st.cursor);
    CoinsSwapped(env, b, st.cursor);
    CoinsRun(seen, a, b, start, st);
    var log := SecondBranchFirst(seen, a, b, start, st);
    SwapAnswers(env, log, st);
    assert ConcurrentRun(env, seen, GroupNode([a, b]), None, start, st, log);
  }

  lemma CoinsSwapped(env: Env, n: Node, c: nat)
    requires Coin(env, n)
    ensures var seen := SecondDrawsFirst(env, c);
            Coin(seen, n) && (Survives(seen, n, c) <==> Survives(env, n, c + 1)) && (Survives(seen, n, c + 1) <==> Survives(env, n, c))
  {
    hide ClampProbability;
    var seen := SecondDrawsFirst(env, c);
    assert Swapped(c, c) == c + 1 && Swapped(c + 1, c) == c;
    assert seen.float(c) == env.float(c + 1) && seen.float(c + 1) == env.float(c);
  }

  // ----- What no schedule reorders

  /** The log is a whole run of one part and then a whole run of another. */
  ghost predicate InTurn(log: seq<Entry>, one: Trace, other: Trace, path: Id) {
    exists i | 0 <= i <= |log| :: Linear(log[..i], one, path + [0]) && Linear(log[i..], other, path + [1])
  }

  lemma Turns(log: seq<Entry>, one: Trace, other: Trace, path: Id)
    ensures Linear(log, Then(one, other), path) <==> InTurn(log, one, other, path)
  {
  }

  /** Whatever the schedule, a step is over before the next begins. */
  lemma StepsInTurn(env: Env, ns: seq<Node>, parent: Option<Outcome>, start: int, total: int, last: Outcome, st: State,
                    log: seq<Entry>, path: Id)
    requires ns != []
    ensures var r := RunNode(env, ns[0], parent, start + total, st);
            Linear(log, TraceSteps(env, ns, parent, start, total, last, st), path)
            <==> InTurn(log, TraceNode(env, ns[0], parent, start + total, st),
                        TraceSteps(env, ns[1..], NextParent(parent, r.outcome), start, total + r.outcome.latency, r.outcome, r.st), path)
  {
    hide RunNode, TraceNode, Linear, InTurn;
    var r := RunNode(env, ns[0], parent, start + total, st);
    Turns(log, TraceNode(env, ns[0], parent, start + total, st),
          TraceSteps(env, ns[1..], NextParent(parent, r.outcome), start, total + r.outcome.latency, r.outcome, r.st), path);
  }

  /** So is a child before its next sibling. */
  lemma KidsInTurn(env: Env, ns: seq<Node>, parent: Outcome, start: int, total: int, st: State, log: seq<Entry>, path: Id)
    requires ns != [] && (RunNode(env, ns[0], Some(parent), start + total, st).outcome.success || !parent.success)
    ensures var r := RunNode(env, ns[0], Some(parent), start + total, st);
            Linear(log, TraceKids(env, ns, parent, start, total, st), path)
            <==> InTurn(log, TraceNode(env, ns[0], Some(parent), start + total, st),
                        TraceKids(env, ns[1..], parent, start, total + r.outcome.latency, r.st), path)
  {
    hide RunNode, TraceNode, Linear, InTurn;
    var r := RunNode(env, ns[0], Some(parent), start + total, st);
    Turns(log, TraceNode(env, ns[0], Some(parent), start + total, st),
          TraceKids(env, ns[1..], parent, start, total + r.outcome.latency, r.st), path);
  }

  /** And a failed fallback before the next is tried. */
  lemma FallbacksInTurn(env: Env, fs: seq<Edge>, action: ExhaustedAction, out: Outcome, start: int, st: State, log: seq<Entry>, path: Id)
    requires fs != [] && !RunFallback(env, fs[0], start + out.latency, st).outcome.success
    ensures var f := RunFallback(env, fs[0], start + out.latency, st);
            Linear(log, TraceFallbacks(env, fs, action, out, start, st), path)
            <==> InTurn(log, TraceFallback(env, fs[0], start + out.latency, st),
                        TraceFallbacks(env, fs[1..], action, AfterFailed(out, f.outcome, fs[0]), start, f.st), path)
  {
    hide RunFallback, TraceFallback, Linear, InTurn;
    var f := RunFallback(env, fs[0], start + out.latency, st);
    Turns(log, TraceFallback(env, fs[0], start + out.latency, st),
          TraceFallbacks(env, fs[1..], action, AfterFailed(out, f.outcome, fs[0]), start, f.st), path);
  }

  ghost predicate Mixed(log: seq<Entry>, one: Trace, other: Trace, path: Id) {
    exists l, m :: Shuffle(log, l, m) && Linear(l, one, path + [0]) && Linear(m, other, path + [1])
  }

  lemma Mixes(log: seq<Entry>, one: Trace, other: Trace, path: Id)
    ensures Linear(log, Both(one, other), path) <==> Mixed(log, one, other, path)
  {
  }

  /** The branches of a group mix in every way. */
  lemma BranchesMix(env: Env, ns: seq<Node>, parent: Option<Outcome>, start: int, st: State, log: seq<Entry>, path: Id)
    requires ns != []
    ensures Linear(log, TraceBranches(env, ns, parent, start, st), path)
       <==> Mixed(log, TraceNode(env, ns[0], parent, start, st),
                  TraceBranches(env, ns[1..], parent, start, RunNode(env, ns[0], parent, start, st).st), path)
  {
    hide RunNode, TraceNode, Linear, Mixed;
    Mixes(log, TraceNode(env, ns[0], parent, start, st),
          TraceBranches(env, ns[1..], parent, start, RunNode(env, ns[0], parent, start, st).st), path);
  }

  /** An attempt asks for its faults, instance and latency before its own span begins, and for everything else inside it. */
  lemma AttemptInTurn(env: Env, node: Node, start: int, st: State, log: seq<Entry>, path: Id) returns (i: nat)
    requires Linear(log, TraceSingle(env, node, start, st), path)
    ensures i < |log| && log[i].Began? && log[i].info.role.OperationSpan? && log[i].at == start
    ensures log[|log| - 1].Ended? && log[|log| - 1].id == log[i].id
    ensures var ready := Prepared(env, node, st);
            forall x :: multiset(Order(log[..i], x)) == multiset(Range(At(st, x), At(ready, x)))
  {
    hide TraceSingle, Linear, Order, Prepared, Numbers, Range;
    AttemptTrace(env, node, start, st);
    i := Preluded(log, TraceSingle(env, node, start, st), path);
  }

  lemma TwoOrders(a: seq<Entry>, b: seq<Entry>, t: Trace, u: Trace, p: Id, q: Id)
    requires Linear(a, t, p) && Linear(b, u, q)
    ensures forall x :: multiset(Order(a + b, x)) == multiset(Numbers(t, x)) + multiset(Numbers(u, x))
  {
    hide Linear, Order, Numbers;
    forall x
      ensures multiset(Order(a + b, x)) == multiset(Numbers(t, x)) + multiset(Numbers(u, x))
    {
      LinearOrder(a, t, p, x);
      LinearOrder(b, u, q, x);
      OrderJoin(a, b, x);
    }
  }

  lemma Joined(log: seq<Entry>, j: nat, k: nat)
    requires j <= |log| && k < |log[j..]|
    ensures log[..j + k] == log[..j] + log[j..][..k] && log[j..][k..] == log[j + k..]
    ensures log[j..][k..][0] == log[j + k] && log[j..][k..][|log| - j - k - 1] == log[|log| - 1]
  {
  }

  lemma Preluded(log: seq<Entry>, t: Trace, path: Id) returns (i: nat)
    requires t.Then? && t.second.Then? && t.second.second.Spanned? && Linear(log, t, path)
    ensures i < |log| && log[i] == Began(path + [1] + [1], t.second.second.info, t.second.second.start)
    ensures log[|log| - 1].Ended? && log[|log| - 1].id == log[i].id
    ensures forall x :: multiset(Order(log[..i], x)) == multiset(Numbers(t.first, x)) + multiset(Numbers(t.second.first, x))
  {
    hide *;
    var j := ThenSplits(log, t, path);
    var rest := log[j..];
    var k := ThenSplits(rest, t.second, path + [1]);
    i := j + k;
    SpanEnds(rest[k..], t.second.second, path + [1] + [1]);
    Joined(log, j, k);
    TwoOrders(log[..j], rest[..k], t.first, t.second.first, path + [0], path + [1] + [0]);
  }

  lemma AttemptTrace(env: Env, node: Node, start: int, st: State)
    ensures var t, ready := TraceSingle(env, node, start, st), Prepared(env, node, st);
      && t.Then? && t.second.Then? && t.second.second.Spanned?
      && (forall x :: Numbers(t.first, x) == Range(At(st, x), At(ready, x)))
      && (forall x :: Numbers(t.second.first, x) == [])
      && t.second.second.info.role.OperationSpan? && t.second.second.start == start
  {
    hide OpenAttempt, Prepared, RunKids, TraceKids, Range;
    AttemptForward(env, node, st);
    AsksFit(st, Prepared(env, node, st));
  }
}
