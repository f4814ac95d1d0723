/** The begin/finish log behind a span forest, sequential or under any interleaving of siblings. */
module SpanLog {
  import opened ExecModel

  datatype Event = Begin(info: SpanInfo, at: int) | Finish(info: SpanInfo, at: int, ending: Ending)

  function Flatten(span: Span): seq<Event>
    decreases span, 1
  {
    [Begin(span.info, span.start)] + FlattenAll(span.kids) + [Finish(span.info, span.end, span.ending)]
  }

  function FlattenAll(spans: seq<Span>): seq<Event>
    decreases spans, 0
  {
    if spans == [] then [] else Flatten(spans[0]) + FlattenAll(spans[1..])
  }

  lemma {:induction false} FlattenJoin(a: seq<Span>, b: seq<Span>)
    ensures FlattenAll(a + b) == FlattenAll(a) + FlattenAll(b)
    decreases a
  {
    hide Flatten;
    if a == [] {
      assert a + b == b;
    } else {
      FlattenJoin(a[1..], b);
      assert (a + b)[1..] == a[1..] + b;
      var first := Flatten(a[0]);
      assert first + (FlattenAll(a[1..]) + FlattenAll(b)) == (first + FlattenAll(a[1..])) + FlattenAll(b);
    }
  }

  lemma FlattenNone()
    ensures FlattenAll([]) == []
  {
  }

  lemma FlattenOne(span: Span)
    ensures FlattenAll([span]) == Flatten(span)
  {
    assert [span][1..] == [];
  }

  // ----- Bracketing

  datatype Replayed = Broken | Open(stack: seq<SpanInfo>)

  /** Runs a log against the stack of open spans; a finish must match the innermost one. */
  function Replay(stack: seq<SpanInfo>, log: seq<Event>): Replayed
    decreases log
  {
    if log == [] then Open(stack)
    else
      match log[0]
      case Begin(info, _) => Replay(stack + [info], log[1..])
      case Finish(info, _, _) =>
        if stack != [] && stack[|stack| - 1] == info then Replay(stack[..|stack| - 1], log[1..]) else Broken
  }

  lemma {:induction false} ForestReplays(stack: seq<SpanInfo>, spans: seq<Span>, rest: seq<Event>)
    ensures Replay(stack, FlattenAll(spans) + rest) == Replay(stack, rest)
    decreases spans, 0
  {
    if spans == [] {
      assert FlattenAll(spans) + rest == rest;
    } else {
      var tail := FlattenAll(spans[1..]) + rest;
      assert FlattenAll(spans) + rest == Flatten(spans[0]) + tail;
      SpanReplays(stack, spans[0], tail);
      ForestReplays(stack, spans[1..], rest);
    }
  }

  lemma {:induction false} SpanReplays(stack: seq<SpanInfo>, span: Span, rest: seq<Event>)
    ensures Replay(stack, Flatten(span) + rest) == Replay(stack, rest)
    decreases span, 1
  {
    var close := [Finish(span.info, span.end, span.ending)] + rest;
    var log := Flatten(span) + rest;
    assert log[0] == Begin(span.info, span.start) && log[1..] == FlattenAll(span.kids) + close;
    ForestReplays(stack + [span.info], span.kids, close);
    assert (stack + [span.info])[..|stack|] == stack;
    assert close[1..] == rest;
  }

  /** A run's log is well bracketed: replaying it opens and closes everything. */
  lemma ForestBracketed(spans: seq<Span>)
    ensures Replay([], FlattenAll(spans)) == Open([])
  {
    ForestReplays([], spans, []);
    assert FlattenAll(spans) + [] == FlattenAll(spans);
  }

  // ----- Interleavings

  /** log interleaves a and b. */
  ghost predicate Shuffle<T>(log: seq<T>, a: seq<T>, b: seq<T>)
    decreases log
  {
    if log == [] then a == [] && b == []
    else
      || (a != [] && a[0] == log[0] && Shuffle(log[1..], a[1..], b))
      || (b != [] && b[0] == log[0] && Shuffle(log[1..], a, b[1..]))
  }

  /**
   log is some concurrent emission of the forest: each span's kids happen between
   its begin and its finish, siblings interleave freely.  Whatever subset of the
   siblings ran in parallel branches, and however they were scheduled, is covered.
   */
  ghost predicate Emits(log: seq<Event>, spans: seq<Span>)
    decreases spans, 0
  {
    if spans == [] then log == []
    else exists a, b :: Shuffle(log, a, b) && EmitsSpan(a, spans[0]) && Emits(b, spans[1..])
  }

  ghost predicate EmitsSpan(log: seq<Event>, span: Span)
    decreases span, 1
  {
    && |log| >= 2
    && log[0] == Begin(span.info, span.start)
    && log[|log| - 1] == Finish(span.info, span.end, span.ending)
    && Emits(log[1..|log| - 1], span.kids)
  }

  /** How often a span with this identity is begun, less how often it is finished. */
  function Active(log: seq<Event>, info: SpanInfo): int {
    if log == [] then 0
    else (if log[0].info != info then 0 else if log[0].Begin? then 1 else -1) + Active(log[1..], info)
  }

  /** The gauge of active spans never falls below where it started, and ends there. */
  ghost predicate Balanced(log: seq<Event>) {
    && (forall info :: Active(log, info) == 0)
    && (forall n: nat, info | n <= |log| :: Active(log[..n], info) >= 0)
  }

  lemma {:induction false} ActiveJoin(a: seq<Event>, b: seq<Event>, info: SpanInfo)
    ensures Active(a + b, info) == Active(a, info) + Active(b, info)
    decreases a
  {
    if a == [] {
      assert a + b == b;
    } else {
      ActiveJoin(a[1..], b, info);
      assert (a + b)[1..] == a[1..] + b;
    }
  }

  /** A prefix of an interleaving interleaves two prefixes. */
  lemma {:induction false} ShufflePrefix(log: seq<Event>, a: seq<Event>, b: seq<Event>, n: nat, info: SpanInfo)
    returns (i: nat, j: nat)
    requires Shuffle(log, a, b) && n <= |log|
    ensures i <= |a| && j <= |b| && Active(log[..n], info) == Active(a[..i], info) + Active(b[..j], info)
    ensures n == |log| ==> i == |a| && j == |b|
    decreases log
  {
    if n == 0 {
      i, j := 0, 0;
    } else {
      assert log[..n][1..] == log[1..][..n - 1];
      if a != [] && a[0] == log[0] && Shuffle(log[1..], a[1..], b) {
        i, j := ShufflePrefix(log[1..], a[1..], b, n - 1, info);
        assert a[..i + 1][1..] == a[1..][..i];
        i := i + 1;
      } else {
        i, j := ShufflePrefix(log[1..], a, b[1..], n - 1, info);
        assert b[..j + 1][1..] == b[1..][..j];
        j := j + 1;
      }
    }
  }

  lemma ShuffleBalanced(log: seq<Event>, a: seq<Event>, b: seq<Event>)
    requires Shuffle(log, a, b) && Balanced(a) && Balanced(b)
    ensures Balanced(log)
  {
    forall n: nat, info | n <= |log|
      ensures Active(log[..n], info) >= 0
      ensures n == |log| ==> Active(log[..n], info) == 0
    {
      var i, j := ShufflePrefix(log, a, b, n, info);
      if n == |log| {
        assert a[..i] == a && b[..j] == b;
      }
    }
    assert log[..|log|] == log;
  }

  lemma WrapBalanced(info: SpanInfo, at: int, inner: seq<Event>, end: int, ending: Ending)
    requires Balanced(inner)
    ensures Balanced([Begin(info, at)] + inner + [Finish(info, end, ending)])
  {
    var open, close := [Begin(info, at)], [Finish(info, end, ending)];
    var log := open + inner + close;
    forall n: nat, x | n <= |log|
      ensures Active(log[..n], x) >= 0
      ensures n == |log| ==> Active(log[..n], x) == 0
    {
      if n == 0 {
      } else if n <= |inner| + 1 {
        assert log[..n] == open + inner[..n - 1];
        ActiveJoin(open, inner[..n - 1], x);
      } else {
        assert log[..n] == open + inner + close;
        ActiveJoin(open + inner, close, x);
        ActiveJoin(open, inner, x);
      }
    }
    assert log[..|log|] == log;
  }

  /** Under every interleaving each begun span is finished exactly once, never before it began. */
  lemma {:induction false} EmissionBalanced(log: seq<Event>, spans: seq<Span>)
    requires Emits(log, spans)
    ensures Balanced(log)
    decreases spans, 0
  {
    if spans != [] {
      var a, b :| Shuffle(log, a, b) && EmitsSpan(a, spans[0]) && Emits(b, spans[1..]);
      SpanEmissionBalanced(a, spans[0]);
      EmissionBalanced(b, spans[1..]);
      ShuffleBalanced(log, a, b);
    }
  }

  lemma {:induction false} SpanEmissionBalanced(log: seq<Event>, span: Span)
    requires EmitsSpan(log, span)
    ensures Balanced(log)
    decreases span, 1
  {
    var inner := log[1..|log| - 1];
    EmissionBalanced(inner, span.kids);
    WrapBalanced(span.info, span.start, inner, span.end, span.ending);
    assert log == [log[0]] + inner + [log[|log| - 1]];
  }

  lemma {:induction false} Concatenation<T>(a: seq<T>, b: seq<T>)
    ensures Shuffle(a + b, a, b)
    decreases |a| + |b|
  {
    if a != [] {
      assert (a + b)[1..] == a[1..] + b;
      Concatenation(a[1..], b);
    } else if b != [] {
      assert (a + b)[1..] == a + b[1..];
      Concatenation(a, b[1..]);
    }
  }

  /** The sequential log is one of the emissions. */
  lemma {:induction false} SequentialEmits(spans: seq<Span>)
    ensures Emits(FlattenAll(spans), spans)
    decreases spans, 0
  {
    if spans != [] {
      SequentialEmitsSpan(spans[0]);
      SequentialEmits(spans[1..]);
      Concatenation(Flatten(spans[0]), FlattenAll(spans[1..]));
    }
  }

  lemma {:induction false} SequentialEmitsSpan(span: Span)
    ensures EmitsSpan(Flatten(span), span)
    decreases span, 1
  {
    var log := Flatten(span);
    SequentialEmits(span.kids);
    assert log[1..|log| - 1] == FlattenAll(span.kids);
  }

  // ----- Emissions side by side

  lemma {:induction false} ShuffleAlone<T>(log: seq<T>, b: seq<T>)
    requires Shuffle(log, [], b)
    ensures log == b
    decreases log
  {
    if log != [] { ShuffleAlone(log[1..], b[1..]); }
  }

  /** Interleaving is associative. */
  lemma {:induction false} ShuffleAssociates<T>(log: seq<T>, a: seq<T>, b: seq<T>, a0: seq<T>, a1: seq<T>) returns (c: seq<T>)
    requires Shuffle(log, a, b) && Shuffle(a, a0, a1)
    ensures Shuffle(log, a0, c) && Shuffle(c, a1, b)
    decreases log
  {
    if log == [] {
      c := [];
    } else if a != [] && a[0] == log[0] && Shuffle(log[1..], a[1..], b) {
      if a0 != [] && a0[0] == a[0] && Shuffle(a[1..], a0[1..], a1) {
        c := ShuffleAssociates(log[1..], a[1..], b, a0[1..], a1);
      } else {
        var rest := ShuffleAssociates(log[1..], a[1..], b, a0, a1[1..]);
        c := [log[0]] + rest;
        assert c[1..] == rest;
      }
    } else {
      var rest := ShuffleAssociates(log[1..], a, b[1..], a0, a1);
      c := [log[0]] + rest;
      assert c[1..] == rest;
    }
  }

  /** Two emissions interleaved emit both forests. */
  lemma {:induction false} EmitsTogether(log: seq<Event>, a: seq<Event>, b: seq<Event>, s: seq<Span>, s': seq<Span>)
    requires Shuffle(log, a, b) && Emits(a, s) && Emits(b, s')
    ensures Emits(log, s + s')
    decreases s
  {
    hide EmitsSpan;
    if s == [] {
      ShuffleAlone(log, b);
      assert s + s' == s';
    } else {
      var a0, a1 :| Shuffle(a, a0, a1) && EmitsSpan(a0, s[0]) && Emits(a1, s[1..]);
      var c := ShuffleAssociates(log, a, b, a0, a1);
      EmitsTogether(c, a1, b, s[1..], s');
      assert (s + s')[1..] == s[1..] + s';
    }
  }
}
