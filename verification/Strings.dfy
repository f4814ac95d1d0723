/** Go's string helpers: byte order and sorting, TrimSpace and ToLower as the token parsers need them, and Cut. */
module Strings {
  import opened Wrappers

  // ----- Byte order on strings, as sort.Strings uses it

  predicate Less(a: string, b: string) {
    if b == "" then false
    else if a == "" then true
    else a[0] < b[0] || (a[0] == b[0] && Less(a[1..], b[1..]))
  }

  lemma {:induction false} LessTotal(a: string, b: string)
    ensures a == b || Less(a, b) || Less(b, a)
    ensures !(Less(a, b) && (Less(b, a) || a == b))
    decreases |a|
  {
    if a != "" && b != "" && a[0] == b[0] {
      LessTotal(a[1..], b[1..]);
      assert a == [a[0]] + a[1..] && b == [b[0]] + b[1..];
    }
  }

  lemma {:induction false} LessTransitive(a: string, b: string, c: string)
    requires Less(a, b) && Less(b, c)
    ensures Less(a, c)
    decreases |a|
  {
    if a != "" && a[0] == b[0] == c[0] {
      LessTransitive(a[1..], b[1..], c[1..]);
    }
  }

  /** a and b agree on their first k letters, and a ends there or goes on with a smaller letter. */
  predicate ComesFirst(a: string, b: string, k: nat) {
    k <= |a| && k < |b| && a[..k] == b[..k] && (k == |a| || a[k] < b[k])
  }

  lemma ComesFirstTail(a: string, b: string, k: nat)
    requires a != "" && b != "" && a[0] == b[0]
    ensures ComesFirst(a, b, k + 1) <==> ComesFirst(a[1..], b[1..], k)
    ensures !ComesFirst(a, b, 0)
  {
    if k <= |a[1..]| && k < |b[1..]| {
      assert a[..k + 1] == [a[0]] + a[1..][..k] && b[..k + 1] == [b[0]] + b[1..][..k];
      assert a[..k + 1][1..] == a[1..][..k] && b[..k + 1][1..] == b[1..][..k];
    }
  }

  lemma SameStart(a: string, b: string, k: nat)
    requires k > 0 && ComesFirst(a, b, k)
    ensures a != "" && b != "" && a[0] == b[0]
  {
    assert a[0] == a[..k][0] && b[0] == b[..k][0];
  }

  /** One string is before another when it is a proper prefix, or smaller where they first differ. */
  lemma {:induction false} LessMeans(a: string, b: string)
    ensures Less(a, b) <==> exists k :: ComesFirst(a, b, k)
    decreases a
  {
    if a != "" && b != "" && a[0] == b[0] {
      LessMeans(a[1..], b[1..]);
      ComesFirstTail(a, b, 0);
      if Less(a, b) {
        var k :| ComesFirst(a[1..], b[1..], k);
        ComesFirstTail(a, b, k);
      }
      forall k: nat | ComesFirst(a, b, k)
        ensures Less(a, b)
      {
        ComesFirstTail(a, b, k - 1);
      }
    } else {
      if Less(a, b) { assert ComesFirst(a, b, 0); }
      forall k: nat | ComesFirst(a, b, k)
        ensures Less(a, b)
      {
        if k > 0 { SameStart(a, b, k); }
      }
    }
  }

  ghost predicate Sorted(keys: seq<string>) {
    forall i, j | 0 <= i < j < |keys| :: Less(keys[i], keys[j])
  }

  lemma SomeMember(b: seq<string>)
    ensures b != [] ==> exists k :: k in b
  {
    if b != [] { assert b[0] in b; }
  }

  /** The sorted key list is unique, so no map order can show through. */
  lemma {:induction false} SortedUnique(a: seq<string>, b: seq<string>)
    requires Sorted(a) && Sorted(b) && forall k :: k in a <==> k in b
    ensures a == b
    decreases |a|
  {
    if a == [] {
      SomeMember(b);
    } else {
      SomeMember(b);
      assert a[0] in a && b[0] in b;
      LessTotal(a[0], b[0]);
      assert a[0] == b[0];
      forall k
        ensures k in a[1..] <==> k in b[1..]
      {
        LessTotal(a[0], a[0]);
        assert k in a <==> k == a[0] || k in a[1..];
        assert k in b <==> k == b[0] || k in b[1..];
      }
      SortedUnique(a[1..], b[1..]);
    }
  }

  /** Any enumeration of the keys, sorted by insertion. */
  method SortStrings(keys: seq<string>) returns (sorted: seq<string>)
    requires forall i, j | 0 <= i < j < |keys| :: keys[i] != keys[j]
    ensures Sorted(sorted) && forall k :: k in sorted <==> k in keys
  {
    sorted := [];
    for i := 0 to |keys|
      invariant Sorted(sorted) && forall k :: k in sorted <==> k in keys[..i]
    {
      var x, j := keys[i], 0;
      while j < |sorted| && Less(sorted[j], x)
        invariant j <= |sorted| && forall m | 0 <= m < j :: Less(sorted[m], x)
      {
        j := j + 1;
      }
      assert x !in keys[..i];
      InsertSorted(sorted, x, j);
      sorted := sorted[..j] + [x] + sorted[j..];
      assert keys[..i + 1] == keys[..i] + [x];
    }
    assert keys[..|keys|] == keys;
  }

  lemma InsertSorted(sorted: seq<string>, x: string, j: nat)
    requires Sorted(sorted) && x !in sorted && j <= |sorted|
    requires forall m | 0 <= m < j :: Less(sorted[m], x)
    requires j < |sorted| ==> !Less(sorted[j], x)
    ensures Sorted(sorted[..j] + [x] + sorted[j..])
    ensures forall k :: k in sorted[..j] + [x] + sorted[j..] <==> k in sorted || k == x
  {
    forall m | j <= m < |sorted|
      ensures Less(x, sorted[m])
    {
      LessTotal(x, sorted[j]);
      if m > j { LessTransitive(x, sorted[j], sorted[m]); }
    }
    assert sorted == sorted[..j] + sorted[j..];
  }

  /** The sorted listing of a finite set exists, so it may be named. */
  lemma {:induction false} SortedExists(keys: set<string>)
    ensures exists ks :: Sorted(ks) && forall k :: k in ks <==> k in keys
  {
    if keys == {} {
      var ks: seq<string> := [];
      assert Sorted(ks) && forall k :: k in ks <==> k in keys;
    } else {
      var x :| x in keys;
      SortedExists(keys - {x});
      var ks :| Sorted(ks) && forall k :: k in ks <==> k in keys - {x};
      var j := Position(ks, x);
      InsertSorted(ks, x, j);
      var out := ks[..j] + [x] + ks[j..];
      assert Sorted(out) && forall k :: k in out <==> k in keys;
    }
  }

  function Position(sorted: seq<string>, x: string): (j: nat)
    ensures j <= |sorted| && (forall m | 0 <= m < j :: Less(sorted[m], x)) && (j < |sorted| ==> !Less(sorted[j], x))
  {
    if sorted == [] || !Less(sorted[0], x) then 0 else 1 + Position(sorted[1..], x)
  }

  /** The keys in ascending order. */
  ghost function Ascending(keys: set<string>): (ks: seq<string>)
    ensures Sorted(ks) && forall k :: k in ks <==> k in keys
  {
    SortedExists(keys);
    var ks :| Sorted(ks) && forall k :: k in ks <==> k in keys;
    ks
  }

  /** sortedKeys: the keys leave the map in any order and come out ascending. */
  method SortKeys(keys: set<string>) returns (sorted: seq<string>)
    ensures sorted == Ascending(keys)
  {
    var rest, listed: seq<string> := keys, [];
    while rest != {}
      invariant rest <= keys
      invariant forall k :: k in listed <==> k in keys && k !in rest
      invariant forall i, j | 0 <= i < j < |listed| :: listed[i] != listed[j]
    {
      var k :| k in rest;
      rest := rest - {k};
      listed := listed + [k];
    }
    sorted := SortStrings(listed);
    SortedUnique(sorted, Ascending(keys));
  }

  // ----- strings.Cut

  /** The parts before and after the first occurrence of sep. */
  function Cut(s: string, sep: string): (r: Option<(string, string)>)
    ensures r.Some? ==> s == r.value.0 + sep + r.value.1 && forall i | 0 <= i < |r.value.0| :: !(sep <= s[i..])
    ensures r.None? ==> forall i | 0 <= i <= |s| :: !(sep <= s[i..])
  {
    if sep <= s then Some(("", s[|sep|..]))
    else if s == "" then None
    else
      var r := Cut(s[1..], sep);
      assert forall i | 1 <= i <= |s| :: s[i..] == s[1..][i - 1..];
      match r
      case None => None
      case Some((before, after)) => Some(([s[0]] + before, after))
  }

  /** Two strings cut at the first occurrence of the same mark agree piece by piece. */
  lemma CutUnique(a: string, b: string, x: string, y: string, mark: char)
    requires mark !in a && mark !in b && a + [mark] + x == b + [mark] + y
    ensures a == b && x == y
  {
    var s := a + [mark] + x;
    assert s[|a|] == mark && s[|b|] == mark;
    assert forall i | 0 <= i < |a| :: s[i] == a[i] != mark;
    assert forall i | 0 <= i < |b| :: s[i] == b[i] != mark;
    assert a == s[..|a|] && b == s[..|b|];
    assert x == s[|a| + 1..] && y == s[|b| + 1..];
  }

  // ----- Token folding

  /** unicode.IsSpace. */
  predicate IsSpace(c: char) {
    var code := c as int;
    || 9 <= code <= 13 || code == 0x20 || code == 0x85 || code == 0xA0 || code == 0x1680
    || 0x2000 <= code <= 0x200A || code == 0x2028 || code == 0x2029 || code == 0x202F || code == 0x205F || code == 0x3000
  }

  function TrimSpace(s: string): string {
    if s != "" && IsSpace(s[0]) then TrimSpace(s[1..])
    else if s != "" && IsSpace(s[|s| - 1]) then TrimSpace(s[..|s| - 1])
    else s
  }

  /** unicode.ToLower as far as an ASCII token can tell: besides A to Z only two letters have an ASCII lower case. */
  function LowerChar(c: char): char {
    if 'A' <= c <= 'Z' then c + ('a' - 'A')
    else if c as int == 0x212A then 'k'
    else if c as int == 0x130 then 'i'
    else c
  }

  function ToLower(s: string): (r: string)
    ensures |r| == |s|
  {
    seq(|s|, i requires 0 <= i < |s| => LowerChar(s[i]))
  }

  function Fold(s: string): string {
    ToLower(TrimSpace(s))
  }

  predicate IsToken(s: string) {
    forall i | 0 <= i < |s| :: 'a' <= s[i] <= 'z' || s[i] == '_'
  }

  lemma TokenFolds(s: string)
    requires IsToken(s)
    ensures Fold(s) == s
  {
    assert TrimSpace(s) == s;
  }

  ghost predicate Blank(s: string) {
    forall c | c in s :: IsSpace(c)
  }

  /** Trimming finds the part between the blanks. */
  lemma {:induction false} TrimFinds(s: string) returns (i: nat, j: nat)
    ensures i <= j <= |s| && TrimSpace(s) == s[i..j] && Blank(s[..i]) && Blank(s[j..])
    decreases |s|
  {
    if s != "" && IsSpace(s[0]) {
      var i', j' := TrimFinds(s[1..]);
      i, j := i' + 1, j' + 1;
      assert s[..i] == [s[0]] + s[1..][..i'] && s[j..] == s[1..][j'..] && s[i..j] == s[1..][i'..j'];
    } else if s != "" && IsSpace(s[|s| - 1]) {
      i, j := TrimFinds(s[..|s| - 1]);
      assert s[j..] == s[..|s| - 1][j..] + [s[|s| - 1]] && s[..i] == s[..|s| - 1][..i] && s[i..j] == s[..|s| - 1][i..j];
    } else {
      i, j := 0, |s|;
    }
  }

  lemma {:induction false} TrimPadded(left: string, word: string, right: string)
    requires Blank(left) && Blank(right) && (word != "" ==> !IsSpace(word[0]) && !IsSpace(word[|word| - 1]))
    ensures TrimSpace(left + word + right) == word
    decreases |left| + |right|
  {
    hide IsSpace;
    var s := left + word + right;
    if left != "" {
      assert s[0] == left[0] && left[0] in left && s[1..] == left[1..] + word + right;
      assert forall c | c in left[1..] :: c in left;
      TrimPadded(left[1..], word, right);
    } else if right != "" {
      var n := |right| - 1;
      assert s[|s| - 1] == right[n] && right[n] in right && s[..|s| - 1] == left + word + right[..n];
      assert forall c | c in right[..n] :: c in right;
      if word == "" {
        assert s == right && s[0] in right && s[1..] == left + word + right[1..];
        assert forall c | c in right[1..] :: c in right;
        TrimPadded(left, word, right[1..]);
      } else {
        assert s[0] == word[0];
        TrimPadded(left, word, right[..n]);
      }
    } else {
      assert s == word;
    }
  }

  /** c is the letter t in either case; two letters outside ASCII have an ASCII lower case as well. */
  predicate SameLetter(c: char, t: char) {
    || c == t || ('a' <= t <= 'z' && c as int == t as int - 32)
    || (t == 'k' && c as int == 0x212A) || (t == 'i' && c as int == 0x130)
  }

  predicate SameWord(word: string, token: string) {
    |word| == |token| && forall i | 0 <= i < |word| :: SameLetter(word[i], token[i])
  }

  /** A string reads as a token exactly when it is that token in some spelling between blanks. */
  lemma FoldMeans(s: string, token: string)
    requires IsToken(token)
    ensures Fold(s) == token <==> exists i, j :: 0 <= i <= j <= |s| && Blank(s[..i]) && Blank(s[j..]) && SameWord(s[i..j], token)
  {
    hide IsSpace, Blank, TrimSpace;
    var i, j := TrimFinds(s);
    LowerMeans(s[i..j], token);
    forall i, j | 0 <= i <= j <= |s| && Blank(s[..i]) && Blank(s[j..]) && SameWord(s[i..j], token)
      ensures Fold(s) == token
    {
      LettersSolid(s[i..j], token);
      TrimPadded(s[..i], s[i..j], s[j..]);
      assert s == s[..i] + s[i..j] + s[j..];
      LowerMeans(s[i..j], token);
    }
  }

  lemma LettersSolid(word: string, token: string)
    requires IsToken(token) && SameWord(word, token)
    ensures word != "" ==> !IsSpace(word[0]) && !IsSpace(word[|word| - 1])
  {
  }

  lemma LowerMeans(word: string, token: string)
    requires IsToken(token)
    ensures ToLower(word) == token <==> SameWord(word, token)
  {
    if |word| == |token| {
      forall i | 0 <= i < |word|
        ensures LowerChar(word[i]) == token[i] <==> SameLetter(word[i], token[i])
      {
      }
      assert ToLower(word) == token <==> forall i | 0 <= i < |word| :: ToLower(word)[i] == token[i];
    }
  }
}
