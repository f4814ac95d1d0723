/**
 hashTags and tagSetCache of k6output/convert.go: a tag map is encoded as a string
 of sorted "key=value;" pieces, and that string keys a cache of attribute sets.
 */
module TagCache {
  import opened Strings

  type Tags = map<string, string>

  ghost predicate SortedKeys(tags: Tags, keys: seq<string>) {
    Sorted(keys) && forall k :: k in keys <==> k in tags
  }

  // ----- The encoding

  function Encode(tags: Tags, keys: seq<string>): string
    requires forall k | k in keys :: k in tags
  {
    if keys == [] then "" else keys[0] + "=" + tags[keys[0]] + ";" + Encode(tags, keys[1..])
  }

  ghost predicate HashOf(tags: Tags, hash: string) {
    exists keys :: SortedKeys(tags, keys) && hash == Encode(tags, keys)
  }

  lemma {:induction false} EncodeLast(tags: Tags, keys: seq<string>, k: string)
    requires k in tags && forall x | x in keys :: x in tags
    ensures Encode(tags, keys + [k]) == Encode(tags, keys) + k + "=" + tags[k] + ";"
    decreases keys
  {
    if keys == [] {
      assert keys + [k] == [k];
    } else {
      EncodeLast(tags, keys[1..], k);
      assert (keys + [k])[1..] == keys[1..] + [k];
    }
  }

  /** hashTags: the keys come out of the map in some order, are sorted, and the pieces are written out. */
  method HashTags(tags: Tags) returns (hash: string)
    ensures HashOf(tags, hash)
    ensures forall other | HashOf(tags, other) :: other == hash
  {
    var keys: seq<string> := [];
    var rest := tags.Keys;
    while rest != {}
      invariant rest <= tags.Keys
      invariant forall k :: k in keys <==> k in tags && k !in rest
      invariant forall i, j | 0 <= i < j < |keys| :: keys[i] != keys[j]
    {
      var k :| k in rest;
      keys, rest := keys + [k], rest - {k};
    }
    keys := SortStrings(keys);
    hash := "";
    for i := 0 to |keys|
      invariant hash == Encode(tags, keys[..i])
    {
      assert keys[..i + 1] == keys[..i] + [keys[i]];
      EncodeLast(tags, keys[..i], keys[i]);
      hash := hash + keys[i] + "=" + tags[keys[i]] + ";";
    }
    assert keys[..|keys|] == keys;
    assert SortedKeys(tags, keys);
    forall other | HashOf(tags, other)
      ensures other == hash
    {
      var ks :| SortedKeys(tags, ks) && other == Encode(tags, ks);
      SortedUnique(ks, keys);
    }
  }

  /** No key has an '=' and no value has a ';', so the separators can be found again. */
  predicate Plain(tags: Tags) {
    forall k | k in tags :: '=' !in k && ';' !in tags[k]
  }

  lemma {:induction false} EncodeInjective(s: Tags, t: Tags, ks: seq<string>, ls: seq<string>)
    requires Plain(s) && Plain(t)
    requires (forall k | k in ks :: k in s) && (forall l | l in ls :: l in t)
    requires Encode(s, ks) == Encode(t, ls)
    ensures ks == ls && forall k | k in ks :: s[k] == t[k]
    decreases ks
  {
    if ks != [] && ls != [] {
      var k, l := ks[0], ls[0];
      var after, after' := s[k] + ";" + Encode(s, ks[1..]), t[l] + ";" + Encode(t, ls[1..]);
      assert Encode(s, ks) == k + "=" + after && Encode(t, ls) == l + "=" + after';
      CutUnique(k, l, after, after', '=');
      CutUnique(s[k], t[l], Encode(s, ks[1..]), Encode(t, ls[1..]), ';');
      EncodeInjective(s, t, ks[1..], ls[1..]);
    }
  }

  /** On plain tag maps the hash determines the map. */
  lemma HashInjective(s: Tags, t: Tags, hash: string)
    requires Plain(s) && Plain(t) && HashOf(s, hash) && HashOf(t, hash)
    ensures s == t
  {
    var ks :| SortedKeys(s, ks) && hash == Encode(s, ks);
    var ls :| SortedKeys(t, ls) && hash == Encode(t, ls);
    EncodeInjective(s, t, ks, ls);
    assert s.Keys == t.Keys;
  }

  lemma EncodeOne(tags: Tags, k: string)
    requires k in tags
    ensures Encode(tags, [k]) == k + "=" + tags[k] + ";"
  {
    EncodeLast(tags, [], k);
    assert [] + [k] == [k];
  }

  // ----- Which maps share their hash

  ghost predicate SameHash(s: Tags, t: Tags) {
    exists hash :: HashOf(s, hash) && HashOf(t, hash)
  }

  ghost predicate SharesHash(tags: Tags) {
    exists other :: other != tags && SameHash(tags, other)
  }

  /** Two entries, or an '=' that is not the one written between key and value. */
  predicate Ambiguous(tags: Tags) {
    |tags| >= 2 || exists k | k in tags :: '=' in k || '=' in tags[k]
  }

  lemma {:induction false} EncodeAgrees(s: Tags, t: Tags, keys: seq<string>)
    requires forall k | k in keys :: k in s && k in t && s[k] == t[k]
    ensures Encode(s, keys) == Encode(t, keys)
    decreases keys
  {
    if keys != [] { EncodeAgrees(s, t, keys[1..]); }
  }

  /** tags with its second entry moved into the value of the first. */
  function Hidden(tags: Tags, k: string, l: string): Tags
    requires k in tags && l in tags
  {
    (tags - {l})[k := tags[k] + ";" + l + "=" + tags[l]]
  }

  lemma HiddenEncodes(tags: Tags, k: string, l: string, rest: seq<string>)
    requires k in tags && l in tags && k != l && forall x | x in rest :: x in tags && x != k && x != l
    ensures Encode(tags, [k, l] + rest) == Encode(Hidden(tags, k, l), [k] + rest)
  {
    var other := Hidden(tags, k, l);
    EncodeAgrees(tags, other, rest);
    assert ([k, l] + rest)[1..] == [l] + rest && ([l] + rest)[1..] == rest && ([k] + rest)[1..] == rest;
    assert Encode(tags, [l] + rest) == l + "=" + tags[l] + ";" + Encode(tags, rest);
    assert Encode(tags, [k, l] + rest) == k + "=" + tags[k] + ";" + Encode(tags, [l] + rest);
    assert Encode(other, [k] + rest) == k + "=" + (tags[k] + ";" + l + "=" + tags[l]) + ";" + Encode(other, rest);
  }

  /** The second entry can always hide in the value of the first. */
  lemma SecondEntryHides(tags: Tags, keys: seq<string>)
    requires SortedKeys(tags, keys) && |keys| >= 2
    ensures SharesHash(tags)
  {
    hide Encode, Less;
    var k, l, rest := keys[0], keys[1], keys[2..];
    assert k in keys && l in keys && keys == [k, l] + rest;
    LessTotal(k, l);
    forall x | x in rest
      ensures x in tags && x != k && x != l
    {
      var i :| 2 <= i < |keys| && keys[i] == x;
      LessTotal(k, x);
      LessTotal(l, x);
    }
    var other := Hidden(tags, k, l);
    HiddenEncodes(tags, k, l, rest);
    KeysSplit(tags, keys, other);
    assert SortedKeys(other, [k] + rest);
    assert HashOf(tags, Encode(tags, keys)) && HashOf(other, Encode(tags, keys));
    assert SameHash(tags, other);
    assert l in tags && l !in other;
  }

  lemma KeysSplit(tags: Tags, keys: seq<string>, other: Tags)
    requires SortedKeys(tags, keys) && |keys| >= 2 && other.Keys == tags.Keys - {keys[1]}
    ensures forall x :: x in [keys[0]] + keys[2..] <==> x in other
  {
    LessTotal(keys[0], keys[1]);
    forall x
      ensures x in [keys[0]] + keys[2..] <==> x in other
    {
      if x in keys[2..] {
        var i :| 2 <= i < |keys| && keys[i] == x;
        LessTotal(keys[1], x);
      }
      assert x in keys <==> x == keys[0] || x == keys[1] || x in keys[2..];
    }
  }

  /** An '=' in a lone key or value can be read as the separator. */
  lemma SeparatorMoves(k: string, v: string)
    requires '=' in k || '=' in v
    ensures SharesHash(map[k := v])
  {
    var tags := map[k := v];
    var whole := k + "=" + v;
    var at := |k|;
    if '=' in k {
      at :| 0 <= at < |k| && k[at] == '=';
    } else {
      var i :| 0 <= i < |v| && v[i] == '=';
      at := |k| + 1 + i;
    }
    assert whole[at] == '=';
    var a, b := whole[..at], whole[at + 1..];
    var other := map[a := b];
    assert whole == a + "=" + b;
    assert |a| != |k| && k in tags && k !in other;
    EncodeOne(tags, k);
    EncodeOne(other, a);
    assert Encode(tags, [k]) == whole + ";" == Encode(other, [a]);
    assert SortedKeys(tags, [k]) && SortedKeys(other, [a]);
    assert HashOf(tags, whole + ";") && HashOf(other, whole + ";");
    assert SameHash(tags, other);
  }

  lemma SortedKeysCount(tags: Tags, keys: seq<string>)
    requires SortedKeys(tags, keys)
    ensures |keys| == |tags|
  {
    Distinct(keys);
    assert (set k | k in keys) == tags.Keys;
  }

  lemma {:induction false} Distinct(keys: seq<string>)
    requires Sorted(keys)
    ensures |set k | k in keys| == |keys|
    decreases keys
  {
    if keys != [] {
      var rest := keys[1..];
      Distinct(rest);
      forall k | k in rest
        ensures k != keys[0]
      {
        LessTotal(keys[0], k);
      }
      assert (set k | k in keys) == (set k | k in rest) + {keys[0]};
    }
  }

  lemma SecondMark(tags: Tags, keys: seq<string>)
    requires |keys| >= 2 && forall x | x in keys :: x in tags
    ensures exists at | |keys[0]| < at < |Encode(tags, keys)| :: Encode(tags, keys)[at] == '='
  {
    var k, l := keys[0], keys[1];
    var rest := Encode(tags, keys[1..]);
    assert keys[1..][0] == l;
    assert rest == l + "=" + tags[l] + ";" + Encode(tags, keys[1..][1..]);
    var hash := Encode(tags, keys);
    assert hash == k + "=" + tags[k] + ";" + rest;
    var at := |k| + 1 + |tags[k]| + 1 + |l|;
    assert hash[at] == rest[|l|] == '=';
  }

  /** A lone entry without another '=' is read back in only one way. */
  lemma LoneEntryReads(k: string, v: string, other: Tags, keys: seq<string>)
    requires '=' !in k && '=' !in v
    requires SortedKeys(other, keys) && Encode(other, keys) == k + "=" + v + ";"
    ensures other == map[k := v]
  {
    var hash := k + "=" + v + ";";
    var l := keys[0];
    var rest := Encode(other, keys[1..]);
    assert hash == l + "=" + other[l] + ";" + rest;
    assert forall i | 0 <= i < |hash| && i != |k| :: hash[i] != '=';
    assert hash[|l|] == '=' && |l| == |k|;
    if |keys| >= 2 {
      SecondMark(other, keys);
      assert false;
    }
    assert rest == "" && keys == [l];
    assert l == hash[..|k|] == k;
    assert other[l] == hash[|k| + 1..|hash| - 1] == v;
    assert forall x :: x in other <==> x == k;
  }

  /** A tag map has a hash in common with some other map exactly when it is ambiguous. */
  lemma SharesHashIff(tags: Tags)
    ensures SharesHash(tags) <==> Ambiguous(tags)
  {
    var keys := Ascending(tags.Keys);
    assert SortedKeys(tags, keys);
    SortedKeysCount(tags, keys);
    if |keys| >= 2 {
      SecondEntryHides(tags, keys);
    } else if |keys| == 1 {
      var k := keys[0];
      assert k in keys;
      assert tags == map[k := tags[k]];
      if '=' in k || '=' in tags[k] {
        SeparatorMoves(k, tags[k]);
      } else {
        forall other | SameHash(tags, other)
          ensures other == tags
        {
          var hash :| HashOf(tags, hash) && HashOf(other, hash);
          OnlyHash(tags, k, hash);
          var ls :| SortedKeys(other, ls) && hash == Encode(other, ls);
          LoneEntryReads(k, tags[k], other, ls);
        }
      }
    } else {
      forall other | SameHash(tags, other)
        ensures other == tags
      {
        var hash :| HashOf(tags, hash) && HashOf(other, hash);
        var ks :| SortedKeys(tags, ks) && hash == Encode(tags, ks);
        SortedKeysCount(tags, ks);
        var ls :| SortedKeys(other, ls) && hash == Encode(other, ls);
        SortedKeysCount(other, ls);
        assert |ls| == 0;
      }
    }
  }

  lemma OnlyHash(tags: Tags, k: string, hash: string)
    requires tags.Keys == {k} && HashOf(tags, hash)
    ensures hash == k + "=" + tags[k] + ";"
  {
    var ks :| SortedKeys(tags, ks) && hash == Encode(tags, ks);
    SortedKeysCount(tags, ks);
    assert ks[0] in ks;
    assert ks == [k];
    EncodeOne(tags, k);
  }

  // ----- The cache

  /** The attribute set built from a tag map: every tag under a prefixed key. */
  function Attributes(tags: Tags): Tags {
    map key | key in (set k | k in tags :: "k6.tag." + k) :: tags[key[|"k6.tag."|..]]
  }

  class TagSetCache {
    var sets: map<string, Tags>
    /** The tag maps asked for so far. */
    ghost var asked: set<Tags>

    constructor ()
      ensures sets == map[] && asked == {}
    {
      sets, asked := map[], {};
    }

    /** Every entry was built fresh from some map asked for under its hash. */
    ghost predicate Valid()
      reads this
    {
      forall hash | hash in sets ::
        exists tags :: tags in asked && HashOf(tags, hash) && sets[hash] == Attributes(tags)
    }

    /** sync.Map's LoadOrStore: the first set stored under a key stays. */
    method LoadOrStore(tags: Tags, key: string) returns (actual: Tags)
      requires Valid() && HashOf(tags, key)
      modifies this
      ensures Valid() && asked == old(asked) + {tags}
      ensures key in sets && actual == sets[key]
      ensures sets == if key in old(sets) then old(sets) else old(sets)[key := Attributes(tags)]
    {
      asked := asked + {tags};
      if key !in sets { sets := sets[key := Attributes(tags)]; }
      actual := sets[key];
    }

    /**
     meanwhile are the tag maps other goroutines store between this call's Load and its LoadOrStore.
     Whatever was asked before or meanwhile, plain tag maps get the set that building it afresh would give.
     */
    method Get(tags: Tags, meanwhile: seq<Tags>) returns (attrs: Tags)
      requires Valid()
      modifies this
      ensures Valid() && old(asked) + {tags} <= asked <= old(asked) + {tags} + (set t | t in meanwhile)
      ensures (forall t | t in asked :: Plain(t)) ==> attrs == Attributes(tags)
      ensures exists t :: t in asked && attrs == Attributes(t) && SameHash(tags, t)
      ensures forall hash | hash in old(sets) :: hash in sets && sets[hash] == old(sets[hash])
      ensures forall hash | HashOf(tags, hash) :: hash in sets && attrs == sets[hash]
    {
      hide HashOf, Attributes, Plain, SameHash;
      var key := HashTags(tags);
      if key in sets {
        attrs := sets[key];
        asked := asked + {tags};
      } else {
        for i := 0 to |meanwhile|
          invariant Valid() && old(asked) <= asked <= old(asked) + (set t | t in meanwhile)
          invariant forall hash | hash in old(sets) :: hash in sets && sets[hash] == old(sets[hash])
        {
          var other := HashTags(meanwhile[i]);
          var _ := LoadOrStore(meanwhile[i], other);
        }
        attrs := LoadOrStore(tags, key);
      }
      StoredUnder(tags, key, attrs);
    }

    lemma StoredUnder(tags: Tags, key: string, attrs: Tags)
      requires Valid() && tags in asked && HashOf(tags, key) && key in sets && attrs == sets[key]
      ensures (forall t | t in asked :: Plain(t)) ==> attrs == Attributes(tags)
      ensures exists t :: t in asked && attrs == Attributes(t) && SameHash(tags, t)
    {
      var t :| t in asked && HashOf(t, key) && sets[key] == Attributes(t);
      if forall t | t in asked :: Plain(t) { HashInjective(t, tags, key); }
    }
  }

  lemma AttributesTellApart(s: Tags, t: Tags)
    requires Attributes(s) == Attributes(t)
    ensures s == t
  {
    forall k
      ensures k in s <==> k in t
      ensures k in s && k in t ==> s[k] == t[k]
    {
      var key := "k6.tag." + k;
      assert key[|"k6.tag."|..] == k;
      assert k in s <==> key in Attributes(s) by { PrefixedKeys(s, k); }
      assert k in t <==> key in Attributes(t) by { PrefixedKeys(t, k); }
      if k in s && k in t { assert Attributes(s)[key] == s[k] && Attributes(t)[key] == t[k]; }
    }
  }

  lemma PrefixedKeys(tags: Tags, k: string)
    ensures k in tags <==> "k6.tag." + k in Attributes(tags)
  {
    if "k6.tag." + k in Attributes(tags) {
      var j :| j in tags && "k6.tag." + j == "k6.tag." + k;
      assert j == ("k6.tag." + j)[|"k6.tag."|..] == k;
    }
  }

  /** A map that shares its hash is answered wrongly as soon as the other map was asked for first. */
  method StaleAnswer(other: Tags, tags: Tags) returns (attrs: Tags)
    requires other != tags && SameHash(tags, other)
    ensures attrs == Attributes(other) != Attributes(tags)
  {
    hide HashOf, Attributes, Plain;
    var cache := new TagSetCache();
    var first := cache.Get(other, []);
    attrs := cache.Get(tags, []);
    ghost var hash :| HashOf(other, hash) && HashOf(tags, hash);
    assert first == cache.sets[hash] == Attributes(other);
    if Attributes(other) == Attributes(tags) { AttributesTellApart(other, tags); }
  }
}
