/** `codeSourceSet`: a `std::set<codeSource_t>`, i.e. a sequence kept
    strictly increasing under `Less`.  Strictness means no two members share
    a key (file, start, index). */
module SourceSets {
  import opened CodeSources

  predicate Sorted(s: seq<Source>) {
    forall i, j :: 0 <= i < j < |s| ==> Less(s[i], s[j])
  }

  /** Some member of `s` is equivalent to `x` under the order. */
  predicate HasKey(s: seq<Source>, x: Source) {
    exists y :: y in s && Key(y) == Key(x)
  }

  /** `insert`: add `x` at its place in the order, unless a member is
      equivalent to it (neither is less than the other), in which case the
      set is unchanged.  What
      this achieves is stated by `InsertIsSetInsert`. */
  function Insert(s: seq<Source>, x: Source): seq<Source>
    decreases |s|
  {
    if s == [] then [x]
    else if Less(x, s[0]) then [x] + s
    else if !Less(s[0], x) then s
    else [s[0]] + Insert(s[1..], x)
  }

  /** Inserting keeps the set sorted; it adds exactly `x` when no member is
      equivalent to `x`, and changes nothing otherwise. */
  lemma {:induction false} InsertIsSetInsert(s: seq<Source>, x: Source)
    requires Sorted(s)
    ensures Sorted(Insert(s, x))
    ensures HasKey(s, x) ==> Insert(s, x) == s
    ensures !HasKey(s, x) ==> multiset(Insert(s, x)) == multiset(s) + multiset{x}
    decreases |s|
  {
    if s == [] {
    } else if Less(x, s[0]) {
      InsertAtFront(s, x);
    } else if !Less(s[0], x) {
      assert s[0] in s && Key(s[0]) == Key(x);
    } else {
      InsertIsSetInsert(s[1..], x);
      InsertBehindHead(s, x);
    }
  }

  /** Whatever `Insert` returns comes from the set or is `x`. */
  lemma {:induction false} InsertMembers(s: seq<Source>, x: Source)
    ensures forall y :: y in Insert(s, x) ==> y in s || y == x
    decreases |s|
  {
    if s != [] && Less(s[0], x) {
      InsertMembers(s[1..], x);
    }
  }

  /** An `x` below the first member goes in front and is new. */
  lemma InsertAtFront(s: seq<Source>, x: Source)
    requires Sorted(s) && s != [] && Less(x, s[0])
    ensures Insert(s, x) == [x] + s
    ensures !HasKey(s, x)
    ensures Sorted([x] + s)
    ensures multiset(Insert(s, x)) == multiset(s) + multiset{x}
  {
    forall k | 0 <= k < |s| ensures Less(x, s[k]) {
      if k > 0 { LessIsStrictTotalOrder(x, s[0], s[k]); }
    }
    var r := [x] + s;
    forall i, j | 0 <= i < j < |r| ensures Less(r[i], r[j]) {
      if i > 0 { assert r[i] == s[i - 1] && r[j] == s[j - 1]; }
    }
  }

  /** An `x` above the first member leaves the first member in front, and
      the outcome is that of inserting into the rest. */
  lemma InsertBehindHead(s: seq<Source>, x: Source)
    requires Sorted(s) && s != [] && Less(s[0], x)
    requires Sorted(Insert(s[1..], x))
    requires HasKey(s[1..], x) ==> Insert(s[1..], x) == s[1..]
    requires !HasKey(s[1..], x) ==> multiset(Insert(s[1..], x)) == multiset(s[1..]) + multiset{x}
    ensures Sorted(Insert(s, x))
    ensures HasKey(s, x) ==> Insert(s, x) == s
    ensures !HasKey(s, x) ==> multiset(Insert(s, x)) == multiset(s) + multiset{x}
  {
    InsertUnfoldBehindHead(s, x);
    HasKeyBehindHead(s, x);
    HeadBelowInsert(s, x);
    if !HasKey(s, x) {
      InsertBehindHeadCounts(s, x);
    }
  }

  lemma InsertUnfoldBehindHead(s: seq<Source>, x: Source)
    requires s != [] && Less(s[0], x)
    ensures Insert(s, x) == [s[0]] + Insert(s[1..], x)
    ensures Insert(s[1..], x) == s[1..] ==> Insert(s, x) == s
  {
    LessIsStrictTotalOrder(s[0], x, x);
    assert s == [s[0]] + s[1..];
  }

  lemma InsertBehindHeadCounts(s: seq<Source>, x: Source)
    requires s != [] && Insert(s, x) == [s[0]] + Insert(s[1..], x)
    requires multiset(Insert(s[1..], x)) == multiset(s[1..]) + multiset{x}
    ensures multiset(Insert(s, x)) == multiset(s) + multiset{x}
  {
    var rest := Insert(s[1..], x);
    assert s == [s[0]] + s[1..];
    calc {
      multiset(Insert(s, x));
      multiset([s[0]]) + multiset(rest);
      multiset([s[0]]) + (multiset(s[1..]) + multiset{x});
      (multiset([s[0]]) + multiset(s[1..])) + multiset{x};
      multiset(s) + multiset{x};
    }
  }

  lemma HasKeyBehindHead(s: seq<Source>, x: Source)
    requires s != [] && Less(s[0], x)
    ensures HasKey(s, x) <==> HasKey(s[1..], x)
  {
    if HasKey(s, x) {
      var y :| y in s && Key(y) == Key(x);
      var k :| 0 <= k < |s| && s[k] == y;
      assert k != 0;
      assert s[1..][k - 1] == y;
    }
    if HasKey(s[1..], x) {
      var y :| y in s[1..] && Key(y) == Key(x);
      var k :| 0 <= k < |s[1..]| && s[1..][k] == y;
      assert s[k + 1] == y;
    }
  }

  lemma HeadBelowInsert(s: seq<Source>, x: Source)
    requires Sorted(s) && s != [] && Less(s[0], x)
    requires Sorted(Insert(s[1..], x))
    ensures Sorted([s[0]] + Insert(s[1..], x))
  {
    var tail := s[1..];
    InsertMembers(tail, x);
    HeadBelowRest(s);
    ConsSorted(s[0], Insert(tail, x));
  }

  /** In a sorted set the first member is below every later one. */
  lemma HeadBelowRest(s: seq<Source>)
    requires Sorted(s) && s != []
    ensures forall y :: y in s[1..] ==> Less(s[0], y)
  {
    forall y | y in s[1..] ensures Less(s[0], y) {
      var k :| 0 <= k < |s| - 1 && s[1..][k] == y;
      assert s[k + 1] == y;
    }
  }

  /** A member below every member of a sorted set can go in front of it. */
  lemma ConsSorted(x: Source, rest: seq<Source>)
    requires Sorted(rest)
    requires forall y :: y in rest ==> Less(x, y)
    ensures Sorted([x] + rest)
  {
    var r := [x] + rest;
    forall i, j | 0 <= i < j < |r| ensures Less(r[i], r[j]) {
      var j' := j - 1;
      assert r[j] == rest[j'];
      if i == 0 {
        assert rest[j'] in rest;
      } else {
        var i' := i - 1;
        assert r[i] == rest[i'];
      }
    }
  }

  /** Members of a sorted set have pairwise different keys, so the set has
      as many members as keys. */
  lemma {:induction false} SortedKeysDistinct(s: seq<Source>, i: int, j: int)
    requires Sorted(s) && 0 <= i < |s| && 0 <= j < |s| && i != j
    ensures Key(s[i]) != Key(s[j])
  {
    if i < j {
      LessIsStrictTotalOrder(s[i], s[j], s[j]);
    } else {
      LessIsStrictTotalOrder(s[j], s[i], s[i]);
    }
  }

  /** Any prefix of a set, in set order, is a set. */
  lemma PrefixSorted(s: seq<Source>, n: nat)
    requires Sorted(s) && n <= |s|
    ensures Sorted(s[..n])
  {
  }
}
