/** `supressSources`: trimming the per-file annotations to a display budget.
    The files are walked in key order with a running budget; the first file
    that does not fit keeps only its lowest members, and the files after it
    are dropped.  The annotations on the origin's own line are not subject
    to the budget. */
module Suppression {
  import opened CodeSources
  import opened SourceSets
  import opened SourceMaps

  /** `DEFAULT_MAX_ERRORS_DISPLAYED`. */
  const DefaultMaxErrorsDisplayed: nat := 5

  /** The outcome of the walk that starts at `bs` with `available` still to
      hand out: the entries that remain and the count that is reported.
      The count is that of the boundary file alone, as the source assigns
      it rather than adding to it. */
  function SuppressFrom(bs: seq<Bucket>, available: nat): (seq<Bucket>, int)
    decreases |bs|
  {
    if bs == [] then ([], 0)
    else if available >= |bs[0].members| then
      var (rest, count) := SuppressFrom(bs[1..], available - |bs[0].members|);
      ([bs[0]] + rest, count)
    else
      ([Bucket(bs[0].file, bs[0].members[..available])], |bs[0].members| - available)
  }

  /** The position of the boundary file: the first whose annotations exceed
      what is left of the budget. */
  function Boundary(bs: seq<Bucket>, available: nat): (k: nat)
    requires Total(bs) > available
    ensures k < |bs|
    decreases |bs|
  {
    if |bs[0].members| > available then 0
    else 1 + Boundary(bs[1..], available - |bs[0].members|)
  }

  lemma TotalCons(b: Bucket, t: seq<Bucket>)
    ensures Total([b] + t) == |b.members| + Total(t)
  {
    assert ([b] + t)[1..] == t;
  }

  /** Under budget nothing changes and nothing is reported. */
  lemma {:induction false} SuppressUnderBudget(bs: seq<Bucket>, available: nat)
    requires Total(bs) <= available
    ensures SuppressFrom(bs, available) == (bs, 0)
    decreases |bs|
  {
    if bs != [] {
      SuppressUnderBudget(bs[1..], available - |bs[0].members|);
      assert bs == [bs[0]] + bs[1..];
    }
  }

  /** Over budget: the files before the boundary are kept whole, the
      boundary file keeps its first members up to the budget, the later
      files are dropped, exactly `available` annotations remain, and the
      count is the number removed from the boundary file. */
  lemma {:induction false} SuppressOverBudget(bs: seq<Bucket>, available: nat)
    requires Total(bs) > available
    ensures var k := Boundary(bs, available);
            var used := Total(bs[..k]);
            var (kept, count) := SuppressFrom(bs, available);
            && used <= available < used + |bs[k].members|
            && kept == bs[..k] + [Bucket(bs[k].file, bs[k].members[..available - used])]
            && count == used + |bs[k].members| - available
            && Total(kept) == available
    decreases |bs|
  {
    var k := Boundary(bs, available);
    var b := bs[0];
    if |b.members| > available {
      assert bs[..k] == [];
      TotalCons(Bucket(b.file, b.members[..available]), []);
    } else {
      var a' := available - |b.members|;
      var t := bs[1..];
      TotalCons(b, t);
      SuppressOverBudget(t, a');
      var k' := Boundary(t, a');
      assert k == k' + 1;
      assert bs[..k] == [b] + t[..k'];
      TotalCons(b, t[..k']);
      var (rest, _) := SuppressFrom(t, a');
      assert bs[k] == t[k'];
      assert SuppressFrom(bs, available).0 == [b] + rest;
      TotalCons(b, rest);
    }
  }

  /** What remains is `min(available, total)`. */
  lemma SuppressKeepsMinimum(bs: seq<Bucket>, available: nat)
    ensures Total(SuppressFrom(bs, available).0) == if Total(bs) <= available then Total(bs) else available
  {
    if Total(bs) <= available {
      SuppressUnderBudget(bs, available);
    } else {
      SuppressOverBudget(bs, available);
    }
  }

  /** Entry by entry, what remains is a prefix of what was there, so the
      remaining map is well-formed when the original was. */
  lemma {:induction false} SuppressKeepsPrefixes(bs: seq<Bucket>, available: nat)
    ensures var kept := SuppressFrom(bs, available).0;
            && |kept| <= |bs|
            && forall i :: 0 <= i < |kept| ==>
                 kept[i].file == bs[i].file && kept[i].members <= bs[i].members
    decreases |bs|
  {
    if bs != [] && available >= |bs[0].members| {
      SuppressKeepsPrefixes(bs[1..], available - |bs[0].members|);
    }
  }

  lemma SuppressKeepsWellFormed(bs: seq<Bucket>, available: nat)
    requires WellFormed(bs)
    ensures WellFormed(SuppressFrom(bs, available).0)
  {
    SuppressKeepsPrefixes(bs, available);
    var kept := SuppressFrom(bs, available).0;
    forall i | 0 <= i < |kept| ensures BucketOk(kept[i]) {
      var m := bs[i].members;
      assert kept[i].members == m[..|kept[i].members|];
      PrefixSorted(m, |kept[i].members|);
    }
  }

  /** The reported count misses every annotation of the files dropped after
      the boundary: the number actually removed is the count plus those. */
  lemma SuppressedCountMissesLaterFiles(bs: seq<Bucket>, available: nat)
    requires Total(bs) > available
    ensures var k := Boundary(bs, available);
            Total(bs) - Total(SuppressFrom(bs, available).0)
              == SuppressFrom(bs, available).1 + Total(bs[k + 1..])
  {
    SuppressOverBudget(bs, available);
    var k := Boundary(bs, available);
    TotalSplit(bs, k);
  }

  /** Total over a split sequence of entries. */
  lemma {:induction false} TotalSplit(bs: seq<Bucket>, k: nat)
    requires k < |bs|
    ensures Total(bs) == Total(bs[..k]) + |bs[k].members| + Total(bs[k + 1..])
    decreases k
  {
    if k == 0 {
      assert bs[..0] == [];
      assert bs == [bs[0]] + bs[1..];
    } else {
      TotalSplit(bs[1..], k - 1);
      assert bs[..k] == [bs[0]] + bs[1..][..k - 1];
      TotalCons(bs[0], bs[1..][..k - 1]);
      assert bs[1..][k - 1 + 1..] == bs[k + 1..];
    }
  }

  /** One step of the walk, with the components named. */
  lemma SuppressStep(bs: seq<Bucket>, available: nat)
    requires bs != []
    ensures var n := |bs[0].members|;
            && (available >= n ==>
                  && SuppressFrom(bs, available).0 == [bs[0]] + SuppressFrom(bs[1..], available - n).0
                  && SuppressFrom(bs, available).1 == SuppressFrom(bs[1..], available - n).1)
            && (available < n ==>
                  && SuppressFrom(bs, available).0 == [Bucket(bs[0].file, bs[0].members[..available])]
                  && SuppressFrom(bs, available).1 == n - available)
  {
  }

  /** A file that fits moves the walk one entry on with its share used up. */
  lemma WalkFits(bs: seq<Bucket>, i: nat, available: nat)
    requires i < |bs| && available >= |bs[i].members|
    ensures bs[..i] + SuppressFrom(bs[i..], available).0
            == bs[..i + 1] + SuppressFrom(bs[i + 1..], available - |bs[i].members|).0
    ensures SuppressFrom(bs[i..], available).1
            == SuppressFrom(bs[i + 1..], available - |bs[i].members|).1
  {
    var t := bs[i..];
    assert t[0] == bs[i] && t[1..] == bs[i + 1..];
    SuppressStep(t, available);
    var rest := SuppressFrom(bs[i + 1..], available - |bs[i].members|).0;
    assert bs[..i + 1] == bs[..i] + [bs[i]];
    assert bs[..i] + ([bs[i]] + rest) == (bs[..i] + [bs[i]]) + rest;
  }

  /** The first file that does not fit ends the walk. */
  lemma WalkCuts(bs: seq<Bucket>, i: nat, available: nat)
    requires i < |bs| && available < |bs[i].members|
    ensures bs[..i] + SuppressFrom(bs[i..], available).0
            == bs[..i] + [Bucket(bs[i].file, bs[i].members[..available])]
    ensures SuppressFrom(bs[i..], available).1 == |bs[i].members| - available
  {
    var t := bs[i..];
    assert t[0] == bs[i];
    SuppressStep(t, available);
  }

  /** The loop of `supressSources` over a map: the budget starts at
      `DEFAULT_MAX_ERRORS_DISPLAYED`; each file that fits uses up its share;
      the first that does not is cut to what is left, the count is set to
      its excess, and the entries after it are erased. */
  method SupressWalk(bs: seq<Bucket>) returns (kept: seq<Bucket>, supressedCount: int)
    ensures kept == SuppressFrom(bs, DefaultMaxErrorsDisplayed).0
    ensures supressedCount == SuppressFrom(bs, DefaultMaxErrorsDisplayed).1
  {
    kept := bs;
    supressedCount := 0;
    var sourcesAvailable: nat := DefaultMaxErrorsDisplayed;
    var i := 0;
    assert bs[0..] == bs && bs[..0] == [];
    while i < |bs|
      invariant 0 <= i <= |bs|
      invariant kept == bs && supressedCount == 0
      invariant SuppressFrom(bs, DefaultMaxErrorsDisplayed).0
                == bs[..i] + SuppressFrom(bs[i..], sourcesAvailable).0
      invariant SuppressFrom(bs, DefaultMaxErrorsDisplayed).1
                == SuppressFrom(bs[i..], sourcesAvailable).1
    {
      var fileSourceCount := |bs[i].members|;
      if sourcesAvailable >= fileSourceCount {
        WalkFits(bs, i, sourcesAvailable);
        sourcesAvailable := sourcesAvailable - fileSourceCount;
        i := i + 1;
      } else {
        WalkCuts(bs, i, sourcesAvailable);
        supressedCount := fileSourceCount - sourcesAvailable;
        kept := bs[..i] + [Bucket(bs[i].file, bs[i].members[..sourcesAvailable])];
        return;
      }
    }
    assert bs[..i] == bs && bs[i..] == [];
  }
}
