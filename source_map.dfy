/** `fileCodeSourceMap`: a `std::map<file_t*, codeSourceSet>`.  It is kept
    as a sequence of buckets whose file identities strictly increase, which
    is the order in which the source iterates over the map. */
module SourceMaps {
  import opened Wrappers
  import opened Origins
  import opened CodeSources
  import opened SourceSets

  /** One map entry: a file and the set of annotations in it. */
  datatype Bucket = Bucket(file: FileId, members: seq<Source>)

  predicate FilesIncreasing(bs: seq<Bucket>) {
    forall i, j :: 0 <= i < j < |bs| ==> bs[i].file < bs[j].file
  }

  /** A bucket holds a sorted set of annotations that all lie in its file. */
  predicate BucketOk(b: Bucket) {
    Sorted(b.members) && forall s :: s in b.members ==> s.origin.file == b.file
  }

  predicate WellFormed(bs: seq<Bucket>) {
    FilesIncreasing(bs) && forall i :: 0 <= i < |bs| ==> BucketOk(bs[i])
  }

  function Files(bs: seq<Bucket>): set<FileId> {
    set b | b in bs :: b.file
  }

  /** `find`: the set stored under `f`, if any. */
  function Find(bs: seq<Bucket>, f: FileId): Option<seq<Source>>
    decreases |bs|
  {
    if bs == [] then None
    else if bs[0].file == f then Some(bs[0].members)
    else Find(bs[1..], f)
  }

  /** The set stored under `f`, or the empty set. */
  function Get(bs: seq<Bucket>, f: FileId): seq<Source> {
    match Find(bs, f)
    case Some(m) => m
    case None => []
  }

  /** Store `m` under `f`, replacing the set there or adding an entry at its
      place in key order. */
  function Put(bs: seq<Bucket>, f: FileId, m: seq<Source>): seq<Bucket>
    decreases |bs|
  {
    if bs == [] then [Bucket(f, m)]
    else if f < bs[0].file then [Bucket(f, m)] + bs
    else if f == bs[0].file then [Bucket(f, m)] + bs[1..]
    else [bs[0]] + Put(bs[1..], f, m)
  }

  /** `sources[f]` used as an lvalue: the entry is created, empty, when it is
      missing. */
  function Touch(bs: seq<Bucket>, f: FileId): seq<Bucket> {
    Put(bs, f, Get(bs, f))
  }

  /** `sources[f].insert(x)`. */
  function AddTo(bs: seq<Bucket>, f: FileId, x: Source): seq<Bucket> {
    Put(bs, f, Insert(Get(bs, f), x))
  }

  /** The number of annotations over all entries. */
  function Total(bs: seq<Bucket>): nat
    decreases |bs|
  {
    if bs == [] then 0 else |bs[0].members| + Total(bs[1..])
  }

  /** All annotations over all entries. */
  function AllSources(bs: seq<Bucket>): multiset<Source>
    decreases |bs|
  {
    if bs == [] then multiset{} else multiset(bs[0].members) + AllSources(bs[1..])
  }

  /** An entry is found exactly when its file is a key. */
  lemma {:induction false} FindIffKey(bs: seq<Bucket>, f: FileId)
    ensures Find(bs, f).Some? <==> f in Files(bs)
    decreases |bs|
  {
    if bs != [] {
      FindIffKey(bs[1..], f);
      assert bs == [bs[0]] + bs[1..];
      assert Files(bs) == {bs[0].file} + Files(bs[1..]);
    }
  }

  /** What is found is an entry of the map. */
  lemma {:induction false} FindIsEntry(bs: seq<Bucket>, f: FileId)
    requires Find(bs, f).Some?
    ensures Bucket(f, Get(bs, f)) in bs
    decreases |bs|
  {
    if bs[0].file != f {
      FindIsEntry(bs[1..], f);
    }
  }

  /** The keys after `Put` are the old keys and `f`. */
  lemma {:induction false} PutFiles(bs: seq<Bucket>, f: FileId, m: seq<Source>)
    ensures Files(Put(bs, f, m)) == Files(bs) + {f}
    decreases |bs|
  {
    if bs != [] {
      assert bs == [bs[0]] + bs[1..];
      assert Files(bs) == {bs[0].file} + Files(bs[1..]);
      if f < bs[0].file {
      } else if f == bs[0].file {
      } else {
        PutFiles(bs[1..], f, m);
        var r := Put(bs[1..], f, m);
        assert Files([bs[0]] + r) == {bs[0].file} + Files(r);
      }
    }
  }

  /** `Put` keeps the keys in increasing order. */
  lemma {:induction false} PutKeepsOrder(bs: seq<Bucket>, f: FileId, m: seq<Source>)
    requires FilesIncreasing(bs)
    ensures FilesIncreasing(Put(bs, f, m))
    decreases |bs|
  {
    if bs == [] {
    } else if f < bs[0].file {
      HeadBelowTail([Bucket(f, m)] + bs);
    } else if f == bs[0].file {
      HeadBelowTail(bs);
      TailIncreasing(bs);
      ConsIncreasing(Bucket(f, m), bs[1..]);
    } else {
      var t := bs[1..];
      TailIncreasing(bs);
      PutKeepsOrder(t, f, m);
      PutEntries(t, f, m);
      HeadBelowTail(bs);
      ConsIncreasing(bs[0], Put(t, f, m));
    }
  }

  /** Dropping the first entry keeps the keys increasing. */
  lemma TailIncreasing(bs: seq<Bucket>)
    requires FilesIncreasing(bs) && bs != []
    ensures FilesIncreasing(bs[1..])
  {
    forall i, j | 0 <= i < j < |bs| - 1 ensures bs[1..][i].file < bs[1..][j].file {
      assert bs[1..][i] == bs[i + 1] && bs[1..][j] == bs[j + 1];
    }
  }

  /** In an ordered map every later entry has a larger key than the first. */
  lemma HeadBelowTail(bs: seq<Bucket>)
    requires FilesIncreasing(bs) && bs != []
    ensures forall c :: c in bs[1..] ==> bs[0].file < c.file
  {
    forall c | c in bs[1..] ensures bs[0].file < c.file {
      var j :| 0 <= j < |bs| - 1 && bs[1..][j] == c;
      assert bs[j + 1] == c;
    }
  }

  /** An entry below every key of an ordered map can go in front of it. */
  lemma ConsIncreasing(b: Bucket, rest: seq<Bucket>)
    requires FilesIncreasing(rest)
    requires forall c :: c in rest ==> b.file < c.file
    ensures FilesIncreasing([b] + rest)
  {
    var out := [b] + rest;
    forall i, j | 0 <= i < j < |out| ensures out[i].file < out[j].file {
      var j' := j - 1;
      assert out[j] == rest[j'];
      if i == 0 {
        assert rest[j'] in rest;
      } else {
        var i' := i - 1;
        assert out[i] == rest[i'];
      }
    }
  }

  /** After `Put`, `f` holds `m` and every other key holds what it held. */
  lemma {:induction false} PutFind(bs: seq<Bucket>, f: FileId, m: seq<Source>, g: FileId)
    requires FilesIncreasing(bs)
    ensures Find(Put(bs, f, m), g) == if g == f then Some(m) else Find(bs, g)
    decreases |bs|
  {
    if bs == [] {
    } else if f < bs[0].file {
      if g == f {
      } else if g < bs[0].file {
        FindBelowFirst(bs, g);
      }
    } else if f == bs[0].file {
      if g != f {
        assert Find(bs, g) == Find(bs[1..], g);
      }
    } else {
      PutFind(bs[1..], f, m, g);
    }
  }

  /** A key below the first key is absent. */
  lemma FindBelowFirst(bs: seq<Bucket>, g: FileId)
    requires FilesIncreasing(bs) && bs != [] && g < bs[0].file
    ensures Find(bs, g) == None
  {
    FindIffKey(bs, g);
    forall k | 0 <= k < |bs| ensures bs[k].file != g {
      if k > 0 { assert bs[0].file < bs[k].file; }
    }
    assert g !in Files(bs);
  }

  /** `Put` replaces the annotations under `f` and keeps all the others. */
  lemma {:induction false} PutSources(bs: seq<Bucket>, f: FileId, m: seq<Source>)
    requires FilesIncreasing(bs)
    ensures AllSources(Put(bs, f, m)) + multiset(Get(bs, f)) == AllSources(bs) + multiset(m)
    decreases |bs|
  {
    if bs == [] {
    } else if f < bs[0].file {
      FindBelowFirst(bs, f);
      assert Put(bs, f, m) == [Bucket(f, m)] + bs;
      assert AllSources(Put(bs, f, m)) == multiset(m) + AllSources(bs);
    } else if f == bs[0].file {
      assert Get(bs, f) == bs[0].members;
      assert AllSources(Put(bs, f, m)) == multiset(m) + AllSources(bs[1..]);
    } else {
      PutSources(bs[1..], f, m);
      var r := Put(bs[1..], f, m);
      assert Put(bs, f, m) == [bs[0]] + r;
      assert ([bs[0]] + r)[1..] == r;
      assert Get(bs, f) == Get(bs[1..], f);
      MultisetRegroup(multiset(bs[0].members), AllSources(r), multiset(Get(bs, f)),
                      AllSources(bs[1..]), multiset(m));
    }
  }

  /** Adding the same multiset to both sides of an equation. */
  lemma MultisetRegroup(a: multiset<Source>, b: multiset<Source>, c: multiset<Source>,
                        d: multiset<Source>, m: multiset<Source>)
    requires b + c == d + m
    ensures (a + b) + c == (a + d) + m
  {
    forall x ensures ((a + b) + c)[x] == ((a + d) + m)[x] {
      assert (b + c)[x] == (d + m)[x];
    }
  }

  /** The number of annotations is the size of the multiset of them. */
  lemma {:induction false} TotalCountsSources(bs: seq<Bucket>)
    ensures Total(bs) == |AllSources(bs)|
    decreases |bs|
  {
    if bs != [] {
      TotalCountsSources(bs[1..]);
    }
  }

  /** `Put` changes the number of annotations by the size difference of the
      replaced set. */
  lemma PutTotal(bs: seq<Bucket>, f: FileId, m: seq<Source>)
    requires FilesIncreasing(bs)
    ensures Total(Put(bs, f, m)) + |Get(bs, f)| == Total(bs) + |m|
  {
    PutSources(bs, f, m);
    TotalCountsSources(bs);
    TotalCountsSources(Put(bs, f, m));
    assert |AllSources(Put(bs, f, m)) + multiset(Get(bs, f))| == |AllSources(bs) + multiset(m)|;
  }

  /** Every entry after `Put` is an old entry or the new one. */
  lemma {:induction false} PutEntries(bs: seq<Bucket>, f: FileId, m: seq<Source>)
    ensures forall b :: b in Put(bs, f, m) ==> b in bs || b == Bucket(f, m)
    decreases |bs|
  {
    if bs != [] && f > bs[0].file {
      PutEntries(bs[1..], f, m);
    }
  }

  /** The set under any key of a well-formed map is a well-formed bucket. */
  lemma GetOk(bs: seq<Bucket>, f: FileId)
    requires WellFormed(bs)
    ensures BucketOk(Bucket(f, Get(bs, f)))
  {
    if Find(bs, f).Some? {
      FindIsEntry(bs, f);
      var k :| 0 <= k < |bs| && bs[k] == Bucket(f, Get(bs, f));
    }
  }

  /** Storing a well-formed bucket keeps the map well-formed. */
  lemma PutWellFormed(bs: seq<Bucket>, f: FileId, m: seq<Source>)
    requires WellFormed(bs) && BucketOk(Bucket(f, m))
    ensures WellFormed(Put(bs, f, m))
  {
    PutKeepsOrder(bs, f, m);
    PutEntries(bs, f, m);
    var r := Put(bs, f, m);
    forall i | 0 <= i < |r| ensures BucketOk(r[i]) {
      assert r[i] in r;
    }
  }
}
