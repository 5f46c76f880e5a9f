/** `codePrinter_t`: the object that gathers a diagnostic's origin, its
    message and the annotations attached to it, and turns them into the
    sections of an error or warning report. */
module Printer {
  import opened Wrappers
  import opened Origins
  import opened CodeSources
  import opened SourceSets
  import opened SourceMaps
  import opened Suppression
  import opened Layout
  import opened Sections

  /** The stream a printer reports to (`io::output`); only its identity
      matters here. */
  datatype Output = Stderr | Stdout | Stream(id: nat)

  /** What `print` hands to `printError` (for an error) or `printWarning`. */
  datatype Report = Report(out: Output, isError: bool, message: string, code: string,
                           sections: seq<Section>)

  /** Every annotation of `s` carries an index in `[0, n)`. */
  predicate IndicesBelow(s: seq<Source>, n: int) {
    forall x :: x in s ==> 0 <= x.index < n
  }

  /** Every annotation stored in the map carries an index in `[0, n)`. */
  predicate MapIndicesBelow(bs: seq<Bucket>, n: int) {
    forall b :: b in bs ==> IndicesBelow(b.members, n)
  }

  /** The message `print` fails with when the origin has no file. */
  function MissingOriginMessage(isError: bool): string {
    (if isError then "Error" else "Warning") + " code is missing its origin"
  }

  /** The sections `print` reports for an origin, its line's annotations and
      the per-file map as it stands before suppression: the origin file's
      section, then one section per other file in key order, then the
      suppression notice (an empty string when nothing was suppressed). */
  function PrintedSections(isError: bool, origin: Origin, originLineSources: seq<Source>,
                           bs: seq<Bucket>): seq<Section>
  {
    var (kept, count) := SuppressFrom(bs, DefaultMaxErrorsDisplayed);
    [OriginSectionParts(origin, originLineSources, Get(kept, origin.file))]
    + OtherFileSections(kept, origin.file)
    + [[Notice(SupressedMessage(count, isError))]]
  }

  lemma PrintedSectionsUnfold(isError: bool, origin: Origin, originLineSources: seq<Source>,
                              bs: seq<Bucket>)
    ensures var kept := SuppressFrom(bs, DefaultMaxErrorsDisplayed).0;
            var count := SuppressFrom(bs, DefaultMaxErrorsDisplayed).1;
            PrintedSections(isError, origin, originLineSources, bs)
            == [OriginSectionParts(origin, originLineSources, Get(kept, origin.file))]
               + OtherFileSections(kept, origin.file)
               + [[Notice(SupressedMessage(count, isError))]]
  {
  }

  /** A freshly stamped annotation always enters a set whose indices are
      all older: the set grows by exactly that annotation. */
  lemma InsertFresh(s: seq<Source>, x: Source, n: int)
    requires Sorted(s) && IndicesBelow(s, n) && x.index == n && n >= 0
    ensures Sorted(Insert(s, x))
    ensures multiset(Insert(s, x)) == multiset(s) + multiset{x}
    ensures |Insert(s, x)| == |s| + 1
    ensures IndicesBelow(Insert(s, x), n + 1)
  {
    assert !HasKey(s, x);
    InsertIsSetInsert(s, x);
    InsertMembers(s, x);
    assert |multiset(Insert(s, x))| == |multiset(s) + multiset{x}|;
  }

  /** The set under `f` holds indices below `n` and lies in file `f`. */
  lemma GetFacts(bs: seq<Bucket>, f: FileId, n: int)
    requires WellFormed(bs) && MapIndicesBelow(bs, n)
    ensures BucketOk(Bucket(f, Get(bs, f))) && IndicesBelow(Get(bs, f), n)
  {
    GetOk(bs, f);
    if Find(bs, f).Some? {
      FindIsEntry(bs, f);
    }
  }

  /** `sources[file].insert(stamped)` with a fresh index: the map stays
      well-formed, the entry for the annotation's file grows by exactly that
      annotation, every other entry is untouched, and one more annotation is
      stored in all. */
  lemma AddFreshSource(bs: seq<Bucket>, x: Source, n: int)
    requires WellFormed(bs) && MapIndicesBelow(bs, n) && x.index == n && n >= 0
    ensures var f := x.origin.file;
            var r := AddTo(bs, f, x);
            && WellFormed(r)
            && MapIndicesBelow(r, n + 1)
            && multiset(Get(r, f)) == multiset(Get(bs, f)) + multiset{x}
            && (forall g :: g != f ==> Find(r, g) == Find(bs, g))
            && Files(r) == Files(bs) + {f}
            && Total(r) == Total(bs) + 1
  {
    var f := x.origin.file;
    var old_ := Get(bs, f);
    var m := Insert(old_, x);
    GetFacts(bs, f, n);
    InsertFresh(old_, x, n);
    InsertMembers(old_, x);
    assert BucketOk(Bucket(f, m));
    PutWellFormed(bs, f, m);
    PutFind(bs, f, m, f);
    forall g | g != f ensures Find(AddTo(bs, f, x), g) == Find(bs, g) {
      PutFind(bs, f, m, g);
    }
    PutFiles(bs, f, m);
    PutTotal(bs, f, m);
    PutEntries(bs, f, m);
  }

  /** `sources[f]` used only for reading: it creates an empty entry when `f`
      is not a key, and changes nothing else the printer relies on. */
  lemma TouchKeeps(bs: seq<Bucket>, f: FileId, n: int)
    requires WellFormed(bs) && MapIndicesBelow(bs, n)
    ensures var r := Touch(bs, f);
            && WellFormed(r)
            && MapIndicesBelow(r, n)
            && Get(r, f) == Get(bs, f)
            && Files(r) == Files(bs) + {f}
            && Total(r) == Total(bs)
            && OtherBuckets(r, f) == OtherBuckets(bs, f)
            && OtherFileSections(r, f) == OtherFileSections(bs, f)
  {
    var m := Get(bs, f);
    GetFacts(bs, f, n);
    PutWellFormed(bs, f, m);
    PutFind(bs, f, m, f);
    PutFiles(bs, f, m);
    PutTotal(bs, f, m);
    PutEntries(bs, f, m);
    OtherBucketsIgnorePut(bs, f, m);
  }

  /** Suppression only shortens entries, so no index appears that was not
      there before. */
  lemma SuppressKeepsIndices(bs: seq<Bucket>, available: nat, n: int)
    requires MapIndicesBelow(bs, n)
    ensures MapIndicesBelow(SuppressFrom(bs, available).0, n)
  {
    SuppressKeepsPrefixes(bs, available);
    var kept := SuppressFrom(bs, available).0;
    forall b | b in kept ensures IndicesBelow(b.members, n) {
      var i :| 0 <= i < |kept| && kept[i] == b;
      assert bs[i] in bs;
      forall x | x in b.members ensures 0 <= x.index < n {
        var j :| 0 <= j < |b.members| && b.members[j] == x;
        assert bs[i].members[j] == x;
      }
    }
  }

  /** The report ends with the suppression notice, which is empty exactly
      when all the annotations outside the origin's line fit the budget. */
  lemma NoticeIffOverBudget(isError: bool, origin: Origin, originLineSources: seq<Source>,
                            bs: seq<Bucket>)
    ensures var r := PrintedSections(isError, origin, originLineSources, bs);
            && |r| >= 2
            && r[|r| - 1] == [Notice(SupressedMessage(SuppressFrom(bs, DefaultMaxErrorsDisplayed).1, isError))]
            && (r[|r| - 1] == [Notice("")] <==> Total(bs) <= DefaultMaxErrorsDisplayed)
  {
    PrintedSectionsUnfold(isError, origin, originLineSources, bs);
    if Total(bs) <= DefaultMaxErrorsDisplayed {
      SuppressUnderBudget(bs, DefaultMaxErrorsDisplayed);
    } else {
      SuppressOverBudget(bs, DefaultMaxErrorsDisplayed);
    }
  }

  /** Suppression never introduces a file. */
  lemma SuppressKeepsFiles(bs: seq<Bucket>, available: nat)
    ensures Files(SuppressFrom(bs, available).0) <= Files(bs)
  {
    SuppressKeepsPrefixes(bs, available);
    var kept := SuppressFrom(bs, available).0;
    forall g | g in Files(kept) ensures g in Files(bs) {
      var b :| b in kept && b.file == g;
      var i :| 0 <= i < |kept| && kept[i] == b;
      assert bs[i] in bs;
    }
  }

  /** The shape of the report: the origin file's section first, then one
      section per remaining file other than the origin's, in key order,
      then the notice; at most `DEFAULT_MAX_ERRORS_DISPLAYED` annotations
      outside the origin's line remain, all from files that had some. */
  lemma PrintedSectionsLayout(isError: bool, origin: Origin, originLineSources: seq<Source>,
                              bs: seq<Bucket>)
    requires WellFormed(bs)
    ensures var r := PrintedSections(isError, origin, originLineSources, bs);
            var kept := SuppressFrom(bs, DefaultMaxErrorsDisplayed).0;
            var ob := OtherBuckets(kept, origin.file);
            && |r| == |ob| + 2
            && r[0] == OriginSectionParts(origin, originLineSources, Get(kept, origin.file))
            && (forall k :: 0 <= k < |ob| ==>
                  r[k + 1] == FileSectionParts(ob[k].file, ob[k].members, -1, true))
            && FilesIncreasing(ob)
            && Files(ob) == Files(kept) - {origin.file}
            && Files(kept) <= Files(bs)
            && Total(kept) <= DefaultMaxErrorsDisplayed
  {
    var kept := SuppressFrom(bs, DefaultMaxErrorsDisplayed).0;
    var ob := OtherBuckets(kept, origin.file);
    var others := OtherFileSections(kept, origin.file);
    PrintedSectionsUnfold(isError, origin, originLineSources, bs);
    Bracketed(OriginSectionParts(origin, originLineSources, Get(kept, origin.file)), others,
              [Notice(SupressedMessage(SuppressFrom(bs, DefaultMaxErrorsDisplayed).1, isError))]);
    OtherFileSectionsMatchBuckets(kept, origin.file);
    KeptMapFacts(bs, origin.file);
  }

  /** Where the pieces of `[first] + middle + [last]` sit. */
  lemma Bracketed(first: Section, middle: seq<Section>, last: Section)
    ensures var r := [first] + middle + [last];
            && |r| == |middle| + 2
            && r[0] == first
            && r[|r| - 1] == last
            && forall k :: 0 <= k < |middle| ==> r[k + 1] == middle[k]
  {
  }

  /** What suppression leaves of a well-formed map: at most the budget, no
      new file, and the files other than the origin's in key order. */
  lemma KeptMapFacts(bs: seq<Bucket>, originFile: FileId)
    requires WellFormed(bs)
    ensures var kept := SuppressFrom(bs, DefaultMaxErrorsDisplayed).0;
            var ob := OtherBuckets(kept, originFile);
            && FilesIncreasing(ob)
            && Files(ob) == Files(kept) - {originFile}
            && Files(kept) <= Files(bs)
            && Total(kept) <= DefaultMaxErrorsDisplayed
  {
    var kept := SuppressFrom(bs, DefaultMaxErrorsDisplayed).0;
    SuppressKeepsWellFormed(bs, DefaultMaxErrorsDisplayed);
    OtherBucketsAreTheOtherFiles(kept, originFile);
    SuppressKeepsFiles(bs, DefaultMaxErrorsDisplayed);
    SuppressKeepsMinimum(bs, DefaultMaxErrorsDisplayed);
  }

  lemma TwoSuppressed()
    ensures SupressedMessage(2, true) == "Supressed 2 additional errors"
    ensures SupressedMessage(2, false) == "Supressed 2 additional warnings"
  {
    assert Decimal(2) == "2";
    assert "Supressed " + "2" + " additional " + "errors" == "Supressed 2 additional errors";
    assert "Supressed " + "2" + " additional " + "warnings" == "Supressed 2 additional warnings";
  }

  /** Seven annotations in one file other than the origin's: the first
      five are shown and the notice reads "Supressed 2 additional errors". */
  lemma SevenAnnotationsInOneOtherFile(origin: Origin, m: seq<Source>)
    requires origin.file == 1 && |m| == 7
    ensures var r := PrintedSections(true, origin, [], [Bucket(2, m)]);
            && |r| == 3
            && r[1] == FileSectionParts(2, m[..5], -1, true)
            && r[2] == [Notice("Supressed 2 additional errors")]
  {
    var bs := [Bucket(2, m)];
    var kept := [Bucket(2, m[..5])];
    SuppressStep(bs, DefaultMaxErrorsDisplayed);
    PrintedSectionsUnfold(true, origin, [], bs);
    assert kept[1..] == [];
    assert OtherFileSections(kept[1..], 1) == [];
    assert OtherFileSections(kept, 1) == [FileSectionParts(2, m[..5], -1, true)];
    TwoSuppressed();
  }

  /** The walk over files with four, three and ten annotations: the first
      file fits, the second keeps one annotation and reports two, the third
      is dropped. */
  lemma ThreeFileWalk(m2: seq<Source>, m3: seq<Source>, m4: seq<Source>)
    requires |m2| == 4 && |m3| == 3 && |m4| == 10
    ensures var bs := [Bucket(2, m2), Bucket(3, m3), Bucket(4, m4)];
            && SuppressFrom(bs, DefaultMaxErrorsDisplayed).0 == [Bucket(2, m2), Bucket(3, m3[..1])]
            && SuppressFrom(bs, DefaultMaxErrorsDisplayed).1 == 2
            && Total(bs) == 17
  {
    var bs := [Bucket(2, m2), Bucket(3, m3), Bucket(4, m4)];
    SuppressStep(bs, DefaultMaxErrorsDisplayed);
    assert bs[1..] == [Bucket(3, m3), Bucket(4, m4)];
    SuppressStep(bs[1..], 1);
    assert bs[1..][1..] == [Bucket(4, m4)] && bs[1..][1..][1..] == [];
    assert Total(bs[1..][1..]) == 10;
    assert Total(bs[1..]) == 13;
  }

  /** Files after the boundary vanish without being counted: with four,
      three and ten annotations in three files, twelve are removed but the
      notice reports two, the excess of the second file alone. */
  lemma LaterFilesAreNotCounted(origin: Origin, m2: seq<Source>, m3: seq<Source>, m4: seq<Source>)
    requires origin.file == 1 && |m2| == 4 && |m3| == 3 && |m4| == 10
    ensures var bs := [Bucket(2, m2), Bucket(3, m3), Bucket(4, m4)];
            var r := PrintedSections(false, origin, [], bs);
            && Total(bs) - Total(SuppressFrom(bs, DefaultMaxErrorsDisplayed).0) == 12
            && r[|r| - 1] == [Notice("Supressed 2 additional warnings")]
  {
    var bs := [Bucket(2, m2), Bucket(3, m3), Bucket(4, m4)];
    var kept := [Bucket(2, m2), Bucket(3, m3[..1])];
    ThreeFileWalk(m2, m3, m4);
    assert kept[1..] == [Bucket(3, m3[..1])] && kept[1..][1..] == [];
    assert Total(kept[1..]) == 1;
    NoticeIffOverBudget(false, origin, [], bs);
    TwoSuppressed();
  }

  class CodePrinter {
    /** The stream is a reference member: fixed at construction. */
    const out: Output
    var isError: bool
    var code: string
    var origin: Origin
    var message: string
    /** Annotations on the origin's own line. */
    var originLineSources: seq<Source>
    /** Every other annotation, by file. */
    var sources: seq<Bucket>
    /** The next insertion index to stamp. */
    var sourceIndex: int

    /** Both sets are ordered, the map's keys are ordered and each entry
        lies in its own file, and every stored annotation was stamped with
        an index handed out before. */
    ghost predicate Valid()
      reads this
    {
      && sourceIndex >= 0
      && Sorted(originLineSources)
      && IndicesBelow(originLineSources, sourceIndex)
      && WellFormed(sources)
      && MapIndicesBelow(sources, sourceIndex)
    }

    constructor(out: Output, isError: bool, code: string)
      ensures this.out == out && this.isError == isError && this.code == code
      ensures origin == NoOrigin && message == ""
      ensures originLineSources == [] && sources == [] && sourceIndex == 0
      ensures Valid()
    {
      this.out := out;
      this.isError := isError;
      this.code := code;
      origin := NoOrigin;
      message := "";
      originLineSources := [];
      sources := [];
      sourceIndex := 0;
    }

    /** `withMessage`: sets the origin and the message, keeps the
        annotations, and returns the printer itself for chaining. */
    method WithMessage(origin': Origin, message': string) returns (self: CodePrinter)
      requires Valid()
      modifies this
      ensures self == this && Valid()
      ensures origin == origin' && message == message'
      ensures isError == old(isError) && code == old(code)
      ensures originLineSources == old(originLineSources) && sources == old(sources)
      ensures sourceIndex == old(sourceIndex)
    {
      origin := origin';
      message := message';
      self := this;
    }

    /** `withSource(source)`: the annotation is stamped with the next index
        and goes to the origin line's set when it lies on the origin's line,
        otherwise to its file's entry of the map, which is created when
        missing.  Since the stamp is new, the receiving set always grows by
        exactly the stamped annotation, and nothing else changes. */
    method WithSource(source: Source) returns (self: CodePrinter)
      requires Valid()
      modifies this
      ensures self == this && Valid()
      ensures sourceIndex == old(sourceIndex) + 1
      ensures origin == old(origin) && message == old(message)
      ensures isError == old(isError) && code == old(code)
      ensures var stamped := source.WithIndex(old(sourceIndex));
              if source.origin.file == origin.file && source.origin.OnSameLine(origin) then
                && originLineSources == Insert(old(originLineSources), stamped)
                && multiset(originLineSources) == multiset(old(originLineSources)) + multiset{stamped}
                && sources == old(sources)
              else
                && originLineSources == old(originLineSources)
                && sources == AddTo(old(sources), source.origin.file, stamped)
                && multiset(Get(sources, source.origin.file))
                   == multiset(Get(old(sources), source.origin.file)) + multiset{stamped}
                && (forall g :: g != source.origin.file ==> Find(sources, g) == Find(old(sources), g))
                && Total(sources) == Total(old(sources)) + 1
    {
      var stamped := source.WithIndex(sourceIndex);
      if source.origin.file == origin.file && source.origin.OnSameLine(origin) {
        InsertFresh(originLineSources, stamped, sourceIndex);
        originLineSources := Insert(originLineSources, stamped);
      } else {
        AddFreshSource(sources, stamped, sourceIndex);
        sources := AddTo(sources, source.origin.file, stamped);
      }
      sourceIndex := sourceIndex + 1;
      self := this;
    }

    /** `withSource(origin, message)`: an annotation built from an origin
        and a message (empty by default), added as `WithSource` does. */
    method WithSourceAt(origin': Origin, message': string := "") returns (self: CodePrinter)
      requires Valid()
      modifies this
      ensures self == this && Valid()
      ensures sourceIndex == old(sourceIndex) + 1
      ensures origin == old(origin) && message == old(message)
      ensures isError == old(isError) && code == old(code)
      ensures var stamped := Source(old(sourceIndex), origin', message');
              if origin'.file == origin.file && origin'.OnSameLine(origin) then
                && originLineSources == Insert(old(originLineSources), stamped)
                && sources == old(sources)
              else
                && originLineSources == old(originLineSources)
                && sources == AddTo(old(sources), origin'.file, stamped)
    {
      self := WithSource(NewSource(origin', message'));
    }

    /** `supressSources`: walks the map in key order with a budget of
        `DEFAULT_MAX_ERRORS_DISPLAYED`; the first file that does not fit
        keeps only as many annotations as remain in the budget and the walk
        stops there, dropping every later file.  The count returned is the
        boundary file's excess.  The origin line's set is not touched. */
    method SupressSources() returns (supressedCount: int)
      requires Valid()
      modifies this
      ensures Valid()
      ensures sources == SuppressFrom(old(sources), DefaultMaxErrorsDisplayed).0
      ensures supressedCount == SuppressFrom(old(sources), DefaultMaxErrorsDisplayed).1
      ensures originLineSources == old(originLineSources) && sourceIndex == old(sourceIndex)
      ensures origin == old(origin) && message == old(message)
      ensures isError == old(isError) && code == old(code)
    {
      SuppressKeepsWellFormed(sources, DefaultMaxErrorsDisplayed);
      SuppressKeepsIndices(sources, DefaultMaxErrorsDisplayed, sourceIndex);
      sources, supressedCount := SupressWalk(sources);
    }

    /** `addOriginFileSection`: looks up the origin's file in the map
        (creating an empty entry when it is missing), scans it for the
        largest line and for an annotation after the origin, and pushes one
        section: the stack text, the origin line's annotations, the divider
        when needed, and the rest of the origin file's annotations. */
    method AddOriginFileSection(sections: seq<Section>) returns (out: seq<Section>)
      requires Valid()
      modifies this
      ensures Valid()
      ensures sources == Touch(old(sources), origin.file)
      ensures out == sections + [OriginSectionParts(origin, originLineSources, Get(old(sources), origin.file))]
      ensures originLineSources == old(originLineSources) && sourceIndex == old(sourceIndex)
      ensures origin == old(origin) && message == old(message)
      ensures isError == old(isError) && code == old(code)
    {
      TouchKeeps(sources, origin.file, sourceIndex);
      sources := Touch(sources, origin.file);
      var fileSources := Get(sources, origin.file);
      var ss := OriginSection(origin, originLineSources, fileSources);
      out := sections + [ss];
    }

    /** `addSourceSections`: the origin file's section first, then one
        section per entry of the map whose file is not the origin's, in key
        order. */
    method AddSourceSections(sections: seq<Section>) returns (out: seq<Section>)
      requires Valid()
      modifies this
      ensures Valid()
      ensures sources == Touch(old(sources), origin.file)
      ensures out == sections
                     + [OriginSectionParts(origin, originLineSources, Get(old(sources), origin.file))]
                     + OtherFileSections(old(sources), origin.file)
      ensures originLineSources == old(originLineSources) && sourceIndex == old(sourceIndex)
      ensures origin == old(origin) && message == old(message)
      ensures isError == old(isError) && code == old(code)
    {
      TouchKeeps(sources, origin.file, sourceIndex);
      out := AddOriginFileSection(sections);
      out := AddOtherFileSections(out, sources, origin.file);
    }

    /** `print`: fails when the origin has no file; otherwise suppresses
        what exceeds the budget, and reports the source sections followed by
        the suppression notice to the printer's stream. */
    method Print() returns (r: Result<Report, string>)
      requires Valid()
      modifies this
      ensures Valid()
      ensures !old(origin.IsValid()) ==>
                r == Failure(MissingOriginMessage(isError)) && sources == old(sources)
      ensures old(origin.IsValid()) ==>
                && r == Success(Report(out, isError, message, code,
                                       PrintedSections(isError, origin, originLineSources, old(sources))))
                && sources == Touch(SuppressFrom(old(sources), DefaultMaxErrorsDisplayed).0, origin.file)
      ensures originLineSources == old(originLineSources) && sourceIndex == old(sourceIndex)
      ensures origin == old(origin) && message == old(message)
      ensures isError == old(isError) && code == old(code)
    {
      if !origin.IsValid() {
        return Failure(MissingOriginMessage(isError));
      }
      ghost var kept := SuppressFrom(sources, DefaultMaxErrorsDisplayed).0;
      ghost var count := SuppressFrom(sources, DefaultMaxErrorsDisplayed).1;
      PrintedSectionsUnfold(isError, origin, originLineSources, sources);
      var supressedCount := SupressSources();
      ghost var head := [OriginSectionParts(origin, originLineSources, Get(kept, origin.file))]
                        + OtherFileSections(kept, origin.file);
      var sections := AddSourceSections([]);
      assert sections == head;
      sections := sections + [[Notice(SupressedMessage(supressedCount, isError))]];
      r := Success(Report(out, isError, message, code, sections));
    }
  }

  /** `errorCode(out, code)`: a fresh printer for an error. */
  method ErrorCode(out: Output, code: string) returns (p: CodePrinter)
    ensures fresh(p) && p.Valid()
    ensures p.out == out && p.isError && p.code == code
    ensures p.origin == NoOrigin && p.sources == [] && p.originLineSources == []
    ensures p.message == "" && p.sourceIndex == 0
  {
    p := new CodePrinter(out, true, code);
  }

  /** `errorCode(code)`: the same, reporting to standard error. */
  method ErrorCodeToStderr(code: string) returns (p: CodePrinter)
    ensures fresh(p) && p.Valid()
    ensures p.out == Stderr && p.isError && p.code == code
    ensures p.origin == NoOrigin && p.sources == [] && p.originLineSources == []
    ensures p.message == "" && p.sourceIndex == 0
  {
    p := ErrorCode(Stderr, code);
  }

  /** `warningCode(out, code)`: a fresh printer for a warning. */
  method WarningCode(out: Output, code: string) returns (p: CodePrinter)
    ensures fresh(p) && p.Valid()
    ensures p.out == out && !p.isError && p.code == code
    ensures p.origin == NoOrigin && p.sources == [] && p.originLineSources == []
    ensures p.message == "" && p.sourceIndex == 0
  {
    p := new CodePrinter(out, false, code);
  }

  /** `warningCode(code)`: the same, reporting to standard error. */
  method WarningCodeToStderr(code: string) returns (p: CodePrinter)
    ensures fresh(p) && p.Valid()
    ensures p.out == Stderr && !p.isError && p.code == code
    ensures p.origin == NoOrigin && p.sources == [] && p.originLineSources == []
    ensures p.message == "" && p.sourceIndex == 0
  {
    p := WarningCode(Stderr, code);
  }
}
