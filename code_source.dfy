/** `codeSource_t`: one annotation (an origin, a message and the insertion
    index used to break ties), and the order `codeSourceSet` keeps it in. */
module CodeSources {
  import opened Origins

  /** `codeSource_t`.  `index` is -1 until the printer stamps it. */
  datatype Source = Source(index: int, origin: Origin, message: string)
  {
    /** `withIndex`: the same annotation with another index. */
    function WithIndex(i: int): (r: Source)
      ensures r.index == i && r.origin == origin && r.message == message
      ensures r == this <==> index == i
    {
      Source(i, origin, message)
    }
  }

  /** The two-argument constructor: no index yet, and an empty message by
      default. */
  function NewSource(origin: Origin, message: string := ""): (s: Source)
    ensures s.index == -1 && s.origin == origin && s.message == message
  {
    Source(-1, origin, message)
  }

  /** The triple the comparison looks at: file identity, start offset, index. */
  function Key(s: Source): (FileId, int, int) {
    (s.origin.file, s.origin.start, s.index)
  }

  /** Lexicographic order on keys: the reference definition of the order. */
  predicate KeyBefore(x: (FileId, int, int), y: (FileId, int, int)) {
    || x.0 < y.0
    || (x.0 == y.0 && x.1 < y.1)
    || (x.0 == y.0 && x.1 == y.1 && x.2 < y.2)
  }

  /** The body of `operator <`: a three-way comparison returning -1, 0 or 1.
      Within one file it orders by start offset and then by index; across
      files by file identity. */
  function Compare(a: Source, b: Source): (r: int)
    ensures r == -1 || r == 0 || r == 1
    ensures r == 0 <==> Key(a) == Key(b)
    ensures r < 0 <==> KeyBefore(Key(a), Key(b))
    ensures r > 0 <==> KeyBefore(Key(b), Key(a))
  {
    var ao, bo := a.origin, b.origin;
    if ao.file == bo.file then
      if ao.start < bo.start then -1
      else if ao.start > bo.start then 1
      else if a.index < b.index then -1
      else if a.index > b.index then 1
      else 0
    else
      if ao.file < bo.file then -1
      else if ao.file > bo.file then 1
      else 0
  }

  /** The order the source evidently intends for `codeSourceSet`: `a < b`
      iff the comparison is negative (`LessIsCompareNegative`), i.e. iff the
      key of `a` comes first. */
  predicate Less(a: Source, b: Source) {
    KeyBefore(Key(a), Key(b))
  }

  lemma LessIsCompareNegative(a: Source, b: Source)
    ensures Less(a, b) <==> Compare(a, b) < 0
  {
  }

  /** `operator <` as written: it is declared to return `bool`, so the -1 and
      1 that its body returns both convert to `true`. */
  function OperatorLessAsWritten(a: Source, b: Source): (r: bool)
    ensures r <==> Key(a) != Key(b)
  {
    Compare(a, b) != 0
  }

  /** The as-written operator is symmetric, so it is not a strict weak order
      as `std::set` requires: two annotations in one file at offsets 1 and 2
      are each "less" than the other. */
  lemma OperatorLessAsWrittenIsNotAnOrder(o: Origin)
    ensures var a := Source(0, o.(start := 1), "");
            var b := Source(1, o.(start := 2), "");
            OperatorLessAsWritten(a, b) && OperatorLessAsWritten(b, a)
  {
  }

  /** `Compare` is antisymmetric. */
  lemma CompareAntisymmetric(a: Source, b: Source)
    ensures Compare(a, b) == -Compare(b, a)
  {
  }

  /** `Less` is a strict total order on keys: irreflexive, transitive, and
      any two annotations with different keys are ordered one way. */
  lemma LessIsStrictTotalOrder(a: Source, b: Source, c: Source)
    ensures !Less(a, a)
    ensures Less(a, b) ==> !Less(b, a)
    ensures Less(a, b) && Less(b, c) ==> Less(a, c)
    ensures Key(a) != Key(b) <==> Less(a, b) || Less(b, a)
  {
  }
}
