/** The small layout helpers of the code printer: the gutter width, the
    centred divider and the trailing "suppressed" notice, together with the
    decimal rendering of integers that the stream output performs. */
module Layout {

  function Abs(x: int): nat {
    if x < 0 then -x else x
  }

  /** C++ integer division by 10, which truncates toward zero. */
  function TruncDiv10(x: int): (q: int)
    ensures Abs(q) == Abs(x) / 10
    ensures q == 0 <==> -10 < x < 10
    ensures x >= 0 ==> q >= 0
    ensures x < 0 ==> q <= 0
  {
    if x >= 0 then x / 10 else -((-x) / 10)
  }

  function DigitChar(d: nat): (c: char)
    requires d < 10
    ensures '0' <= c <= '9'
  {
    ('0' as int + d) as char
  }

  predicate IsDigits(s: string) {
    forall i :: 0 <= i < |s| ==> '0' <= s[i] <= '9'
  }

  /** How `operator <<` writes a non-negative integer: decimal digits, most
      significant first, no leading zero. */
  function Decimal(n: nat): (s: string)
    ensures |s| >= 1 && IsDigits(s)
    ensures s[0] == '0' <==> n == 0
    decreases n
  {
    if n < 10 then [DigitChar(n)] else Decimal(n / 10) + [DigitChar(n % 10)]
  }

  /** The value a string of decimal digits denotes. */
  function DecimalValue(s: string): nat
    requires IsDigits(s)
    decreases |s|
  {
    if s == [] then 0
    else DecimalValue(s[..|s| - 1]) * 10 + (s[|s| - 1] as int - '0' as int)
  }

  /** Reading back what `Decimal` writes gives the number. */
  lemma {:induction false} DecimalRoundTrip(n: nat)
    ensures DecimalValue(Decimal(n)) == n
    decreases n
  {
    if n >= 10 {
      DecimalRoundTrip(n / 10);
      var s := Decimal(n);
      assert s[..|s| - 1] == Decimal(n / 10);
    }
  }

  /** The number of decimal digits of `n`, where 0 has none. */
  function DigitCount(n: nat): nat
    decreases n
  {
    if n == 0 then 0 else 1 + DigitCount(n / 10)
  }

  lemma {:induction false} DecimalLength(n: nat)
    ensures |Decimal(n)| == 1 + DigitCount(n / 10)
    decreases n
  {
    if n >= 10 {
      DecimalLength(n / 10);
    }
  }

  /** The gutter width for line numbers up to `maxLine`: the digits of the
      number with one column of padding on each side. */
  function SidebarWidth(maxLine: int): int {
    2 + |Decimal(Abs(maxLine))|
  }

  /** `getSidebarWidth`: start at 3 and add one per division by ten of
      `maxLine / 10` that leaves something. */
  method GetSidebarWidth(maxLine: int) returns (width: int)
    ensures width == SidebarWidth(maxLine)
  {
    width := 3;
    var line := TruncDiv10(maxLine);
    DecimalLength(Abs(maxLine));
    while line != 0
      invariant width + DigitCount(Abs(line)) == SidebarWidth(maxLine)
      decreases Abs(line)
    {
      width := width + 1;
      line := TruncDiv10(line);
    }
  }

  /** Line numbers 0 to 9 get the narrowest gutter, 3 columns. */
  lemma SidebarWidthOneDigit(maxLine: int)
    requires 0 <= maxLine <= 9
    ensures SidebarWidth(maxLine) == 3
  {
  }

  /** One more decimal digit widens the gutter by one column. */
  lemma SidebarWidthNextDigit(n: int, d: int)
    requires n >= 1 && 0 <= d <= 9
    ensures SidebarWidth(10 * n + d) == SidebarWidth(n) + 1
  {
    DecimalLength(10 * n + d);
    DecimalLength(n);
    assert (10 * n + d) / 10 == n;
    DigitCountStep(n);
  }

  lemma DigitCountStep(n: nat)
    requires n >= 1
    ensures DigitCount(n) == 1 + DigitCount(n / 10)
  {
  }

  /** The gutter is at least 3 columns wide. */
  lemma SidebarWidthAtLeastThree(maxLine: int)
    ensures SidebarWidth(maxLine) >= 3
  {
  }

  /** A larger line number never gets a narrower gutter. */
  lemma SidebarWidthMonotone(a: int, b: int)
    requires 0 <= a <= b
    ensures SidebarWidth(a) <= SidebarWidth(b)
  {
    DecimalLength(a);
    DecimalLength(b);
    DigitCountMonotone(a / 10, b / 10);
  }

  lemma {:induction false} DigitCountMonotone(a: nat, b: nat)
    requires a <= b
    ensures DigitCount(a) <= DigitCount(b)
    decreases b
  {
    if a > 0 {
      DigitCountMonotone(a / 10, b / 10);
    }
  }

  function Spaces(n: nat): (s: string)
    ensures |s| == n && forall i :: 0 <= i < n ==> s[i] == ' '
  {
    seq(n, _ => ' ')
  }

  /** `addDivider`: the divider, preceded by `sidebarWidth - |divider| / 2`
      spaces so that its middle sits on the gutter border.  A negative
      padding would make `std::string` throw, so callers keep the padding
      non-negative. */
  function DividerText(divider: string, sidebarWidth: int): (r: string)
    requires sidebarWidth >= |divider| / 2
    ensures |r| == sidebarWidth - |divider| / 2 + |divider|
    ensures forall i :: 0 <= i < |r| - |divider| ==> r[i] == ' '
    ensures r[|r| - |divider|..] == divider
  {
    Spaces(sidebarWidth - |divider| / 2) + divider
  }

  /** For the origin section's "^^^" the padding is one less than the
      gutter, so the middle caret lands in column `sidebarWidth`. */
  lemma CaretDividerCentred(sidebarWidth: int)
    requires sidebarWidth >= 1
    ensures var r := DividerText("^^^", sidebarWidth);
            && |r| == sidebarWidth + 2
            && (forall i :: 0 <= i < sidebarWidth - 1 ==> r[i] == ' ')
            && r[sidebarWidth] == '^'
  {
    var r := DividerText("^^^", sidebarWidth);
    assert r[sidebarWidth - 1..] == "^^^";
    assert r[sidebarWidth] == r[sidebarWidth - 1..][1];
  }

  /** The word after the count: singular only for exactly one. */
  function CountedNoun(isError: bool, plural: bool): string {
    if plural then (if isError then "errors" else "warnings")
    else (if isError then "error" else "warning")
  }

  /** `getSupressedMessage` (spelled as in the source, colour left out). */
  function SupressedMessage(count: int, isError: bool): (r: string)
    ensures r == "" <==> count <= 0
  {
    if count <= 0 then ""
    else "Supressed " + Decimal(count) + " additional " + CountedNoun(isError, count > 1)
  }

  /** The notice states the count: its digits read back as the count, and
      the noun is plural iff the count is more than one. */
  lemma SupressedMessageStatesCount(count: int, isError: bool)
    requires count > 0
    ensures var r := SupressedMessage(count, isError);
            var digits := |Decimal(count)|;
            && r[..10] == "Supressed "
            && IsDigits(r[10..10 + digits])
            && DecimalValue(r[10..10 + digits]) == count
            && r[10 + digits..10 + digits + 12] == " additional "
            && r[10 + digits + 12..] == CountedNoun(isError, count > 1)
            && (r[|r| - 1] == 's' <==> count > 1)
  {
    var d := Decimal(count);
    var noun := CountedNoun(isError, count > 1);
    var r := SupressedMessage(count, isError);
    assert r == "Supressed " + d + " additional " + noun;
    NoticeLayout(d, noun);
    assert r[10..10 + |d|] == d;
    NounEndsInS(isError, count > 1);
    DecimalRoundTrip(count);
  }

  /** Where the pieces of the notice sit in it. */
  lemma NoticeLayout(d: string, noun: string)
    requires noun != []
    ensures var r := "Supressed " + d + " additional " + noun;
            && r[..10] == "Supressed "
            && r[10..10 + |d|] == d
            && r[10 + |d|..10 + |d| + 12] == " additional "
            && r[10 + |d| + 12..] == noun
            && r[|r| - 1] == noun[|noun| - 1]
  {
    var r := "Supressed " + d + " additional " + noun;
    var tail := " additional " + noun;
    assert r == "Supressed " + (d + tail);
    assert r[10..] == d + tail;
    assert r[10 + |d|..] == tail;
  }

  /** Only the plural nouns end in 's'. */
  lemma NounEndsInS(isError: bool, plural: bool)
    ensures var noun := CountedNoun(isError, plural);
            noun != [] && (noun[|noun| - 1] == 's' <==> plural)
  {
  }
}
