/**
 Text as the program sees it: a sequence of code points, the token estimator, whitespace stripping,
 decimal rendering of the counters that are spliced into replacement messages, and substring search.
 */
module Text {
  import opened Wrappers

  predicate IsAscii(c: char) {
    c as int < 128
  }

  /** The code points `str.strip` and `str.lstrip` remove. */
  predicate IsSpace(c: char) {
    var n := c as int;
    || 9 <= n <= 13
    || 28 <= n <= 32
    || n == 0x85
    || n == 0xA0
    || n == 0x1680
    || 0x2000 <= n <= 0x200A
    || n == 0x2028
    || n == 0x2029
    || n == 0x202F
    || n == 0x205F
    || n == 0x3000
  }

  /** Only whitespace in `s[lo..hi]`. */
  ghost predicate Blank(s: string, lo: int, hi: int) {
    forall i :: 0 <= lo <= i < hi <= |s| ==> IsSpace(s[i])
  }

  ghost predicate AllAscii(s: string) {
    forall i :: 0 <= i < |s| ==> IsAscii(s[i])
  }

  // ---------------------------------------------------------------- token estimate

  function AsciiCount(s: string): (n: nat)
    ensures n <= |s|
  {
    if |s| == 0 then 0 else (if IsAscii(s[0]) then 1 else 0) + AsciiCount(s[1..])
  }

  /** One token per non-ASCII code point, one per four ASCII ones, and never zero. */
  function EstimateTokens(s: string): (t: nat)
    ensures 1 <= t
  {
    Max(1, |s| - AsciiCount(s) + AsciiCount(s) / 4)
  }

  lemma {:induction false} AsciiCountConcat(a: string, b: string)
    ensures AsciiCount(a + b) == AsciiCount(a) + AsciiCount(b)
  {
    if |a| == 0 {
      assert a + b == b;
    } else {
      assert (a + b)[1..] == a[1..] + b;
      AsciiCountConcat(a[1..], b);
    }
  }

  lemma {:induction false} AsciiCountAll(s: string)
    requires AllAscii(s)
    ensures AsciiCount(s) == |s|
  {
    if |s| > 0 {
      AsciiCountAll(s[1..]);
    }
  }

  /** The estimate lies between a quarter of the length and the length. */
  lemma EstimateBounds(s: string)
    ensures |s| / 4 <= EstimateTokens(s) <= Max(1, |s|)
  {
  }

  /** Replacing a stretch by a shorter, all-ASCII one never raises the estimate, whatever was replaced. */
  lemma SplicingShrinks(head: string, middle: string, tail: string, note: string)
    requires AllAscii(note) && |note| < |middle|
    ensures EstimateTokens(head + note + tail) <= EstimateTokens(head + middle + tail)
  {
    AsciiCountConcat(head, note);
    AsciiCountConcat(head + note, tail);
    AsciiCountConcat(head, middle);
    AsciiCountConcat(head + middle, tail);
    AsciiCountAll(note);
  }

  // ---------------------------------------------------------------- stripping

  /** The first position from `i` on that holds a visible character. */
  function SkipSpaces(s: string, i: nat): (r: nat)
    requires i <= |s|
    ensures i <= r <= |s| && Blank(s, i, r)
    ensures r < |s| ==> !IsSpace(s[r])
    decreases |s| - i
  {
    if i < |s| && IsSpace(s[i]) then SkipSpaces(s, i + 1) else i
  }

  /** The end of the last visible character of `s[lo..hi]`. */
  function TrimEnd(s: string, lo: nat, hi: nat): (r: nat)
    requires lo <= hi <= |s|
    ensures lo <= r <= hi && Blank(s, r, hi)
    ensures lo < r ==> !IsSpace(s[r - 1])
  {
    if lo < hi && IsSpace(s[hi - 1]) then TrimEnd(s, lo, hi - 1) else hi
  }

  function LStrip(s: string): string {
    s[SkipSpaces(s, 0)..]
  }

  function Strip(s: string): string {
    var lo := SkipSpaces(s, 0);
    s[lo..TrimEnd(s, lo, |s|)]
  }

  /** Where in `s` the stripped text sits: everything outside is whitespace, and it is visible at both ends. */
  lemma StripPlace(s: string)
    ensures var lead, r := |s| - |LStrip(s)|, Strip(s);
            && 0 <= lead && lead + |r| <= |s|
            && r == s[lead..lead + |r|]
            && Blank(s, 0, lead) && Blank(s, lead + |r|, |s|)
            && (r != [] ==> !IsSpace(r[0]) && !IsSpace(r[|r| - 1]))
            && (r == [] ==> lead == |s|)
  {
  }

  // ---------------------------------------------------------------- decimal numbers

  function Digit(d: nat): char
    requires d < 10
  {
    ('0' as int + d) as char
  }

  function Decimal(n: nat): (s: string)
    ensures |s| >= 1 && AllAscii(s)
  {
    if n < 10 then [Digit(n)] else Decimal(n / 10) + [Digit(n % 10)]
  }

  function ParseDecimal(s: string): int {
    if |s| == 0 then 0 else 10 * ParseDecimal(s[..|s| - 1]) + (s[|s| - 1] as int - '0' as int)
  }

  lemma {:induction false} DecimalRoundTrip(n: nat)
    ensures ParseDecimal(Decimal(n)) == n
  {
    if n >= 10 {
      var s := Decimal(n);
      assert s[..|s| - 1] == Decimal(n / 10);
      DecimalRoundTrip(n / 10);
    } else {
      assert Decimal(n)[..0] == [];
    }
  }

  lemma {:induction false} DecimalLength(n: nat)
    ensures |Decimal(n)| <= 1 + n / 10
    ensures n < 1000 <==> |Decimal(n)| <= 3
    ensures n < 100 <==> |Decimal(n)| <= 2
    ensures n < 10 <==> |Decimal(n)| <= 1
  {
    if n >= 10 {
      DecimalLength(n / 10);
    }
  }

  // ---------------------------------------------------------------- searching

  predicate OccursAt(w: string, m: string, i: int) {
    0 <= i && i + |m| <= |w| && w[i..i + |m|] == m
  }

  /** `str.rfind`: the largest index at which `m` occurs in `w`, or -1. */
  function RFind(w: string, m: string): (r: int)
    ensures r == -1 || OccursAt(w, m, r)
    ensures forall i :: r < i <= |w| ==> !OccursAt(w, m, i)
  {
    RFindBelow(w, m, |w|)
  }

  function RFindBelow(w: string, m: string, top: int): (r: int)
    requires -1 <= top
    ensures r == -1 || (r <= top && OccursAt(w, m, r))
    ensures forall i :: r < i <= top ==> !OccursAt(w, m, i)
    decreases top
  {
    if top < 0 then -1
    else if OccursAt(w, m, top) then top
    else RFindBelow(w, m, top - 1)
  }

  /** The `in` operator on strings. */
  predicate Contains(w: string, m: string) {
    exists i :: 0 <= i <= |w| && OccursAt(w, m, i)
  }
}
