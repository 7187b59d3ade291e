/**
 * The string operations the generators use for file names: Python's
 * `str.endswith`, `'{}'.format` of a whole number, `str.zfill(2)` and
 * `'{:.2f}'.format`, with decoders that show each rendering is faithful.
 */
module Text {

  /** Python's `s.endswith(suffix)`. */
  predicate EndsWith(s: string, suffix: string) {
    |suffix| <= |s| && s[|s| - |suffix|..] == suffix
  }

  /** Python's `s.endswith(tuple_of_suffixes)`. */
  predicate EndsWithAny(s: string, suffixes: seq<string>) {
    exists i :: 0 <= i < |suffixes| && EndsWith(s, suffixes[i])
  }

  lemma EndsWithAppend(s: string, t: string)
    ensures EndsWith(s + t, t)
  {
    assert (s + t)[|s + t| - |t|..] == t;
  }

  predicate IsDigit(c: char) {
    '0' <= c <= '9'
  }

  function DigitChar(d: nat): (c: char)
    requires d < 10
    ensures IsDigit(c)
  {
    ['0', '1', '2', '3', '4', '5', '6', '7', '8', '9'][d]
  }

  function DigitValue(c: char): (d: nat)
    requires IsDigit(c)
    ensures d < 10
  {
    (c as int) - ('0' as int)
  }

  lemma DigitRoundTrip(d: nat)
    requires d < 10
    ensures DigitValue(DigitChar(d)) == d
  {
  }

  predicate AllDigits(s: string) {
    forall i :: 0 <= i < |s| ==> IsDigit(s[i])
  }

  /** Decimal rendering of a whole number, as `'{}'.format(n)` writes it. */
  function NatToString(n: nat): (s: string)
    ensures |s| >= 1 && AllDigits(s)
    ensures n < 10 <==> |s| == 1
    decreases n
  {
    if n < 10 then [DigitChar(n)] else NatToString(n / 10) + [DigitChar(n % 10)]
  }

  /** Decimal rendering of an integer, with a minus sign for negatives. */
  function IntToString(i: int): string {
    if i < 0 then "-" + NatToString(-i) else NatToString(i)
  }

  /** Reads a string of decimal digits back as a whole number. */
  function ParseNat(s: string): nat
    requires AllDigits(s)
  {
    if s == [] then 0 else 10 * ParseNat(s[..|s| - 1]) + DigitValue(s[|s| - 1])
  }

  /** Decimal rendering and parsing are inverse: no digit is lost or added. */
  lemma {:induction false} NatToStringRoundTrip(n: nat)
    ensures ParseNat(NatToString(n)) == n
    decreases n
  {
    var s := NatToString(n);
    if n < 10 {
      DigitRoundTrip(n);
    } else {
      NatToStringRoundTrip(n / 10);
      assert s[..|s| - 1] == NatToString(n / 10);
      DigitRoundTrip(n % 10);
    }
  }

  /** A leading zero does not change the parsed value. */
  lemma {:induction false} ParseNatLeadingZero(s: string)
    requires AllDigits(s)
    ensures AllDigits("0" + s) && ParseNat("0" + s) == ParseNat(s)
    decreases |s|
  {
    if s != [] {
      ParseNatLeadingZero(s[..|s| - 1]);
      assert ("0" + s)[..|"0" + s| - 1] == "0" + s[..|s| - 1];
    }
  }

  /** `'{}'.format(n).zfill(2)`: padded on the left with zeros to at least two characters. */
  function ZFill2(n: nat): string {
    var s := NatToString(n);
    if |s| < 2 then "0" + s else s
  }

  /** Zero-padding keeps the value and yields exactly two digits below 100. */
  lemma ZFill2Decodes(n: nat)
    ensures AllDigits(ZFill2(n)) && ParseNat(ZFill2(n)) == n
    ensures n < 100 <==> |ZFill2(n)| == 2
  {
    NatToStringRoundTrip(n);
    var s := NatToString(n);
    if |s| < 2 {
      ParseNatLeadingZero(s);
    }
    if n >= 10 {
      assert NatToString(n) == NatToString(n / 10) + [DigitChar(n % 10)];
      assert n < 100 <==> n / 10 < 10;
    }
  }

  /** The whole number nearest to `x`, halves rounded up. */
  function RoundHalfUp(x: real): int {
    (x + 0.5).Floor
  }

  /** A count of hundredths written as `<int>.<dd>`. */
  function Hundredths(k: nat): string {
    NatToString(k / 100) + "." + [DigitChar(k % 100 / 10), DigitChar(k % 10)]
  }

  /** `'{:.2f}'.format(x)` for `x >= 0`: the hundredths, rounded, as `<int>.<dd>`. */
  function Fixed2NonNeg(x: real): string
    requires x >= 0.0
  {
    var k := RoundHalfUp(100.0 * x);
    assert k >= 0;
    Hundredths(k)
  }

  /** `'{:.2f}'.format(x)`: a minus sign in front of the magnitude for negatives. */
  function Fixed2(x: real): string {
    if x < 0.0 then "-" + Fixed2NonNeg(-x) else Fixed2NonNeg(x)
  }

  /** The value a `<int>.<dd>` rendering stands for. */
  function Fixed2Value(s: string): real
    requires |s| >= 4 && s[|s| - 3] == '.'
    requires AllDigits(s[..|s| - 3]) && IsDigit(s[|s| - 2]) && IsDigit(s[|s| - 1])
  {
    ParseNat(s[..|s| - 3]) as real
      + (10 * DigitValue(s[|s| - 2]) + DigitValue(s[|s| - 1])) as real / 100.0
  }

  /** A rendering of `k` hundredths has the form `<int>.<dd>` and stands for `k / 100`. */
  lemma HundredthsValue(k: nat)
    ensures var s := Hundredths(k);
      |s| >= 4 && s[|s| - 3] == '.' &&
      AllDigits(s[..|s| - 3]) && IsDigit(s[|s| - 2]) && IsDigit(s[|s| - 1]) &&
      Fixed2Value(s) == k as real / 100.0
  {
    var q, d1, d0 := k / 100, k % 100 / 10, k % 10;
    assert k == 100 * q + 10 * d1 + d0;
    var s, head := Hundredths(k), NatToString(q);
    assert s == head + "." + [DigitChar(d1), DigitChar(d0)];
    assert s[..|s| - 3] == head;
    NatToStringRoundTrip(q);
    DigitRoundTrip(d1);
    DigitRoundTrip(d0);
    HundredthsSum(q, 10 * d1 + d0);
  }

  /** Whole units and hundredths add up over a common denominator. */
  lemma HundredthsSum(q: nat, m: nat)
    ensures q as real + m as real / 100.0 == (100 * q + m) as real / 100.0
  {
  }

  /** The two-decimal rendering is within half a hundredth of the number. */
  lemma Fixed2NonNegNearest(x: real)
    requires x >= 0.0
    ensures var s := Fixed2NonNeg(x);
      |s| >= 4 && s[|s| - 3] == '.' &&
      AllDigits(s[..|s| - 3]) && IsDigit(s[|s| - 2]) && IsDigit(s[|s| - 1]) &&
      -0.005 < Fixed2Value(s) - x <= 0.005
  {
    var k := RoundHalfUp(100.0 * x);
    assert k as real <= 100.0 * x + 0.5 < k as real + 1.0;
    HundredthsValue(k);
  }

  /** `pluralize(word, count)`: the English plural unless the count is exactly one. */
  function Pluralize(word: string, count: real): string {
    if count == 1.0 then word else word + "s"
  }
}
