/**
 * Decimal text of integers, as Python's `str` writes an `int` inside an
 * f-string: an optional minus sign followed by the digits of the magnitude,
 * with no leading zeros. `ParseInt` is the reader of that text; the lemmas
 * show the two are inverse on canonical text, in both directions.
 */
module Decimal {
  import opened Wrappers

  predicate IsDigit(c: char) {
    '0' <= c <= '9'
  }

  predicate AllDigits(s: string) {
    forall i :: 0 <= i < |s| ==> IsDigit(s[i])
  }

  /** At least one digit, and no leading zero unless the text is exactly "0". */
  predicate IsCanonicalDigits(s: string) {
    |s| >= 1 && AllDigits(s) && (s[0] == '0' ==> |s| == 1)
  }

  /** Canonical digits, or a minus sign followed by canonical digits of a positive number. */
  predicate IsCanonicalDecimal(s: string) {
    IsCanonicalDigits(s) || (|s| >= 2 && s[0] == '-' && IsCanonicalDigits(s[1..]) && s[1] != '0')
  }

  function DigitValue(c: char): (d: nat)
    requires IsDigit(c)
    ensures d < 10
    ensures d == 0 <==> c == '0'
  {
    c as int - '0' as int
  }

  function DigitChar(d: nat): (c: char)
    requires d < 10
    ensures IsDigit(c) && DigitValue(c) == d
  {
    ('0' as int + d) as char
  }

  /** The digits of `n`, most significant first. */
  function NatToDigits(n: nat): (s: string)
    ensures IsCanonicalDigits(s)
    ensures s[0] == '0' <==> n == 0
    decreases n
  {
    if n < 10 then [DigitChar(n)] else NatToDigits(n / 10) + [DigitChar(n % 10)]
  }

  /** The number a string of digits denotes, read most significant first. */
  function DigitsToNat(s: string): nat
    requires AllDigits(s)
  {
    if s == [] then 0 else DigitsToNat(s[..|s| - 1]) * 10 + DigitValue(s[|s| - 1])
  }

  /** Python's `str(i)` for an `int`. */
  function IntToDecimal(i: int): (s: string)
    ensures IsCanonicalDecimal(s)
    ensures s[0] == '-' <==> i < 0
  {
    if i < 0 then "-" + NatToDigits(-i) else NatToDigits(i)
  }

  /** Reads canonical decimal text back into the integer it denotes; anything else is `None`. */
  function ParseInt(s: string): Option<int> {
    if IsCanonicalDigits(s) then Some(DigitsToNat(s))
    else if IsCanonicalDecimal(s) then var m: int := DigitsToNat(s[1..]); Some(-m)
    else None
  }

  /** The number of digit characters at the end of `s`: the run stops at a non-digit or at the start. */
  function TrailingDigitCount(s: string): (k: nat)
    ensures k <= |s|
    ensures AllDigits(s[|s| - k..])
    ensures k < |s| ==> !IsDigit(s[|s| - k - 1])
  {
    if s == [] || !IsDigit(s[|s| - 1]) then 0
    else
      var p := s[..|s| - 1];
      var k := TrailingDigitCount(p);
      assert s[|s| - (k + 1)..] == p[|p| - k..] + [s[|s| - 1]];
      k + 1
  }

  /** A run of digits that follows a non-digit (or the start) is exactly the trailing run. */
  lemma {:induction false} TrailingDigitCountOfRun(p: string, d: string)
    requires AllDigits(d)
    requires p != [] ==> !IsDigit(p[|p| - 1])
    ensures TrailingDigitCount(p + d) == |d|
  {
    if d == [] {
      assert p + d == p;
    } else {
      var d' := d[..|d| - 1];
      TrailingDigitCountOfRun(p, d');
      assert (p + d)[..|p + d| - 1] == p + d';
    }
  }

  lemma {:induction false} NatToDigitsRoundTrip(n: nat)
    ensures DigitsToNat(NatToDigits(n)) == n
    decreases n
  {
    var s := NatToDigits(n);
    if n < 10 {
      assert s[..|s| - 1] == [];
    } else {
      NatToDigitsRoundTrip(n / 10);
      assert s[..|s| - 1] == NatToDigits(n / 10);
    }
  }

  /** A digit string is worth at least its leading digit. */
  lemma {:induction false} DigitsToNatAtLeastLeading(s: string)
    requires AllDigits(s) && |s| >= 1
    ensures DigitsToNat(s) >= DigitValue(s[0])
  {
    if |s| > 1 {
      var p := s[..|s| - 1];
      DigitsToNatAtLeastLeading(p);
      assert p[0] == s[0];
    }
  }

  lemma {:induction false} CanonicalDigitsRoundTrip(s: string)
    requires IsCanonicalDigits(s)
    ensures NatToDigits(DigitsToNat(s)) == s
  {
    var n := DigitsToNat(s);
    if |s| == 1 {
      assert s[..|s| - 1] == [];
      assert DigitsToNat(s[..|s| - 1]) == 0;
      assert n == DigitValue(s[0]);
      assert s == [DigitChar(n)];
    } else {
      var p := s[..|s| - 1];
      assert p[0] == s[0];
      CanonicalDigitsRoundTrip(p);
      DigitsToNatAtLeastLeading(p);
      assert n / 10 == DigitsToNat(p) && n % 10 == DigitValue(s[|s| - 1]);
      assert s == p + [s[|s| - 1]];
    }
  }

  /** Reading the decimal text of any integer gives that integer back. */
  lemma ParseIntRoundTrip(i: int)
    ensures ParseInt(IntToDecimal(i)) == Some(i)
  {
    var s := IntToDecimal(i);
    if i < 0 {
      NatToDigitsRoundTrip(-i);
      assert s[1..] == NatToDigits(-i);
      assert !IsDigit(s[0]);
    } else {
      NatToDigitsRoundTrip(i);
    }
  }

  /** Whatever `ParseInt` accepts is exactly the text `str` writes for the result. */
  lemma ParseIntCanonical(s: string)
    ensures ParseInt(s).Some? ==> IntToDecimal(ParseInt(s).value) == s
  {
    if IsCanonicalDigits(s) {
      CanonicalDigitsRoundTrip(s);
    } else if IsCanonicalDecimal(s) {
      var t := s[1..];
      CanonicalDigitsRoundTrip(t);
      DigitsToNatAtLeastLeading(t);
      assert s == "-" + t;
    }
  }

  /** Distinct integers have distinct decimal text. */
  lemma IntToDecimalInjective(a: int, b: int)
    ensures IntToDecimal(a) == IntToDecimal(b) ==> a == b
  {
    ParseIntRoundTrip(a);
    ParseIntRoundTrip(b);
  }
}
