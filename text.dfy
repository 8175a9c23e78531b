/** Decimal digits, JavaScript's parseInt prefix rule, padStart and string ordering. */
module Text {
  import opened Basics

  predicate IsDigit(c: char) { '0' <= c <= '9' }

  predicate AllDigits(s: string) { forall i :: 0 <= i < |s| ==> IsDigit(s[i]) }

  function DigitValue(c: char): nat
    requires IsDigit(c)
  {
    (c as int) - ('0' as int)
  }

  function DigitChar(d: nat): (c: char)
    requires d < 10
    ensures IsDigit(c) && DigitValue(c) == d
  {
    (('0' as int) + d) as char
  }

  /** The value of a string of decimal digits. */
  function DigitsValue(s: string): nat
    requires AllDigits(s)
    decreases |s|
  {
    if s == [] then 0 else 10 * DigitsValue(s[..|s| - 1]) + DigitValue(s[|s| - 1])
  }

  /** The decimal text of a natural number, as Number.prototype.toString gives it. */
  function NatToString(n: nat): (s: string)
    ensures |s| >= 1 && AllDigits(s)
    ensures |s| > 1 ==> s[0] != '0'
    decreases n
  {
    if n < 10 then [DigitChar(n)] else NatToString(n / 10) + [DigitChar(n % 10)]
  }

  /** The decimal text of an integer, with a leading '-' when it is negative. */
  function IntToString(i: int): string
  {
    if i < 0 then "-" + NatToString(-i) else NatToString(i)
  }

  lemma {:induction false} NatToStringRoundTrip(n: nat)
    ensures DigitsValue(NatToString(n)) == n
    decreases n
  {
    if n >= 10 {
      NatToStringRoundTrip(n / 10);
      var s := NatToString(n);
      assert s[..|s| - 1] == NatToString(n / 10);
    }
  }

  /** The longest prefix of s that consists of digits. */
  function DigitPrefix(s: string): (p: string)
    ensures |p| <= |s| && p == s[..|p|] && AllDigits(p)
    ensures |p| < |s| ==> !IsDigit(s[|p|])
    decreases |s|
  {
    if s != [] && IsDigit(s[0]) then [s[0]] + DigitPrefix(s[1..]) else []
  }

  /**
   * JavaScript's parseInt with radix 10 on a string without leading white space: an optional
   * sign followed by the longest run of digits; None stands for NaN (no digit at all).
   */
  function ParseIntPrefix(s: string): (r: Option<int>)
    ensures s == [] || (!IsDigit(s[0]) && s[0] != '-' && s[0] != '+') ==> r.None?
    ensures s != [] && IsDigit(s[0]) ==> r.Some? && r.value >= 0
    ensures r.Some? && r.value < 0 ==> s[0] == '-'
  {
    var neg := |s| > 0 && s[0] == '-';
    var body := if |s| > 0 && (s[0] == '-' || s[0] == '+') then s[1..] else s;
    var digits := DigitPrefix(body);
    if digits == [] then None
    else
      var magnitude: int := DigitsValue(digits);
      Some(if neg then -magnitude else magnitude)
  }

  lemma {:induction false} DigitPrefixOfDigits(s: string)
    requires AllDigits(s)
    ensures DigitPrefix(s) == s
    decreases |s|
  {
    if s != [] {
      DigitPrefixOfDigits(s[1..]);
    }
  }

  lemma ParseIntOfDigits(s: string)
    requires AllDigits(s) && s != []
    ensures ParseIntPrefix(s) == Some(DigitsValue(s))
  {
    DigitPrefixOfDigits(s);
  }

  // ---------------------------------------------------------------- decimal texts

  function Pow10(n: nat): (r: nat)
    ensures r >= 1
  {
    if n == 0 then 1 else 10 * Pow10(n - 1)
  }

  /**
   * A plain decimal text: an optional '-', one or more digits, and optionally a '.' followed by
   * one or more digits. This is how the database hands a NUMERIC value over, and what a number
   * typed into a form looks like; Number() and parseFloat both read such a text whole.
   */
  predicate IsDecimalText(s: string)
  {
    var body := if |s| > 0 && s[0] == '-' then s[1..] else s;
    var whole := DigitPrefix(body);
    |whole| >= 1 && (whole == body || (body[|whole|] == '.' && |body| > |whole| + 1 && AllDigits(body[|whole| + 1..])))
  }

  /** Whole digits and fraction digits: the whole part plus the fraction over its power of ten. */
  function DecimalOf(whole: string, frac: string): (v: real)
    requires AllDigits(whole) && AllDigits(frac)
    ensures v >= 0.0
  {
    DigitsValue(whole) as real + DigitsValue(frac) as real / Pow10(|frac|) as real
  }

  /** The number a decimal text denotes. */
  function DecimalValue(s: string): (v: real)
    requires IsDecimalText(s)
    ensures s[0] != '-' ==> v >= 0.0
    ensures v < 0.0 ==> s[0] == '-'
  {
    var neg := s[0] == '-';
    var body := if neg then s[1..] else s;
    var whole := DigitPrefix(body);
    var frac := if whole == body then "" else body[|whole| + 1..];
    if neg then -DecimalOf(whole, frac) else DecimalOf(whole, frac)
  }

  /** The longest digit prefix ends at the first character that is not a digit. */
  lemma {:induction false} DigitPrefixUpTo(s: string, k: nat)
    requires k <= |s| && AllDigits(s[..k]) && (k == |s| || !IsDigit(s[k]))
    ensures DigitPrefix(s) == s[..k]
    decreases k
  {
    if k > 0 {
      assert s[1..][..k - 1] == s[1..k];
      DigitPrefixUpTo(s[1..], k - 1);
    }
  }

  /** A run of digits is a decimal text whose value is the digits' value. */
  lemma WholeDecimal(w: string)
    requires AllDigits(w) && |w| >= 1
    ensures IsDecimalText(w) && DecimalValue(w) == DigitsValue(w) as real
  {
    DigitPrefixOfDigits(w);
    WholeValue(w);
  }

  lemma WholeValue(w: string)
    requires |w| >= 1 && IsDigit(w[0]) && DigitPrefix(w) == w
    ensures IsDecimalText(w) && DecimalValue(w) == DigitsValue(w) as real
  {
    assert DecimalValue(w) == DecimalOf(w, "");
    assert DigitsValue("") == 0 && Pow10(0) == 1;
  }

  /** Digits, '.', digits: the value of the whole digits with the fraction digits. */
  lemma FractionDecimal(s: string, k: nat)
    requires 1 <= k < |s| - 1 && AllDigits(s[..k]) && s[k] == '.' && AllDigits(s[k + 1..])
    ensures IsDecimalText(s)
    ensures DecimalValue(s) == DecimalOf(s[..k], s[k + 1..])
  {
    assert IsDigit(s[..k][0]);
    DigitPrefixUpTo(s, k);
    assert DigitPrefix(s) != s;
  }

  /** A leading '-' negates the value of an unsigned decimal text. */
  lemma NegatedDecimal(t: string)
    requires IsDecimalText(t) && t[0] != '-'
    ensures IsDecimalText("-" + t) && DecimalValue("-" + t) == -DecimalValue(t)
  {
    assert ("-" + t)[1..] == t;
  }

  /** The decimal text of every natural number is read back as that number. */
  lemma NatDecimalRoundTrip(n: nat)
    ensures IsDecimalText(NatToString(n)) && DecimalValue(NatToString(n)) == n as real
  {
    WholeDecimal(NatToString(n));
    NatToStringRoundTrip(n);
  }

  /** The NUMERIC text "22000.00" is the number 22000. */
  lemma NumericTextExample()
    ensures IsDecimalText("22000.00") && DecimalValue("22000.00") == 22000.0
  {
    ExampleSlices();
    FractionDecimal("22000.00", 5);
    ExampleParts();
  }

  lemma ExampleParts()
    ensures DecimalOf("22000", "00") == 22000.0
  {
    DigitsOf22000();
    assert DigitsValue("00") == 0 by { assert "00"[..1] == "0"; }
    assert Pow10(2) == 100 by { assert Pow10(1) == 10; }
  }

  lemma ExampleSlices()
    ensures "22000.00"[..5] == "22000" && "22000.00"[5] == '.' && "22000.00"[6..] == "00"
  {
  }

  lemma DigitsOf22000()
    ensures DigitsValue("22000") == 22000
  {
    assert "22000"[..4] == "2200" && "2200"[..3] == "220" && "220"[..2] == "22" && "22"[..1] == "2";
  }

  /** String.prototype.padStart(width, c): prepend copies of c until the length reaches width. */
  function PadStart(s: string, width: nat, c: char): (r: string)
    ensures |r| == if |s| < width then width else |s|
    ensures r == Repeat(c, |r| - |s|) + s
  {
    Repeat(c, if |s| < width then width - |s| else 0) + s
  }

  function Repeat(c: char, n: nat): (r: string)
    ensures |r| == n && forall i :: 0 <= i < n ==> r[i] == c
  {
    if n == 0 then [] else [c] + Repeat(c, n - 1)
  }

  lemma {:induction false} LeadingZerosValue(n: nat, s: string)
    requires AllDigits(s)
    ensures AllDigits(Repeat('0', n) + s)
    ensures DigitsValue(Repeat('0', n) + s) == DigitsValue(s)
    decreases |s|
  {
    var z := Repeat('0', n);
    if s == [] {
      assert z + s == z;
      ZerosValue(n);
    } else {
      var init := s[..|s| - 1];
      LeadingZerosValue(n, init);
      assert (z + s)[..|z + s| - 1] == z + init;
    }
  }

  lemma {:induction false} ZerosValue(n: nat)
    ensures DigitsValue(Repeat('0', n)) == 0
    decreases n
  {
    if n > 0 {
      var z := Repeat('0', n);
      assert z[..n - 1] == Repeat('0', n - 1);
      ZerosValue(n - 1);
    }
  }

  /** JavaScript's `a < b` on strings: lexicographic order of the characters. */
  predicate LexLess(a: string, b: string)
    ensures LexLess(a, b) ==> a != b
    ensures |a| < |b| && a == b[..|a|] ==> LexLess(a, b)
    decreases |a|
  {
    if b == [] then false
    else if a == [] then true
    else if a[0] != b[0] then a[0] < b[0]
    else LexLess(a[1..], b[1..])
  }
}
