/** Decimal digit strings, the common ground of the timestamp text and of the
    casts from feed strings to dates and decimals. */
module Numerals {

  predicate IsDigit(c: char) {
    '0' <= c <= '9'
  }

  /** Every character is a decimal digit (read from the back, as
      `ValueOf` reads). */
  predicate AllDigits(s: string) {
    s == [] || (AllDigits(s[..|s| - 1]) && IsDigit(s[|s| - 1]))
  }

  /** A string is all digits exactly when each of two pieces it is cut
      into is. */
  lemma {:induction false} AllDigitsAppend(a: string, b: string)
    ensures AllDigits(a + b) <==> AllDigits(a) && AllDigits(b)
  {
    if b == [] {
      assert a + b == a;
    } else {
      assert (a + b)[..|a + b| - 1] == a + b[..|b| - 1];
      AllDigitsAppend(a, b[..|b| - 1]);
    }
  }

  /** The character-wise reading of `AllDigits`. */
  lemma {:induction false} AllDigitsAt(s: string, k: int)
    requires AllDigits(s) && 0 <= k < |s|
    ensures IsDigit(s[k])
  {
    if k < |s| - 1 {
      AllDigitsAt(s[..|s| - 1], k);
    }
  }

  function DigitValue(c: char): nat
    requires IsDigit(c)
  {
    (c as int - '0' as int) as nat
  }

  function DigitChar(d: nat): (c: char)
    requires d < 10
    ensures IsDigit(c) && DigitValue(c) == d
  {
    (d + '0' as int) as char
  }

  /** The value of a digit string, read most significant digit first; the
      empty string reads as 0. */
  function ValueOf(s: string): nat
    requires AllDigits(s)
  {
    if s == [] then 0 else ValueOf(s[..|s| - 1]) * 10 + DigitValue(s[|s| - 1])
  }

  /** The shortest digit string of a number. */
  function FormatNat(n: nat): (s: string)
    ensures AllDigits(s) && s != []
  {
    if n < 10 then
      assert [DigitChar(n)][..0] == [];
      [DigitChar(n)]
    else
      var s := FormatNat(n / 10) + [DigitChar(n % 10)];
      assert s[..|s| - 1] == FormatNat(n / 10);
      s
  }

  lemma {:induction false} FormatNatRoundTrip(n: nat)
    ensures ValueOf(FormatNat(n)) == n
  {
    var s := FormatNat(n);
    if n >= 10 {
      FormatNatRoundTrip(n / 10);
      assert s[..|s| - 1] == FormatNat(n / 10);
    }
  }

  /** Appending a zero digit multiplies by ten. */
  lemma ValueOfAppendZero(s: string)
    requires AllDigits(s)
    ensures AllDigits(s + "0") && ValueOf(s + "0") == 10 * ValueOf(s)
  {
    assert (s + "0")[..|s|] == s;
  }

  function Pow10(n: nat): (p: nat)
    ensures p >= 1
  {
    if n == 0 then 1 else 10 * Pow10(n - 1)
  }

  /** `n` zero digits. */
  function Zeros(n: nat): (z: string)
    ensures |z| == n && AllDigits(z)
  {
    if n == 0 then "" else
      var z := Zeros(n - 1) + "0";
      assert z[..n - 1] == Zeros(n - 1);
      z
  }

  lemma {:induction false} ZerosCons(n: nat)
    ensures "0" + Zeros(n) == Zeros(n + 1)
  {
    if n > 0 {
      ZerosCons(n - 1);
      assert "0" + Zeros(n) == ("0" + Zeros(n - 1)) + "0";
    }
  }

  /** `v` with `n` decimal places appended: ten times `v`, `n` times over. */
  function Shift(v: nat, n: nat): nat {
    if n == 0 then v else 10 * Shift(v, n - 1)
  }

  /** Appending `n` zero digits shifts the value by `n` places. */
  lemma {:induction false} ValueOfZeros(s: string, n: nat)
    requires AllDigits(s)
    ensures AllDigits(s + Zeros(n)) && ValueOf(s + Zeros(n)) == Shift(ValueOf(s), n)
  {
    if n == 0 {
      assert s + Zeros(n) == s;
    } else {
      ValueOfZeros(s, n - 1);
      ZerosStep(s, n);
      ValueOfAppendZero(s + Zeros(n - 1));
    }
  }

  /** The shift is multiplication by a power of ten. */
  lemma {:induction false} ShiftIsProduct(v: nat, n: nat)
    ensures Shift(v, n) == v * Pow10(n)
  {
    if n > 0 {
      ShiftIsProduct(v, n - 1);
      var b := Pow10(n - 1);
      assert 10 * (v * b) == v * (10 * b);
    }
  }

  lemma ZerosStep(s: string, n: nat)
    requires n > 0
    ensures s + Zeros(n) == (s + Zeros(n - 1)) + "0"
  {
  }

  /** A two-digit string reads positionally. */
  lemma ValueOfTwo(s: string)
    requires |s| == 2 && IsDigit(s[0]) && IsDigit(s[1])
    ensures AllDigits(s) && ValueOf(s) == 10 * DigitValue(s[0]) + DigitValue(s[1])
  {
    var h := s[..1];
    assert h[..0] == [] && h[0] == s[0];
    assert AllDigits(h) && ValueOf(h) == DigitValue(s[0]);
    assert s[..|s| - 1] == h;
  }

  /** A four-digit string reads positionally. */
  lemma ValueOfFour(s: string)
    requires |s| == 4 && IsDigit(s[0]) && IsDigit(s[1]) && IsDigit(s[2]) && IsDigit(s[3])
    ensures AllDigits(s) && ValueOf(s) == 1000 * DigitValue(s[0]) + 100 * DigitValue(s[1]) + 10 * DigitValue(s[2]) + DigitValue(s[3])
  {
    var h := s[..2];
    ValueOfTwo(h);
    var t := s[..3];
    assert t[..2] == h;
    assert s[..3] == t;
  }
}
