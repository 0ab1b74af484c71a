/** The fixed-point value model: the casts that turn feed strings into
    `Date` and `Decimal(12, 6)` cells (euro_converter/calculator/utils.py:8,
    48-54) and Decimal's round-half-to-even of a result to a number of places
    (`round(value, decimals)`, utils.py:27-45). A `Decimal(12, 6)` is held as
    a whole number of millionths; results of conversions are exact reals. */
module FixedPoint {
  import opened Wrappers
  import opened Numerals

  /** `DECIMAL_TYPE = pl.Decimal(12, 6)`: six fractional digits, twelve in all. */
  const SCALE_DIGITS: nat := 6
  const SCALE: nat := 1000000
  const MAX_UNITS: int := 1000000000000

  /** Position of the first `.`, or `|s|` if there is none. */
  function IndexOfDot(s: string): (i: nat)
    ensures i <= |s|
    ensures i < |s| ==> s[i] == '.'
  {
    if s == [] || s[0] == '.' then 0 else 1 + IndexOfDot(s[1..])
  }

  /** It is the first point: none comes before it. */
  lemma {:induction false} IndexOfDotFirst(s: string)
    ensures '.' !in s[..IndexOfDot(s)]
  {
    if s != [] && s[0] != '.' {
      IndexOfDotFirst(s[1..]);
      assert s[..IndexOfDot(s)] == [s[0]] + s[1..][..IndexOfDot(s[1..])];
    }
  }

  /** Text without a point is skipped over. */
  lemma {:induction false} IndexOfDotSkip(t: string, u: string)
    requires '.' !in t
    ensures IndexOfDot(t + u) == |t| + IndexOfDot(u)
  {
    if t == [] {
      assert t + u == u;
    } else {
      assert t[0] in t;
      assert (t + u)[0] == t[0];
      assert (t + u)[1..] == t[1..] + u;
      assert forall c :: c in t[1..] ==> c in t;
      IndexOfDotSkip(t[1..], u);
    }
  }

  /** The digits before and after the first point; a missing point
      means an empty fraction. */
  function Whole(s: string): string {
    s[..IndexOfDot(s)]
  }

  function Fraction(s: string): string {
    var i := IndexOfDot(s);
    if i < |s| then s[i + 1..] else ""
  }

  /** An unsigned decimal `digits[.digits]` with at most six fractional
      digits, in millionths: the fraction is zero-padded to six digits and
      the point dropped. */
  function CastUnsigned(s: string): Option<nat> {
    FromParts(Whole(s), Fraction(s))
  }

  function FromParts(whole: string, frac: string): Option<nat> {
    if whole != [] && AllDigits(whole) && AllDigits(frac) && |frac| <= SCALE_DIGITS then
      AllDigitsAppend(whole, frac);
      AllDigitsAppend(whole + frac, Zeros(SCALE_DIGITS - |frac|));
      Some(ValueOf(whole + frac + Zeros(SCALE_DIGITS - |frac|)))
    else None
  }

  predicate IsNegative(s: string) {
    s != [] && s[0] == '-'
  }

  /** The text after an optional leading minus sign. */
  function Unsigned(s: string): (t: string)
    ensures |t| <= |s|
  {
    if IsNegative(s) then s[1..] else s
  }

  /** The strict cast of a string cell to `Decimal(12, 6)`; `None` is a cast
      failure (not a number, more than six fractional digits, or more than
      twelve digits in all). */
  function CastDecimal(s: string): (r: Option<int>)
    ensures r.Some? ==> -MAX_UNITS < r.value < MAX_UNITS
  {
    Signed(IsNegative(s), CastUnsigned(Unsigned(s)))
  }

  /** Applies the sign and the twelve-digit precision limit. */
  function Signed(negative: bool, u: Option<nat>): (r: Option<int>)
    ensures r.Some? ==> -MAX_UNITS < r.value < MAX_UNITS
  {
    if u.None? || u.value >= MAX_UNITS then None
    else Some(if negative then -(u.value as int) else u.value)
  }

  lemma IndexOfDotNone(t: string)
    requires '.' !in t
    ensures IndexOfDot(t) == |t|
  {
  }

  lemma {:induction false} IndexOfDotPrefix(t: string, u: string)
    requires IndexOfDot(t) < |t|
    ensures IndexOfDot(t + u) == IndexOfDot(t)
  {
    assert (t + u)[0] == t[0];
    if t[0] != '.' {
      assert (t + u)[1..] == t[1..] + u;
      IndexOfDotPrefix(t[1..], u);
    }
  }

  /** The sign handling of the cast: a suffix that the unsigned cast
      ignores is ignored by the signed one too. */
  lemma SuffixKeepsValue(s: string, w: string)
    requires w != [] && w[0] != '-'
    requires CastUnsigned(Unsigned(s) + w) == CastUnsigned(Unsigned(s))
    ensures CastDecimal(s + w) == CastDecimal(s)
  {
    SignOfAppend(s, w);
  }

  /** A suffix leaves the sign alone and extends the unsigned part. */
  lemma SignOfAppend(s: string, w: string)
    requires w != [] && w[0] != '-'
    ensures IsNegative(s + w) == IsNegative(s)
    ensures Unsigned(s + w) == Unsigned(s) + w
  {
    if s != [] {
      assert (s + w)[0] == s[0];
      SliceAppend(s, w, 1);
    }
  }

  /** Appending `".0"` to a number without a point (what the feed parser
      does) leaves its value unchanged. */
  lemma PointZeroKeepsValue(s: string)
    requires '.' !in s
    ensures CastDecimal(s + ".0") == CastDecimal(s)
  {
    var t := Unsigned(s);
    assert '.' !in t by {
      if s != [] && s[0] == '-' {
        assert forall k :: 0 <= k < |t| ==> t[k] == s[k + 1];
      }
    }
    UnsignedPointZero(t);
    SuffixKeepsValue(s, ".0");
  }

  lemma UnsignedPointZero(t: string)
    requires '.' !in t
    ensures CastUnsigned(t + ".0") == CastUnsigned(t)
  {
    WholeFractionNoPoint(t);
    WholeFractionPointZero(t);
    FractionTrailingZero(t, "");
    assert "" + "0" == "0";
  }

  lemma WholeFractionNoPoint(t: string)
    requires '.' !in t
    ensures Whole(t) == t && Fraction(t) == ""
  {
    IndexOfDotNone(t);
    assert t[..|t|] == t;
  }

  lemma WholeFractionPointZero(t: string)
    requires '.' !in t
    ensures Whole(t + ".0") == t && Fraction(t + ".0") == "0"
  {
    var u := t + ".0";
    IndexOfDotSkip(t, ".0");
    assert IndexOfDot(".0") == 0;
    assert u[..|t|] == t;
    SliceAppend(t, ".0", |t|);
    assert t[|t|..] == [];
  }

  /** Zero-padding: a trailing zero in the fraction changes nothing, so
      `"2.0"` and `"2.000000"` are the same value. */
  lemma TrailingZeroKeepsValue(s: string)
    requires IndexOfDot(Unsigned(s)) < |Unsigned(s)|
    requires |Unsigned(s)| - IndexOfDot(Unsigned(s)) - 1 < SCALE_DIGITS
    ensures CastDecimal(s + "0") == CastDecimal(s)
  {
    UnsignedTrailingZero(Unsigned(s));
    SuffixKeepsValue(s, "0");
  }

  lemma UnsignedTrailingZero(t: string)
    requires IndexOfDot(t) < |t| && |t| - IndexOfDot(t) - 1 < SCALE_DIGITS
    ensures CastUnsigned(t + "0") == CastUnsigned(t)
  {
    WholeAppend(t, "0");
    FractionAppend(t, "0");
    FractionTrailingZero(Whole(t), Fraction(t));
  }

  /** Text appended after a point belongs to the fraction. */
  lemma WholeAppend(t: string, u: string)
    requires IndexOfDot(t) < |t|
    ensures Whole(t + u) == Whole(t)
  {
    IndexOfDotPrefix(t, u);
    SlicePrefix(t, u, IndexOfDot(t));
  }

  lemma SlicePrefix(t: string, u: string, j: nat)
    requires j <= |t|
    ensures (t + u)[..j] == t[..j]
  {
  }

  lemma FractionAppend(t: string, u: string)
    requires IndexOfDot(t) < |t|
    ensures Fraction(t + u) == Fraction(t) + u
  {
    var i := IndexOfDot(t);
    IndexOfDotPrefix(t, u);
    SliceAppend(t, u, i + 1);
  }

  lemma SliceAppend(t: string, u: string, j: nat)
    requires j <= |t|
    ensures (t + u)[j..] == t[j..] + u
  {
  }

  lemma FractionTrailingZero(whole: string, frac: string)
    requires |frac| < SCALE_DIGITS
    ensures FromParts(whole, frac + "0") == FromParts(whole, frac)
  {
    var k := SCALE_DIGITS - |frac|;
    var d := whole + frac + Zeros(k);
    assert whole + (frac + "0") + Zeros(k - 1) == d by {
      ZerosCons(k - 1);
      SeqAssoc(whole, frac, "0", Zeros(k - 1));
    }
    AllDigitsAppend(frac, "0");
    assert AllDigits("0") by {
      assert "0"[..0] == "";
    }
  }

  lemma SeqAssoc(a: string, b: string, c: string, d: string)
    ensures a + (b + c) + d == a + b + (c + d)
  {
  }

  lemma CastDecimalExamples()
    ensures CastDecimal("2.0") == Some(2000000)
    ensures CastDecimal("-0.25") == Some(-250000)
    ensures CastDecimal("2.0000001") == None
  {
    CastTwo("2.0");
    CastMinusQuarter("-0.25");
    CastTooPrecise("2.0000001");
  }

  /** A number without a point is that many whole units. */
  lemma CastWhole(t: string)
    requires t != [] && AllDigits(t)
    ensures CastUnsigned(t) == Some(Shift(ValueOf(t), SCALE_DIGITS))
  {
    NoPointInDigits(t);
    WholeFractionNoPoint(t);
    assert t + "" == t;
    ValueOfZeros(t, SCALE_DIGITS);
  }

  lemma CastTwo(s: string)
    requires s == "2.0"
    ensures CastDecimal(s) == Some(2000000)
  {
    var t := "2";
    assert s == t + ".0";
    PointZeroKeepsValue(t);
    assert AllDigits(t) && ValueOf(t) == 2 by {
      assert t[..0] == [];
    }
    CastWhole(t);
  }

  /** A number with a point is its digits, point dropped, shifted by the
      fraction digits it lacks. */
  lemma CastPointed(w: string, f: string)
    requires w != [] && AllDigits(w) && AllDigits(f) && |f| <= SCALE_DIGITS
    ensures AllDigits(w + f)
    ensures CastUnsigned(w + "." + f) == Some(Shift(ValueOf(w + f), SCALE_DIGITS - |f|))
  {
    NoPointInDigits(w);
    PointedParts(w, f);
    FromPartsValue(w, f);
  }

  /** The parts are read as one digit string, padded to six places. */
  lemma FromPartsValue(w: string, f: string)
    requires w != [] && AllDigits(w) && AllDigits(f) && |f| <= SCALE_DIGITS
    ensures AllDigits(w + f)
    ensures FromParts(w, f) == Some(Shift(ValueOf(w + f), SCALE_DIGITS - |f|))
  {
    AllDigitsAppend(w, f);
    ValueOfZeros(w + f, SCALE_DIGITS - |f|);
  }

  lemma NoPointInDigits(w: string)
    requires AllDigits(w)
    ensures '.' !in w
  {
    forall k | 0 <= k < |w| ensures w[k] != '.' {
      AllDigitsAt(w, k);
    }
  }

  /** The point splits the text into whole and fraction. */
  lemma PointedParts(w: string, f: string)
    requires '.' !in w
    ensures Whole(w + "." + f) == w && Fraction(w + "." + f) == f
  {
    var u := w + "." + f;
    assert u == w + ("." + f);
    IndexOfDotSkip(w, "." + f);
    assert IndexOfDot("." + f) == 0;
    assert u[..|w|] == w;
    assert u[|w| + 1..] == f;
  }

  lemma CastMinusQuarter(s: string)
    requires s == "-0.25"
    ensures CastDecimal(s) == Some(-250000)
  {
    var w, f := "0", "25";
    QuarterParts(w, f);
    assert s == "-" + (w + "." + f);
    NegativeCast(w + "." + f);
    CastPointed(w, f);
    assert Shift(25, 4) == 250000;
  }

  /** A leading minus sign negates the unsigned cast. */
  lemma NegativeCast(t: string)
    ensures CastDecimal("-" + t) == Signed(true, CastUnsigned(t))
  {
    assert ("-" + t)[1..] == t;
  }

  lemma QuarterParts(w: string, f: string)
    requires w == "0" && f == "25"
    ensures w != [] && AllDigits(w) && AllDigits(f) && |f| == 2
    ensures AllDigits(w + f) && ValueOf(w + f) == 25
  {
    ValueOfTwo(f);
    var u := w + f;
    assert AllDigits(w) by {
      assert w[..0] == [];
    }
    AllDigitsAppend(w, f);
    ValueOfTwo(u[..2]);
    assert u[..|u| - 1] == u[..2];
  }

  lemma CastTooPrecise(s: string)
    requires s == "2.0000001"
    ensures CastDecimal(s) == None
  {
    assert IndexOfDot(s) == 1 by {
      assert s[1..] == ".0000001";
    }
    assert |Fraction(s)| == 7;
  }

  // ---------------------------------------------------------------------
  // Dates: a `YYYY-MM-DD` cell becomes the key y * 10000 + m * 100 + d,
  // which orders dates as the calendar does.

  predicate IsLeapYear(y: int) {
    y % 4 == 0 && (y % 100 != 0 || y % 400 == 0)
  }

  function DaysInMonth(y: int, m: int): int
    requires 1 <= m <= 12
  {
    if m == 2 then (if IsLeapYear(y) then 29 else 28)
    else if m == 4 || m == 6 || m == 9 || m == 11 then 30
    else 31
  }

  predicate ValidDate(y: int, m: int, d: int) {
    1 <= m <= 12 && 1 <= d <= DaysInMonth(y, m)
  }

  function DateKey(y: int, m: int, d: int): int {
    y * 10000 + m * 100 + d
  }

  /** The key orders valid dates by year, then month, then day. */
  lemma DateKeyOrder(y1: nat, m1: int, d1: int, y2: nat, m2: int, d2: int)
    requires ValidDate(y1, m1, d1) && ValidDate(y2, m2, d2)
    ensures DateKey(y1, m1, d1) < DateKey(y2, m2, d2)
        <==> y1 < y2 || (y1 == y2 && (m1 < m2 || (m1 == m2 && d1 < d2)))
  {
  }

  /** The strict cast of a `YYYY-MM-DD` cell to a date; `None` is a cast
      failure. */
  function CastDate(s: string): (r: Option<int>)
    ensures r.Some? ==> |s| == 10 && s[4] == '-' && s[7] == '-'
  {
    if |s| == 10 && s[4] == '-' && s[7] == '-'
       && AllDigits(s[..4]) && AllDigits(s[5..7]) && AllDigits(s[8..]) then
      var y, m, d := ValueOf(s[..4]), ValueOf(s[5..7]), ValueOf(s[8..]);
      if ValidDate(y, m, d) then Some(DateKey(y, m, d)) else None
    else None
  }

  lemma CastDateExamples()
    ensures CastDate("2023-01-04") == Some(20230104)
    ensures CastDate("2023-02-29") == None
  {
    CastDateOk("2023-01-04");
    CastDateLeap("2023-02-29");
  }

  lemma CastDateOk(s: string)
    requires s == "2023-01-04"
    ensures CastDate(s) == Some(20230104)
  {
    CastDateFields(s);
  }

  lemma CastDateLeap(s: string)
    requires s == "2023-02-29"
    ensures CastDate(s) == None
  {
    CastDateFields(s);
    assert !IsLeapYear(2023);
  }

  /** The year, month and day of a `YYYY-MM-DD` cell are read
      positionally. */
  lemma CastDateFields(s: string)
    requires |s| == 10 && s[4] == '-' && s[7] == '-'
    requires IsDigit(s[0]) && IsDigit(s[1]) && IsDigit(s[2]) && IsDigit(s[3])
    requires IsDigit(s[5]) && IsDigit(s[6]) && IsDigit(s[8]) && IsDigit(s[9])
    ensures var y := 1000 * DigitValue(s[0]) + 100 * DigitValue(s[1]) + 10 * DigitValue(s[2]) + DigitValue(s[3]);
            var m := 10 * DigitValue(s[5]) + DigitValue(s[6]);
            var d := 10 * DigitValue(s[8]) + DigitValue(s[9]);
            CastDate(s) == if ValidDate(y, m, d) then Some(DateKey(y, m, d)) else None
  {
    ValueOfFour(s[..4]);
    ValueOfTwo(s[5..7]);
    ValueOfTwo(s[8..]);
  }

  // ---------------------------------------------------------------------
  // Rounding to `decimals` places, ties to even.

  /** The size of one unit in the last kept place, inverted: 10^decimals. */
  function Scale(decimals: int): (s: real)
    ensures s > 0.0
  {
    if decimals >= 0 then Pow10(decimals) as real else 1.0 / (Pow10(-decimals) as real)
  }

  /** The number of 10^-decimals units nearest to `x`, a tie going to the
      even one. */
  function RoundUnits(x: real, decimals: int): (k: int)
    ensures -0.5 <= k as real - x * Scale(decimals) <= 0.5
    ensures k as real - x * Scale(decimals) == 0.5 || k as real - x * Scale(decimals) == -0.5 ==> k % 2 == 0
  {
    var y := x * Scale(decimals);
    var f := y.Floor;
    var frac := y - f as real;
    if frac < 0.5 then f
    else if frac > 0.5 then f + 1
    else if f % 2 == 0 then f
    else f + 1
  }

  /** `round(x, decimals)` of a Decimal. */
  function RoundHalfEven(x: real, decimals: int): real {
    RoundUnits(x, decimals) as real / Scale(decimals)
  }

  /** The nearest-with-ties-to-even unit count is unique: any count with
      those two properties is the one `RoundUnits` picks. */
  lemma RoundUnitsUnique(x: real, decimals: int, k: int)
    requires -0.5 <= k as real - x * Scale(decimals) <= 0.5
    requires k as real - x * Scale(decimals) == 0.5 || k as real - x * Scale(decimals) == -0.5 ==> k % 2 == 0
    ensures k == RoundUnits(x, decimals)
  {
    var r := RoundUnits(x, decimals);
    assert -1.0 <= (k - r) as real <= 1.0;
  }

  /** A value already on the grid of `decimals` places is left as it is,
      so rounding twice is rounding once. */
  lemma RoundIdempotent(x: real, decimals: int)
    ensures RoundHalfEven(RoundHalfEven(x, decimals), decimals) == RoundHalfEven(x, decimals)
  {
    var k := RoundUnits(x, decimals);
    var s := Scale(decimals);
    assert (k as real / s) * s == k as real;
    RoundUnitsUnique(k as real / s, decimals, k);
  }

  /** The results the conversion tests expect: 1 / 0.500001 is 1.999996 at six
      places and 2.00000 at five; 1 / 6.000001 is 0.16667 at five; 1 / 3 is
      0.333 at three. */
  lemma RoundExamples()
    ensures RoundHalfEven(1000000.0 / 500001.0, 6) == 1999996.0 / 1000000.0
    ensures RoundHalfEven(1000000.0 / 500001.0, 5) == 2.0
    ensures RoundHalfEven(1000000.0 / 6000001.0, 5) == 16667.0 / 100000.0
    ensures RoundHalfEven(1000000.0 / 3000000.0, 3) == 0.333
    ensures RoundHalfEven(2.5, 0) == 2.0 && RoundHalfEven(3.5, 0) == 4.0
  {
    assert Scale(6) == 1000000.0;
    assert Scale(5) == 100000.0;
    assert Scale(3) == 1000.0;
    assert Scale(0) == 1.0;
    RoundUnitsUnique(1000000.0 / 500001.0, 6, 1999996);
    RoundUnitsUnique(1000000.0 / 500001.0, 5, 200000);
    RoundUnitsUnique(1000000.0 / 6000001.0, 5, 16667);
    RoundUnitsUnique(1000000.0 / 3000000.0, 3, 333);
    RoundUnitsUnique(2.5, 0, 2);
    RoundUnitsUnique(3.5, 0, 4);
  }
}
