/**
 * Numbers as the modelled code writes and reads them: `str(n)` and `int(s)`
 * for counts, `float(s)` for logged scores, Python's `round(x, places)` on
 * exact reals, `str` of a rounded value, and the `:.2f` format.
 */
module Numerals {
  import opened Base
  import opened Strings

  predicate AllDigits(s: string) { forall i :: 0 <= i < |s| ==> IsDigit(s[i]) }

  function DigitChar(d: nat): (c: char)
    requires d < 10
    ensures IsDigit(c)
  {
    ('0' as int + d) as char
  }

  function DigitValue(c: char): (d: nat)
    requires IsDigit(c)
    ensures d < 10
  {
    c as int - '0' as int
  }

  function Pow10(k: nat): (p: nat)
    ensures p >= 1
  {
    if k == 0 then 1 else 10 * Pow10(k - 1)
  }

  // ---------------------------------------------------------------- integers

  /** `str(n)` for a non-negative integer: its decimal digits without leading zeros. */
  function NatToString(n: nat): (s: string)
    ensures |s| >= 1 && AllDigits(s)
    ensures |s| > 1 ==> s[0] != '0'
  {
    if n < 10 then [DigitChar(n)] else NatToString(n / 10) + [DigitChar(n % 10)]
  }

  /** The value of a string of decimal digits; leading zeros are allowed. */
  function DigitsValue(s: string): nat
    requires AllDigits(s)
  {
    if |s| == 0 then 0 else 10 * DigitsValue(s[..|s| - 1]) + DigitValue(s[|s| - 1])
  }

  /** `int(s)` on a string the pattern `\d+` captured: defined exactly for non-empty digit strings. */
  function ParseNat(s: string): (r: Option<nat>)
    ensures r.Some? <==> |s| > 0 && AllDigits(s)
  {
    if |s| > 0 && AllDigits(s) then Some(DigitsValue(s)) else None
  }

  /** `int(str(n)) == n`. */
  lemma {:induction false} NatToStringRoundTrip(n: nat)
    ensures ParseNat(NatToString(n)) == Some(n)
  {
    var s := NatToString(n);
    if n >= 10 {
      NatToStringRoundTrip(n / 10);
      assert s[..|s| - 1] == NatToString(n / 10);
      assert s[|s| - 1] == DigitChar(n % 10);
      assert DigitsValue(s) == 10 * (n / 10) + n % 10;
    } else {
      assert DigitsValue(s) == 10 * DigitsValue(s[..0]) + DigitValue(s[0]);
    }
  }

  lemma {:induction false} DigitsValueAppend(a: string, b: string)
    requires AllDigits(a) && AllDigits(b)
    ensures AllDigits(a + b)
    ensures DigitsValue(a + b) == DigitsValue(a) * Pow10(|b|) + DigitsValue(b)
    decreases |b|
  {
    if |b| == 0 {
      assert a + b == a;
    } else {
      var b' := b[..|b| - 1];
      var ab := a + b;
      assert ab[..|ab| - 1] == a + b';
      assert ab[|ab| - 1] == b[|b| - 1];
      DigitsValueAppend(a, b');
      var x, y, p, d := DigitsValue(a), DigitsValue(b'), Pow10(|b'|), DigitValue(b[|b| - 1]);
      assert DigitsValue(ab) == 10 * (x * p + y) + d;
      assert DigitsValue(b) == 10 * y + d;
      assert Pow10(|b|) == 10 * p;
      ScaleSum(x, p, y);
    }
  }

  lemma ScaleSum(x: nat, p: nat, y: nat)
    ensures 10 * (x * p + y) == x * (10 * p) + 10 * y
  {
  }

  // ---------------------------------------------------------------- decimal literals

  function DotCount(s: string): nat
  {
    if |s| == 0 then 0 else (if s[0] == '.' then 1 else 0) + DotCount(s[1..])
  }

  function DigitCount(s: string): nat
  {
    if |s| == 0 then 0 else (if IsDigit(s[0]) then 1 else 0) + DigitCount(s[1..])
  }

  /** The decimal literals `float()` accepts among strings of digits and points: one point at most, one digit at least. */
  predicate IsUnsignedDecimal(s: string)
  {
    && (forall i :: 0 <= i < |s| ==> IsDigit(s[i]) || s[i] == '.')
    && DotCount(s) <= 1
    && DigitCount(s) >= 1
  }

  /** The same literals with an optional leading sign. */
  predicate IsDecimal(s: string)
  {
    if |s| > 0 && (s[0] == '-' || s[0] == '+') then IsUnsignedDecimal(s[1..]) else IsUnsignedDecimal(s)
  }

  /** `float(s)` without a sign: digits with at most one decimal point. */
  function ParseUnsigned(s: string): Option<real>
  {
    match IndexFrom(s, ".", 0)
    case None =>
      if |s| > 0 && AllDigits(s) then Some(DigitsValue(s) as real) else None
    case Some(i) =>
      var whole := s[..i];
      var frac := s[i + 1..];
      if AllDigits(whole) && AllDigits(frac) && |whole| + |frac| > 0 then
        Some(PointValue(whole, frac))
      else None
  }

  /** The value of the literal `whole.frac`. */
  function PointValue(whole: string, frac: string): real
    requires AllDigits(whole) && AllDigits(frac)
  {
    DigitsValue(whole) as real + FractionValue(frac)
  }

  /** The value of digits written after a decimal point. */
  function FractionValue(frac: string): real
    requires AllDigits(frac)
  {
    DigitsValue(frac) as real / Pow10(|frac|) as real
  }

  /** The number `n / 10^places`, which a value counted in units of `10^-places` stands for. */
  function Scaled(n: int, places: nat): real
  {
    n as real / Pow10(places) as real
  }

  /**
   * Python's `float(s)` on strings made of an optional sign, digits and
   * decimal points (the only characters the logged-score patterns capture
   * besides 'N' and 'A'): `None` exactly where `float` raises ValueError.
   */
  function ParseFloat(s: string): (r: Option<real>)
    ensures r.Some? <==> IsDecimal(s)
  {
    ParseUnsignedIff(s);
    if |s| > 0 && (s[0] == '-' || s[0] == '+') then
      ParseUnsignedIff(s[1..]);
      match ParseUnsigned(s[1..])
      case None => None
      case Some(v) => Some(if s[0] == '-' then -v else v)
    else ParseUnsigned(s)
  }

  lemma {:induction false} DotCountAppend(a: string, b: string)
    ensures DotCount(a + b) == DotCount(a) + DotCount(b)
    ensures DigitCount(a + b) == DigitCount(a) + DigitCount(b)
  {
    if |a| == 0 {
      assert a + b == b;
    } else {
      assert (a + b)[1..] == a[1..] + b;
      DotCountAppend(a[1..], b);
    }
  }

  lemma {:induction false} DigitsCounts(s: string)
    requires AllDigits(s)
    ensures DotCount(s) == 0 && DigitCount(s) == |s|
  {
    if |s| > 0 {
      DigitsCounts(s[1..]);
    }
  }

  lemma {:induction false} NoDigitsCount(s: string)
    requires DigitCount(s) == 0
    ensures forall i :: 0 <= i < |s| ==> !IsDigit(s[i])
  {
    if |s| > 0 {
      NoDigitsCount(s[1..]);
      assert forall i :: 1 <= i < |s| ==> s[i] == s[1..][i - 1];
    }
  }

  lemma {:induction false} DotFree(s: string)
    requires DotCount(s) == 0
    ensures forall i :: 0 <= i < |s| ==> s[i] != '.'
  {
    if |s| > 0 {
      DotFree(s[1..]);
      assert forall i :: 1 <= i < |s| ==> s[i] == s[1..][i - 1];
    }
  }

  lemma ParseUnsignedIff(s: string)
    ensures ParseUnsigned(s).Some? <==> IsUnsignedDecimal(s)
  {
    match IndexFrom(s, ".", 0)
    case None => ParseUnsignedIffNoPoint(s);
    case Some(i) =>
      PointSplit(s, i);
      if IsUnsignedDecimal(s) {
        PointedDecimalParts(s, i);
      }
      if AllDigits(s[..i]) && AllDigits(s[i + 1..]) && i + |s[i + 1..]| > 0 {
        PointedPartsDecimal(s, i);
      }
  }

  lemma ParseUnsignedIffNoPoint(s: string)
    requires IndexFrom(s, ".", 0).None?
    ensures ParseUnsigned(s).Some? <==> IsUnsignedDecimal(s)
  {
    forall i | 0 <= i < |s|
      ensures s[i] != '.'
    {
      assert !OccursAt(s, ".", i);
      assert s[i..i + 1] == [s[i]];
    }
    if IsUnsignedDecimal(s) {
      NoDotsDigits(s);
    }
    if |s| > 0 && AllDigits(s) {
      DigitsCounts(s);
    }
  }

  /** Around its first point, `s` is a dot-free whole part, the point and the rest. */
  lemma PointSplit(s: string, i: nat)
    requires IndexFrom(s, ".", 0) == Some(i)
    ensures i < |s| && s == s[..i] + "." + s[i + 1..]
    ensures forall j :: 0 <= j < i ==> s[..i][j] != '.'
    ensures DotCount(s) == DotCount(s[..i]) + 1 + DotCount(s[i + 1..])
    ensures DigitCount(s) == DigitCount(s[..i]) + DigitCount(s[i + 1..])
  {
    PointAt(s, i);
    CutAround(s, i);
    PointCounts(s[..i], s[i + 1..]);
    BeforeFirstPoint(s, i);
  }

  lemma PointAt(s: string, i: nat)
    requires OccursAt(s, ".", i)
    ensures i < |s| && s[i] == '.'
  {
    assert s[i..i + 1][0] == s[i];
  }

  lemma CutAround(s: string, i: nat)
    requires i < |s| && s[i] == '.'
    ensures s == s[..i] + "." + s[i + 1..]
  {
  }

  lemma PointCounts(whole: string, frac: string)
    ensures DotCount(whole + "." + frac) == DotCount(whole) + 1 + DotCount(frac)
    ensures DigitCount(whole + "." + frac) == DigitCount(whole) + DigitCount(frac)
  {
    DotCountAppend(whole + ".", frac);
    DotCountAppend(whole, ".");
  }

  lemma BeforeFirstPoint(s: string, i: nat)
    requires IndexFrom(s, ".", 0) == Some(i)
    ensures forall j :: 0 <= j < i ==> s[..i][j] != '.'
  {
    forall j | 0 <= j < i
      ensures s[..i][j] != '.'
    {
      assert !OccursAt(s, ".", j);
      assert s[j..j + 1] == [s[j]];
    }
  }

  lemma PointedDecimalParts(s: string, i: nat)
    requires IndexFrom(s, ".", 0) == Some(i) && IsUnsignedDecimal(s)
    ensures i < |s| && AllDigits(s[..i]) && AllDigits(s[i + 1..]) && i + |s[i + 1..]| > 0
  {
    PointSplit(s, i);
    var whole, frac := s[..i], s[i + 1..];
    assert forall j :: 0 <= j < |whole| ==> whole[j] == s[j];
    assert forall j :: 0 <= j < |frac| ==> frac[j] == s[i + 1 + j];
    NoDotsDigits(whole);
    DotFree(frac);
    NoDotsDigits(frac);
  }

  lemma PointedPartsDecimal(s: string, i: nat)
    requires IndexFrom(s, ".", 0) == Some(i) && i < |s|
    requires AllDigits(s[..i]) && AllDigits(s[i + 1..]) && i + |s[i + 1..]| > 0
    ensures IsUnsignedDecimal(s)
  {
    PointSplit(s, i);
    var whole, frac := s[..i], s[i + 1..];
    DigitsCounts(whole);
    DigitsCounts(frac);
    forall j | 0 <= j < |s|
      ensures IsDigit(s[j]) || s[j] == '.'
    {
      if j < i {
        assert s[j] == whole[j];
      } else if j > i {
        assert s[j] == frac[j - i - 1];
      }
    }
  }

  lemma NoDotsDigits(s: string)
    requires forall i :: 0 <= i < |s| ==> IsDigit(s[i]) || s[i] == '.'
    requires forall i :: 0 <= i < |s| ==> s[i] != '.'
    ensures AllDigits(s)
  {
  }

  // ---------------------------------------------------------------- rounding

  /** The integer nearest to `x`, ties to the even neighbour (Python's rounding rule). */
  function RoundHalfEven(x: real): (n: int)
    ensures -0.5 <= n as real - x <= 0.5
  {
    var f := x.Floor;
    var d := x - f as real;
    if d < 0.5 then f
    else if d > 0.5 then f + 1
    else if f % 2 == 0 then f else f + 1
  }

  lemma RoundHalfEvenOfInt(n: int)
    ensures RoundHalfEven(n as real) == n
  {
  }

  lemma RoundHalfEvenMonotone(x: real, y: real)
    requires x <= y
    ensures RoundHalfEven(x) <= RoundHalfEven(y)
  {
    var fx, fy := x.Floor, y.Floor;
    assert fx <= fy;
  }

  /** `round(x, 2)` counted in hundredths: the result `n` stands for `n / 100`. */
  function Hundredths(x: real): int
  {
    RoundHalfEven(x * 100.0)
  }

  /** `round(x, 3)` counted in thousandths: the result `n` stands for `n / 1000`. */
  function Thousandths(x: real): int
  {
    RoundHalfEven(x * 1000.0)
  }

  /** Python's `round(x, 2)` on an exact real: within half a hundredth of `x`. */
  function Round2(x: real): (r: real)
    ensures -0.005 <= r - x <= 0.005
  {
    Hundredths(x) as real / 100.0
  }

  /** Python's `round(x, 3)` on an exact real: within half a thousandth of `x`. */
  function Round3(x: real): (r: real)
    ensures -0.0005 <= r - x <= 0.0005
  {
    Thousandths(x) as real / 1000.0
  }

  /** Rounding never reverses the order of two values. */
  lemma Round2Monotone(x: real, y: real)
    requires x <= y
    ensures Round2(x) <= Round2(y)
  {
    RoundHalfEvenMonotone(x * 100.0, y * 100.0);
  }

  /** A value that is already a whole number of hundredths is unchanged by rounding. */
  lemma Round2Exact(n: int)
    ensures Hundredths(n as real / 100.0) == n
    ensures Round2(n as real / 100.0) == n as real / 100.0
  {
    assert n as real / 100.0 * 100.0 == n as real;
    RoundHalfEvenOfInt(n);
  }

  /** Rounding a value already rounded to two places changes nothing. */
  lemma Round2Idempotent(x: real)
    ensures Round2(Round2(x)) == Round2(x)
    ensures Hundredths(Round2(x)) == Hundredths(x)
  {
    Round2Exact(Hundredths(x));
  }

  // ---------------------------------------------------------------- rendering

  /** `s` padded on the left with '0' to at least `width` characters. */
  function PadZeros(s: string, width: nat): (r: string)
    ensures |r| == if |s| < width then width else |s|
    ensures AllDigits(s) ==> AllDigits(r) && DigitsValue(r) == DigitsValue(s)
    decreases width - |s|
  {
    if |s| >= width then s
    else
      var r := PadZeros("0" + s, width);
      assert AllDigits(s) ==> AllDigits("0" + s) && DigitsValue("0" + s) == DigitsValue(s) by {
        if AllDigits(s) {
          DigitsValueAppend("0", s);
          assert DigitsValue("0") == 0;
        }
      }
      r
  }

  /** Drops trailing '0' characters. */
  function TrimZeros(s: string): (r: string)
    ensures r <= s
    ensures r == "" || r[|r| - 1] != '0'
  {
    if |s| > 0 && s[|s| - 1] == '0' then TrimZeros(s[..|s| - 1]) else s
  }

  /**
   * Python's `str` of the float `n / 10^places` for a value that has at most
   * `places` decimals: the integer part, a point, and the fraction digits
   * with trailing zeros removed but at least one digit ("2.0", "119.19").
   */
  function ShowScaled(n: int, places: nat): (r: string)
    ensures |r| >= 3
    ensures (n < 0) == (r[0] == '-')
  {
    var m: nat := if n < 0 then -n else n;
    (if n < 0 then "-" else "") + ShowUnsigned(m, places)
  }

  /** The unsigned part of `ShowScaled`: whole digits, a point, and at least one fraction digit. */
  function ShowUnsigned(m: nat, places: nat): (r: string)
    ensures |r| >= 3 && IsDigit(r[0])
  {
    var digits := PadZeros(NatToString(m), places + 1);
    digits[..|digits| - places] + "." + ShowFraction(digits[|digits| - places..])
  }

  /** Fraction digits with trailing zeros dropped, or "0" when none remain. */
  function ShowFraction(tail: string): (r: string)
    ensures |r| >= 1
  {
    var t := TrimZeros(tail);
    if t == "" then "0" else t
  }

  /** `str(round(x, 2))`. */
  function ShowRound2(x: real): string
  {
    ShowScaled(Hundredths(x), 2)
  }

  /** `str(round(x, 3))`. */
  function ShowRound3(x: real): string
  {
    ShowScaled(Thousandths(x), 3)
  }

  lemma NatToStringShort(n: nat)
    requires n < 100
    ensures |NatToString(n)| <= 2
  {
  }

  /** `format(x, '.2f')`: the value rounded to two places and printed with exactly two decimals. */
  function Fixed2(x: real): (s: string)
    ensures |s| >= 4 && s[|s| - 3] == '.'
  {
    var n := Hundredths(x);
    var m: nat := if n < 0 then -n else n;
    NatToStringShort(m % 100);
    (if n < 0 then "-" else "") + NatToString(m / 100) + "." + PadZeros(NatToString(m % 100), 2)
  }

  /** The text of `n` hundredths with exactly two decimals. */
  function FixedCents(n: int): (s: string)
    ensures |s| >= 4 && s[|s| - 3] == '.'
  {
    var m: nat := if n < 0 then -n else n;
    var u := FixedUnsigned(m);
    if n < 0 then "-" + u else u
  }

  /**
   * A '.2f' text ends in two digits, `float` reads it back as the value
   * rounded to two places, and a minus sign shows exactly when that is negative.
   */
  lemma Fixed2ReadBack(x: real)
    ensures var s := Fixed2(x); IsDigit(s[|s| - 2]) && IsDigit(s[|s| - 1])
    ensures ParseFloat(Fixed2(x)) == Some(Scaled(Hundredths(x), 2))
    ensures (Fixed2(x)[0] == '-') <==> Hundredths(x) < 0
  {
    Fixed2IsFixedCents(x);
    FixedCentsReadBack(Hundredths(x));
  }

  lemma Fixed2IsFixedCents(x: real)
    ensures Fixed2(x) == FixedCents(Hundredths(x))
  {
    var n := Hundredths(x);
    var m: nat := if n < 0 then -n else n;
    var a, b := NatToString(m / 100), PadZeros(NatToString(m % 100), 2);
    assert FixedUnsigned(m) == a + "." + b;
    if n < 0 {
      assert Fixed2(x) == "-" + a + "." + b;
      assert "-" + a + "." + b == "-" + (a + "." + b);
    } else {
      assert Fixed2(x) == "" + a + "." + b;
      assert "" + a + "." + b == a + "." + b;
    }
  }

  lemma FixedCentsReadBack(n: int)
    ensures var s := FixedCents(n); IsDigit(s[|s| - 2]) && IsDigit(s[|s| - 1])
    ensures ParseFloat(FixedCents(n)) == Some(Scaled(n, 2))
    ensures (FixedCents(n)[0] == '-') <==> n < 0
  {
    if n < 0 {
      NegativeCentsReadBack(n);
    } else {
      var u := FixedUnsigned(n);
      FixedUnsignedValue(n);
      assert FixedCents(n) == u;
      ParseUnsignedFloat(u, Scaled(n, 2));
    }
  }

  lemma NegativeCentsReadBack(n: int)
    requires n < 0
    ensures FixedCents(n) == "-" + FixedUnsigned(-n)
    ensures ParseFloat(FixedCents(n)) == Some(Scaled(n, 2))
  {
    var m: nat := -n;
    var u := FixedUnsigned(m);
    var v := Scaled(m, 2);
    FixedUnsignedValue(m);
    ParseSigned(u, v);
    NegateScaled(m, 2);
    assert -(m as int) == n;
    assert -v == Scaled(n, 2);
    assert FixedCents(n) == "-" + u;
    assert ParseFloat("-" + u) == Some(-v);
  }

  /** `float` of a minus sign followed by an unsigned number is that number negated. */
  lemma ParseSigned(u: string, v: real)
    requires |u| > 0 && IsDigit(u[0]) && ParseUnsigned(u) == Some(v)
    ensures ParseFloat("-" + u) == Some(-v)
  {
    assert ("-" + u)[1..] == u;
  }

  /** `float` of a text starting with a digit is its unsigned reading. */
  lemma ParseUnsignedFloat(u: string, v: real)
    requires |u| > 0 && IsDigit(u[0]) && ParseUnsigned(u) == Some(v)
    ensures ParseFloat(u) == Some(v)
  {
  }

  /** The digits of `m / 100`, a point, and the two digits of `m % 100`. */
  function FixedUnsigned(m: nat): (u: string)
    ensures |u| >= 4 && IsDigit(u[0]) && u[|u| - 3] == '.' && IsDigit(u[|u| - 2]) && IsDigit(u[|u| - 1])
  {
    NatToStringShort(m % 100);
    NatToString(m / 100) + "." + PadZeros(NatToString(m % 100), 2)
  }

  lemma FixedUnsignedValue(m: nat)
    ensures ParseUnsigned(FixedUnsigned(m)) == Some(Scaled(m, 2))
  {
    var whole := NatToString(m / 100);
    var cents := PadZeros(NatToString(m % 100), 2);
    FixedParts(m, whole, cents);
    ParseUnsignedPoint(whole, cents);
  }

  lemma FixedParts(m: nat, whole: string, cents: string)
    requires whole == NatToString(m / 100) && cents == PadZeros(NatToString(m % 100), 2)
    ensures |cents| == 2 && AllDigits(whole) && AllDigits(cents)
    ensures PointValue(whole, cents) == Scaled(m, 2)
  {
    var q, r := m / 100, m % 100;
    NatToStringShort(r);
    NatToStringRoundTrip(q);
    NatToStringRoundTrip(r);
    assert DigitsValue(whole) == q;
    assert DigitsValue(cents) == r;
    assert Pow10(2) == 100 by {
      assert Pow10(1) == 10;
    }
    assert m == q * Pow10(2) + r;
    ScaledSplit(q, r, 2);
  }

  // ---------------------------------------------------------------- reading back what was written

  lemma {:induction false} Pow10Add(a: nat, b: nat)
    ensures Pow10(a + b) == Pow10(a) * Pow10(b)
    decreases a
  {
    if a > 0 {
      Pow10Add(a - 1, b);
      assert Pow10(a + b) == 10 * Pow10(a - 1 + b);
    }
  }

  /** Dropping trailing zeros divides the value by a power of ten. */
  lemma {:induction false} TrimZerosValue(s: string)
    requires AllDigits(s)
    ensures AllDigits(TrimZeros(s))
    ensures |TrimZeros(s)| <= |s|
    ensures DigitsValue(s) == DigitsValue(TrimZeros(s)) * Pow10(|s| - |TrimZeros(s)|)
  {
    if |s| > 0 && s[|s| - 1] == '0' {
      var init := s[..|s| - 1];
      TrimZerosValue(init);
      var t := TrimZeros(init);
      var k := |init| - |t|;
      assert TrimZeros(s) == t;
      assert DigitsValue(s) == 10 * DigitsValue(init) + DigitValue(s[|s| - 1]);
      assert DigitValue(s[|s| - 1]) == 0;
      assert |s| - |t| == k + 1;
      assert Pow10(k + 1) == 10 * Pow10(k);
      MulAssoc(10, DigitsValue(t), Pow10(k));
    }
  }

  lemma MulAssoc(a: nat, b: nat, c: nat)
    ensures a * (b * c) == b * (a * c)
  {
  }

  lemma DivideSplit(a: real, b: real, p: real)
    requires p > 0.0
    ensures (a * p + b) / p == a + b / p
  {
  }

  lemma ScaleFraction(t: real, q: real, p: real)
    requires p > 0.0 && q > 0.0
    ensures (t * q) / (p * q) == t / p
  {
  }

  /** The first decimal point of `w + "." + f` is the one after `w` when `w` is all digits. */
  lemma PointAfterDigits(w: string, f: string)
    requires AllDigits(w)
    ensures IndexFrom(w + "." + f, ".", 0) == Some(|w|)
  {
    var u := w + "." + f;
    assert u[|w|..|w| + 1] == ".";
    assert OccursAt(u, ".", |w|);
    forall j | 0 <= j < |w|
      ensures !OccursAt(u, ".", j)
    {
      assert u[j..j + 1][0] == u[j] == w[j];
    }
  }

  lemma ParseUnsignedPoint(w: string, f: string)
    requires |w| > 0 && AllDigits(w) && AllDigits(f)
    ensures ParseUnsigned(w + "." + f) == Some(PointValue(w, f))
  {
    var u := w + "." + f;
    PointAfterDigits(w, f);
    assert u[..|w|] == w;
    assert u[|w| + 1..] == f;
  }

  /** The shortened fraction digits stand for the same fraction as the full ones. */
  lemma ShowFractionValue(tail: string)
    requires AllDigits(tail)
    ensures AllDigits(ShowFraction(tail))
    ensures FractionValue(ShowFraction(tail)) == FractionValue(tail)
  {
    var t := TrimZeros(tail);
    TrimZerosValue(tail);
    if t == "" {
      ZeroFraction(tail);
    } else {
      var k := |tail| - |t|;
      Pow10Add(|t|, k);
      TrailingZerosFraction(DigitsValue(t), Pow10(k), Pow10(|t|));
    }
  }

  lemma ZeroFraction(tail: string)
    requires AllDigits(tail) && DigitsValue(tail) == 0
    ensures FractionValue("0") == FractionValue(tail) == 0.0
  {
    assert DigitsValue("0") == 10 * DigitsValue("") + 0;
  }

  lemma TrailingZerosFraction(t: nat, q: nat, p: nat)
    requires p > 0 && q > 0
    ensures (t * q) as real / (p * q) as real == t as real / p as real
  {
    ScaleFraction(t as real, q as real, p as real);
  }

  lemma ShowUnsignedRoundTrip(m: nat, places: nat)
    ensures ParseUnsigned(ShowUnsigned(m, places)) == Some(Scaled(m, places))
  {
    var whole, tail := ShowUnsignedParts(m, places);
    var frac := ShowFraction(tail);
    ShowFractionValue(tail);
    ParseUnsignedPoint(whole, frac);
    assert PointValue(whole, frac) == DigitsValue(whole) as real + FractionValue(tail);
  }

  /** The written value is its whole digits, a point and the shortened fraction digits of `m / 10^places`. */
  lemma ShowUnsignedParts(m: nat, places: nat) returns (whole: string, tail: string)
    ensures ShowUnsigned(m, places) == whole + "." + ShowFraction(tail)
    ensures |whole| > 0 && AllDigits(whole) && AllDigits(tail)
    ensures Scaled(m, places) == DigitsValue(whole) as real + FractionValue(tail)
  {
    var digits := PadZeros(NatToString(m), places + 1);
    PaddedDigits(m, places);
    var cut := |digits| - places;
    whole := digits[..cut];
    tail := digits[cut..];
    assert AllDigits(whole) && AllDigits(tail) by {
      AllDigitsParts(digits, cut);
    }
    assert Scaled(m, places) == DigitsValue(whole) as real + FractionValue(tail) by {
      SplitDigitsValue(digits, places);
    }
  }

  /** The digits of `m`, padded to more than `places` characters, still stand for `m`. */
  lemma PaddedDigits(m: nat, places: nat)
    ensures var digits := PadZeros(NatToString(m), places + 1);
      |digits| >= places + 1 && AllDigits(digits) && DigitsValue(digits) == m
  {
    NatToStringRoundTrip(m);
  }

  /** Cutting a digit string before its last `places` digits splits its value over `10^places` into its parts. */
  lemma SplitDigitsValue(digits: string, places: nat)
    requires AllDigits(digits) && |digits| >= places
    ensures AllDigits(digits[..|digits| - places]) && AllDigits(digits[|digits| - places..])
    ensures Scaled(DigitsValue(digits), places)
         == DigitsValue(digits[..|digits| - places]) as real + FractionValue(digits[|digits| - places..])
  {
    var cut := |digits| - places;
    AllDigitsParts(digits, cut);
    assert digits == digits[..cut] + digits[cut..];
    JoinedDigitsScaled(digits[..cut], digits[cut..], places);
  }

  lemma JoinedDigitsScaled(whole: string, tail: string, places: nat)
    requires AllDigits(whole) && AllDigits(tail) && |tail| == places
    ensures AllDigits(whole + tail)
    ensures Scaled(DigitsValue(whole + tail), places) == DigitsValue(whole) as real + FractionValue(tail)
  {
    DigitsValueAppend(whole, tail);
    ScaledSplit(DigitsValue(whole), DigitsValue(tail), places);
  }

  lemma AllDigitsParts(s: string, k: nat)
    requires AllDigits(s) && k <= |s|
    ensures AllDigits(s[..k]) && AllDigits(s[k..])
  {
    assert forall i :: 0 <= i < |s| - k ==> s[k..][i] == s[k + i];
  }

  lemma ScaledSplit(a: nat, b: nat, places: nat)
    ensures Scaled(a * Pow10(places) + b, places) == a as real + b as real / Pow10(places) as real
  {
    var p := Pow10(places);
    assert (a * p + b) as real == a as real * p as real + b as real;
    DivideSplit(a as real, b as real, p as real);
  }

  /** Reading back a written score: `float(str(v)) == v` for every value with at most `places` decimals. */
  lemma ShowScaledRoundTrip(n: int, places: nat)
    ensures ParseFloat(ShowScaled(n, places)) == Some(Scaled(n, places))
  {
    var m: nat := if n < 0 then -n else n;
    var u := ShowUnsigned(m, places);
    ShowUnsignedRoundTrip(m, places);
    var r := ShowScaled(n, places);
    if n < 0 {
      assert r[1..] == u;
      NegateScaled(m, places);
    } else {
      assert r == u;
    }
  }

  /** A rendered score is digits and one point, with a '-' only in front. */
  lemma ShowScaledChars(n: int, places: nat)
    ensures var r := ShowScaled(n, places);
      forall i :: 0 <= i < |r| ==> IsDigit(r[i]) || r[i] == '.' || (i == 0 && r[i] == '-')
  {
    var r := ShowScaled(n, places);
    ShowScaledRoundTrip(n, places);
    assert IsDecimal(r);
    if n < 0 {
      assert IsUnsignedDecimal(r[1..]);
      assert forall i :: 1 <= i < |r| ==> r[i] == r[1..][i - 1];
    } else {
      assert r == ShowUnsigned(n, places);
      assert IsUnsignedDecimal(r);
    }
  }

  lemma NegateScaled(m: nat, places: nat)
    ensures -Scaled(m, places) == Scaled(-(m as int), places)
  {
  }
}
