/** IEEE-754 doubles by their bit fields, their values, and Python's `float(x)` and `float.hex`. */
module Doubles {
  import opened Decimals
  import opened JsonText

  const HIDDEN := 0x10000000000000 // 2 ** 52

  datatype Fields = Fields(negative: bool, exponent: nat, fraction: nat)

  /** A finite double: an 11-bit biased exponent that is not all ones, and a 52-bit fraction. */
  type Double = d: Fields | d.exponent < 0x7FF && d.fraction < HIDDEN witness Fields(false, 0, 0)

  const ZERO: Double := Fields(false, 0, 0)

  predicate IsZero(d: Double) { d.exponent == 0 && d.fraction == 0 }

  // ----- values -----

  /** Two to an integer power. */
  function Power(x: int): real
    decreases if x < 0 then -x else x
  {
    if x == 0 then 1.0 else if x > 0 then 2.0 * Power(x - 1) else Power(x + 1) / 2.0
  }

  function Significand(d: Double): nat {
    if d.exponent == 0 then d.fraction else HIDDEN + d.fraction
  }

  /** The exponent of the significand's last bit; subnormals share the least one. */
  function Scale(d: Double): int { (if d.exponent == 0 then 1 else d.exponent) - 1075 }

  /** The real `s * 2 ** x`. */
  function Weight(s: nat, x: int): real { s as real * Power(x) }

  function Magnitude(d: Double): real { Weight(Significand(d), Scale(d)) }

  /** The real number a double denotes. */
  function RealOf(d: Double): real { if d.negative then -Magnitude(d) else Magnitude(d) }

  lemma {:induction false} PowerStep(x: int)
    ensures Power(x) > 0.0 && Power(x + 1) == 2.0 * Power(x)
    decreases if x < 0 then -x else x
  {
    if x > 0 {
      PowerStep(x - 1);
    } else if x < 0 {
      PowerStep(x + 1);
    }
  }

  lemma Times(a: real, b: real, c: real)
    requires a <= b && c > 0.0
    ensures a * c <= b * c
    ensures a < b ==> a * c < b * c
  {
  }

  lemma WeightGrows(s: nat, t: nat, x: int)
    requires s < t
    ensures Weight(s, x) < Weight(t, x)
  {
    var a, b, p := s as real, t as real, Power(x);
    PowerStep(x);
    assert a < b;
    Times(a, b, p);
    assert Weight(s, x) == a * p && Weight(t, x) == b * p;
  }

  /** Doubling the power halves the significand. */
  lemma WeightHalves(s: nat, x: int)
    ensures Weight(s, x + 1) == Weight(2 * s, x)
  {
    PowerStep(x);
    var a, p := s as real, Power(x);
    assert (2 * s) as real == 2.0 * a;
    assert a * (2.0 * p) == (2.0 * a) * p;
  }

  /** A full significand at a larger exponent beats any significand at a smaller one. */
  lemma {:induction false} WeightDominates(s: nat, x: int, t: nat, y: int)
    requires x < y && s < 2 * t
    ensures Weight(s, x) < Weight(t, y)
    decreases y - x
  {
    if y == x + 1 {
      WeightHalves(t, x);
      WeightGrows(s, 2 * t, x);
    } else {
      WeightHalves(t, y - 1);
      WeightDominates(s, x, 2 * t, y - 1);
    }
  }

  /** Magnitudes determine the exponent and fraction. */
  lemma MagnitudeInjective(d: Double, e: Double)
    requires Magnitude(d) == Magnitude(e)
    ensures d.exponent == e.exponent && d.fraction == e.fraction
  {
    var s, x, t, y := Significand(d), Scale(d), Significand(e), Scale(e);
    if x < y { WeightDominates(s, x, t, y); }
    if y < x { WeightDominates(t, y, s, x); }
    if s < t { WeightGrows(s, t, x); }
    if t < s { WeightGrows(t, s, x); }
  }

  lemma MagnitudeSign(d: Double)
    ensures Magnitude(d) >= 0.0 && (Magnitude(d) == 0.0 <==> IsZero(d))
  {
    assert Weight(0, Scale(d)) == 0.0;
    if !IsZero(d) {
      WeightGrows(0, Significand(d), Scale(d));
    }
  }

  /** Two doubles denote the same real exactly when they are the same one, or both zeros. */
  lemma RealInjective(d: Double, e: Double)
    ensures RealOf(d) == RealOf(e) <==> d == e || (IsZero(d) && IsZero(e))
  {
    MagnitudeSign(d);
    MagnitudeSign(e);
    if RealOf(d) == RealOf(e) {
      assert Magnitude(d) == Magnitude(e);
      MagnitudeInjective(d, e);
    }
  }

  // ----- Python's `float` on integers that fit the significand -----

  function Pow2(n: nat): nat { if n == 0 then 1 else 2 * Pow2(n - 1) }

  lemma HiddenIsPow2()
    ensures Pow2(52) == HIDDEN
  {
    assert Pow2(13) == 0x2000;
    assert Pow2(26) == 0x4000000;
    assert Pow2(39) == 0x8000000000;
  }

  /** The double `a / 2 ** j`, doubling the significand until its leading bit is the hidden one. */
  function Normalized(a: nat, j: nat): (d: Double)
    requires Pow2(j) <= a < 2 * HIDDEN && j <= 52
    ensures !d.negative
    decreases 52 - j
  {
    if a >= HIDDEN then Fields(false, 1075 - j, a - HIDDEN)
    else
      HiddenIsPow2();
      Normalized(2 * a, j + 1)
  }

  lemma {:induction false} NormalizedExact(a: nat, j: int)
    requires 0 <= j <= 52 && Pow2(j) <= a < 2 * HIDDEN
    ensures Magnitude(Normalized(a, j)) == Weight(a, -j)
    decreases 52 - j
  {
    if a < HIDDEN {
      HiddenIsPow2();
      NormalizedExact(2 * a, j + 1);
      WeightHalves(a, -j - 1);
    }
  }

  const MAX_SAFE := 0x1FFFFFFFFFFFFF // 2 ** 53 - 1

  function FromInt(n: int): Double
    requires -MAX_SAFE <= n <= MAX_SAFE
  {
    if n == 0 then ZERO
    else if n > 0 then Normalized(n, 0)
    else Normalized(-n, 0).(negative := true)
  }

  /** Every safe integer is a double. */
  lemma FromIntExact(n: int)
    requires -MAX_SAFE <= n <= MAX_SAFE
    ensures RealOf(FromInt(n)) == n as real
  {
    if n == 0 {
      MagnitudeSign(ZERO);
    } else {
      var a := if n > 0 then n else -n;
      NormalizedExact(a, 0);
      assert Weight(a, 0) == a as real;
    }
  }

  // ----- Python's `float.hex` -----

  /** The last `k` hexadecimal digits of `m`. */
  function HexDigits(m: nat, k: nat): (s: string)
    ensures |s| == k
  {
    if k == 0 then "" else HexDigits(m / 16, k - 1) + [HexLower(m % 16)]
  }

  function Pow16(k: nat): nat { if k == 0 then 1 else 16 * Pow16(k - 1) }

  lemma {:induction false} HexDigitsInjective(m: nat, n: nat, k: nat)
    requires m < Pow16(k) && n < Pow16(k) && HexDigits(m, k) == HexDigits(n, k)
    ensures m == n
  {
    if k > 0 {
      var s := HexDigits(m, k);
      assert s[..k - 1] == HexDigits(m / 16, k - 1) == HexDigits(n / 16, k - 1);
      assert s[k - 1] == HexLower(m % 16) == HexLower(n % 16);
      HexRoundTrip(m % 16);
      HexRoundTrip(n % 16);
      HexDigitsInjective(m / 16, n / 16, k - 1);
    }
  }

  function ExponentText(x: int): string { if x < 0 then "-" + Decimal(-x) else "+" + Decimal(x) }

  function HexBody(d: Double): string {
    if IsZero(d) then "0x0.0p+0"
    else
      (if d.exponent == 0 then "0x0." else "0x1.") + HexDigits(d.fraction, 13)
      + ("p" + ExponentText(Scale(d) + 52))
  }

  function HexText(d: Double): string { if d.negative then "-" + HexBody(d) else HexBody(d) }

  lemma ExponentTextInjective(x: int, y: int)
    requires ExponentText(x) == ExponentText(y)
    ensures x == y
  {
    assert ExponentText(x)[1..] == Decimal(if x < 0 then -x else x);
    assert ExponentText(y)[1..] == Decimal(if y < 0 then -y else y);
    DecimalInjective(if x < 0 then -x else x, if y < 0 then -y else y);
  }

  /** The three parts of a non-zero body stand at fixed places. */
  lemma HexBodyParts(d: Double)
    requires !IsZero(d)
    ensures |HexBody(d)| > 18 && (HexBody(d)[2] == '0' <==> d.exponent == 0)
    ensures HexBody(d)[4..17] == HexDigits(d.fraction, 13) && HexBody(d)[18..] == ExponentText(Scale(d) + 52)
  {
    var lead := if d.exponent == 0 then "0x0." else "0x1.";
    ThreeParts(lead, HexDigits(d.fraction, 13), ExponentText(Scale(d) + 52));
  }

  lemma ThreeParts(lead: string, digits: string, tail: string)
    requires |lead| == 4 && |digits| == 13 && tail != ""
    ensures var text := lead + digits + ("p" + tail);
      |text| > 18 && text[2] == lead[2] && text[4..17] == digits && text[18..] == tail
  {
  }

  lemma HexBodyInjective(d: Double, e: Double)
    requires HexBody(d) == HexBody(e)
    ensures d.exponent == e.exponent && d.fraction == e.fraction
  {
    HexBodyLength(d);
    HexBodyLength(e);
    if !IsZero(d) {
      HexBodyParts(d);
      HexBodyParts(e);
      FractionsEqual(d, e);
      ExponentTextInjective(Scale(d) + 52, Scale(e) + 52);
    }
  }

  /** Only a zero has a short body. */
  lemma HexBodyLength(d: Double)
    ensures |HexBody(d)| == 8 <==> IsZero(d)
  {
    if !IsZero(d) { HexBodyParts(d); }
  }

  lemma FractionsEqual(d: Double, e: Double)
    requires HexDigits(d.fraction, 13) == HexDigits(e.fraction, 13)
    ensures d.fraction == e.fraction
  {
    assert Pow16(13) == HIDDEN;
    HexDigitsInjective(d.fraction, e.fraction, 13);
  }

  /** Different doubles have different texts, the two zeros included. */
  lemma HexTextInjective(d: Double, e: Double)
    requires HexText(d) == HexText(e)
    ensures d == e
  {
    assert HexBody(d)[0] == '0' && HexBody(e)[0] == '0';
    assert d.negative ==> HexText(d)[1..] == HexBody(d);
    assert e.negative ==> HexText(e)[1..] == HexBody(e);
    HexBodyInjective(d, e);
  }
}
