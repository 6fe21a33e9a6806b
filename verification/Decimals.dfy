/** Python's `str` on non-negative integers. */
module Decimals {

  function Digit(d: nat): char
    requires d < 10
  {
    "0123456789"[d]
  }

  function Decimal(n: nat): string {
    if n < 10 then [Digit(n)] else Decimal(n / 10) + [Digit(n % 10)]
  }

  predicate IsDigit(c: char) { '0' <= c <= '9' }

  lemma {:induction false} DecimalDigits(n: nat)
    ensures Decimal(n) != "" && forall c <- Decimal(n) :: IsDigit(c)
  {
    if n >= 10 {
      DecimalDigits(n / 10);
    }
  }

  lemma DigitInjective(a: nat, b: nat)
    requires a < 10 && b < 10 && Digit(a) == Digit(b)
    ensures a == b
  {
    assert forall d: nat :: d < 10 ==> Digit(d) as int == '0' as int + d;
  }

  /** Different integers print differently. */
  lemma {:induction false} DecimalInjective(a: nat, b: nat)
    requires Decimal(a) == Decimal(b)
    ensures a == b
  {
    var s := Decimal(a);
    DecimalDigits(a / 10);
    DecimalDigits(b / 10);
    assert |s| == 1 <==> a < 10;
    assert |s| == 1 <==> b < 10;
    if a < 10 {
      DigitInjective(a, b);
    } else {
      assert s[..|s| - 1] == Decimal(a / 10) == Decimal(b / 10);
      assert s[|s| - 1] == Digit(a % 10) == Digit(b % 10);
      DigitInjective(a % 10, b % 10);
      DecimalInjective(a / 10, b / 10);
    }
  }

  /** The part after the last separator is determined when it holds no separator. */
  lemma LastSeparator(x1: string, y1: string, x2: string, y2: string, sep: char)
    requires sep !in y1 && sep !in y2
    requires x1 + [sep] + y1 == x2 + [sep] + y2
    ensures x1 == x2 && y1 == y2
  {
    var s, t := x1 + [sep] + y1, x2 + [sep] + y2;
    assert s[|x1|] == sep && t[|x2|] == sep;
    assert forall k :: |x1| < k < |s| ==> s[k] == y1[k - |x1| - 1];
    assert forall k :: |x2| < k < |t| ==> t[k] == y2[k - |x2| - 1];
    assert |x1| == |x2|;
    assert s[..|x1|] == x1 && t[..|x1|] == x2 && s[|x1| + 1..] == y1 && t[|x1| + 1..] == y2;
  }
}
