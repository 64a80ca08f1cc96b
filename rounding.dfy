/**
 * Rounding an integer to 2 significant digits, with exact integer
 * arithmetic in place of `log10`. The place value of the second
 * significant digit of a magnitude `n` (its "unit") is
 * `10^(floor(log10 n) - 1)`; here it is computed by counting digits.
 * Magnitudes below 100 already have at most 2 significant digits and are
 * left alone. A tie (a remainder of exactly half a unit) rounds away from
 * zero.
 */
module Rounding {

  function Abs(x: int): (r: nat)
    ensures r == x || r == -x
  {
    if x < 0 then -x else x
  }

  /** 10 to the power k. */
  function Pow10(k: nat): (r: nat)
    ensures r >= 1
    ensures k >= 1 ==> r >= 10
  {
    if k == 0 then 1 else 10 * Pow10(k - 1)
  }

  /** The number of decimal digits of a positive integer. */
  function Digits(n: nat): (d: nat)
    requires n >= 1
    ensures d >= 1
    ensures Pow10(d - 1) <= n < Pow10(d)
  {
    if n < 10 then 1
    else
      var d' := Digits(n / 10);
      assert Pow10(d') == 10 * Pow10(d' - 1);
      d' + 1
  }

  /** The exponent of the unit of `n`: `floor(log10 n) - 1`, or 0 below 100. */
  function UnitExponent(n: nat): (k: nat)
    ensures n < 100 ==> k == 0
    ensures n >= 100 ==> Pow10(k + 1) <= n < Pow10(k + 2)
  {
    if n < 100 then 0
    else
      var d := Digits(n);
      Pow10Monotone(d, 2);
      d - 2
  }

  /** The place value of the second significant digit of `n` (1 below 100). */
  function Unit(n: nat): (p: nat)
    ensures p >= 1
    ensures n < 100 ==> p == 1
    ensures n >= 100 ==> 10 <= p && 10 * p <= n < 100 * p
    ensures p == Pow10(UnitExponent(n))
  {
    var k := UnitExponent(n);
    Pow10Step(k);
    Pow10Step(k + 1);
    assert n >= 100 ==> k >= 1 by {
      if k == 0 { assert Pow10(2) == 100; }
    }
    Pow10(k)
  }

  /** `m` is a whole number of `p`s. */
  predicate IsMultiple(m: nat, p: nat)
    requires p >= 1
    decreases m
  {
    if m < p then m == 0 else IsMultiple(m - p, p)
  }

  /** What is left of `n` after taking out as many `p`s as possible. */
  function Remainder(n: nat, p: nat): (r: nat)
    requires p >= 1
    ensures r < p && r <= n
    ensures IsMultiple(n - r, p)
    decreases n
  {
    if n < p then n else Remainder(n - p, p)
  }

  /** `x` has at most 2 significant digits: it is a whole number of units. */
  predicate HasTwoSignificantDigits(x: int) {
    IsMultiple(Abs(x), Unit(Abs(x)))
  }

  /** `n` rounded to the nearest whole number of `p`s, ties upwards. */
  function RoundToMultiple(n: nat, p: nat): (m: nat)
    requires p >= 1
    ensures IsMultiple(m, p)
    ensures 2 * Abs(m - n) <= p
    ensures 2 * Abs(m - n) == p ==> m > n
  {
    var rem := Remainder(n, p);
    if 2 * rem >= p then n - rem + p else n - rem
  }

  /**
   * `x` rounded to 2 significant digits: the nearest whole number of units,
   * ties away from zero, with the sign of `x`.
   */
  function RoundSig2(x: int): (r: int)
    ensures IsMultiple(Abs(r), Unit(Abs(x)))
    ensures 2 * Abs(r - x) <= Unit(Abs(x))
    ensures 2 * Abs(r - x) == Unit(Abs(x)) ==> Abs(r) > Abs(x)
    ensures x >= 0 ==> r >= 0
    ensures x <= 0 ==> r <= 0
  {
    var n := Abs(x);
    if n < 100 then
      MultipleOfOne(n);
      x
    else
      var m := RoundToMultiple(n, Unit(n));
      if x < 0 then -(m as int) else m
  }

  // ----- properties of the rounding -----

  /** Rounding moves a value by at most 5% of its magnitude. */
  lemma RoundSig2Close(x: int)
    ensures 20 * Abs(RoundSig2(x) - x) <= Abs(x)
  {
    if Abs(x) >= 100 {
      assert 20 * Abs(RoundSig2(x) - x) <= 10 * Unit(Abs(x));
    }
  }

  /** The result of rounding is a whole number of units, ties away from zero: nothing else qualifies. */
  lemma RoundSig2Unique(x: int, y: int)
    requires IsMultiple(Abs(y), Unit(Abs(x)))
    requires 2 * Abs(y - x) <= Unit(Abs(x))
    requires 2 * Abs(y - x) == Unit(Abs(x)) ==> Abs(y) > Abs(x)
    requires x >= 0 ==> y >= 0
    requires x <= 0 ==> y <= 0
    ensures y == RoundSig2(x)
  {
    var r := RoundSig2(x);
    // y and r lie on the side of zero that x lies on
    assert Abs(y - x) == Abs(Abs(y) - Abs(x)) && Abs(r - x) == Abs(Abs(r) - Abs(x));
    NearestMultipleUnique(Abs(x), Unit(Abs(x)), Abs(y), Abs(r));
  }

  /** Integers with at most 2 significant digits are exactly the ones rounding leaves alone. */
  lemma RoundSig2Fixes(x: int)
    ensures RoundSig2(x) == x <==> HasTwoSignificantDigits(x)
  {
    if HasTwoSignificantDigits(x) {
      RoundSig2Unique(x, x);
    }
  }

  /** Below 100 in magnitude, every integer already has at most 2 significant digits. */
  lemma SmallHasTwoSignificantDigits(x: int)
    requires -100 < x < 100
    ensures HasTwoSignificantDigits(x)
  {
    MultipleOfOne(Abs(x));
  }

  /** The result of rounding has at most 2 significant digits. */
  lemma RoundSig2HasTwoSignificantDigits(x: int)
    ensures HasTwoSignificantDigits(RoundSig2(x))
  {
    var n, r := Abs(x), RoundSig2(x);
    if n >= 100 {
      var k := UnitExponent(n);
      var m := Abs(r);
      assert Abs(r - x) == Abs(m as int - n);
      // |x| lies in [10p, 100p) and |r| within half a unit of it
      Pow10Step(k);
      Pow10Step(k + 1);
      RoundedBetween(n, Pow10(k), m);
      WholeUnitsHaveTwoDigits(m, k);
    } else {
      MultipleOfOne(n);
    }
  }

  /** Rounding twice is rounding once. */
  lemma RoundSig2Idempotent(x: int)
    ensures RoundSig2(RoundSig2(x)) == RoundSig2(x)
  {
    RoundSig2HasTwoSignificantDigits(x);
    RoundSig2Fixes(RoundSig2(x));
  }

  /** Rounding commutes with negation: the tie rule is symmetric about zero. */
  lemma RoundSig2Odd(x: int)
    ensures RoundSig2(-x) == -RoundSig2(x)
  {
  }

  // ----- arithmetic helpers -----

  lemma Pow10Step(k: nat)
    ensures Pow10(k + 1) == 10 * Pow10(k)
  {
  }

  lemma {:induction false} Pow10Monotone(a: nat, b: nat)
    ensures a <= b ==> Pow10(a) <= Pow10(b)
  {
    if a < b {
      Pow10Monotone(a, b - 1);
    }
  }

  /** The unit exponent is the only power that brackets `n` this way. */
  lemma UnitExponentUnique(n: nat, k: nat)
    requires n >= 100
    requires Pow10(k + 1) <= n < Pow10(k + 2)
    ensures UnitExponent(n) == k
  {
    var e := UnitExponent(n);
    Pow10Monotone(e + 2, k + 1);
    Pow10Monotone(k + 2, e + 1);
  }

  lemma {:induction false} MultipleOfOne(n: nat)
    ensures IsMultiple(n, 1)
  {
    if n > 0 {
      MultipleOfOne(n - 1);
    }
  }

  lemma {:induction false} ScaledIsMultiple(c: nat, p: nat)
    requires p >= 1
    ensures IsMultiple(c * p, p)
  {
    if c > 0 {
      ScaledIsMultiple(c - 1, p);
      assert c * p - p == (c - 1) * p;
    }
  }

  /** Distinct whole numbers of units differ by at least a unit. */
  lemma {:induction false} MultiplesApart(a: nat, b: nat, p: nat)
    requires p >= 1 && IsMultiple(a, p) && IsMultiple(b, p) && a > b
    ensures a >= b + p
    decreases b
  {
    if b >= p {
      MultiplesApart(a - p, b - p, p);
    }
  }

  /**
   * Two whole numbers of units, each within half a unit of n and each past n
   * on a tie, are equal.
   */
  lemma NearestMultipleUnique(n: nat, p: nat, a: nat, b: nat)
    requires p >= 1 && IsMultiple(a, p) && IsMultiple(b, p)
    requires 2 * Abs(a - n) <= p && 2 * Abs(b - n) <= p
    requires 2 * Abs(a - n) == p ==> a > n
    requires 2 * Abs(b - n) == p ==> b > n
    ensures a == b
  {
    // a full unit apart, both would sit on a tie
    if a > b {
      MultiplesApart(a, b, p);
    } else if a < b {
      MultiplesApart(b, a, p);
    }
  }

  /** Between 10 and 100 whole units of 10^k, a number is a whole number of its own units. */
  lemma WholeUnitsHaveTwoDigits(m: nat, k: nat)
    requires IsMultiple(m, Pow10(k))
    requires 10 * Pow10(k) <= m <= 100 * Pow10(k)
    ensures m >= 1 && IsMultiple(m, Unit(m))
  {
    var p := Pow10(k);
    Pow10Step(k);
    Pow10Step(k + 1);
    Pow10Step(k + 2);
    Pow10Monotone(0, k);
    if m < 100 {
      MultipleOfOne(m);
    } else if m < 100 * p {
      UnitExponentUnique(m, k);
    } else {
      // 95 or more units round up to the next power of ten
      UnitExponentUnique(m, k + 1);
      ScaledIsMultiple(10, 10 * p);
    }
  }

  /** A whole number of units within half a unit of [10p, 100p) lies in [10p, 100p]. */
  lemma RoundedBetween(n: nat, p: nat, m: nat)
    requires p >= 1 && IsMultiple(m, p) && 2 * Abs(m - n) <= p
    requires 10 * p <= n < 100 * p
    ensures 10 * p <= m <= 100 * p
  {
    ScaledIsMultiple(10, p);
    ScaledIsMultiple(100, p);
    if m < 10 * p {
      MultiplesApart(10 * p, m, p);
    } else if m > 100 * p {
      MultiplesApart(m, 100 * p, p);
    }
  }
}
