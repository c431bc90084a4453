/** Exact-real stand-ins for the PHP numeric built-ins the loan calculator
    relies on: `pow` with an integer exponent and `round(x, 2)`. */
module RealMath {

  /** x raised to a natural power. */
  function Pow(x: real, n: nat): real
  {
    if n == 0 then 1.0 else x * Pow(x, n - 1)
  }

  /** PHP `pow(x, -n)` for a non-zero base: the reciprocal of x^n. */
  function PowNeg(x: real, n: nat): (r: real)
    requires x != 0.0
    ensures r * Pow(x, n) == 1.0
  {
    PowNonZero(x, n);
    1.0 / Pow(x, n)
  }

  function Abs(x: real): real
  {
    if x < 0.0 then -x else x
  }

  /** A whole number of cents. */
  predicate IsCents(x: real)
  {
    (x * 100.0).Floor as real == x * 100.0
  }

  /** Rounds a non-negative amount to cents, a half cent going up. */
  function RoundCentsUp(x: real): (r: real)
    requires x >= 0.0
    ensures IsCents(r)
    ensures r >= 0.0
    ensures -0.005 < r - x <= 0.005
  {
    var k := (x * 100.0 + 0.5).Floor;
    assert k >= 0;
    assert k as real / 100.0 * 100.0 == k as real;
    k as real / 100.0
  }

  /** PHP `round(x, 2)`: the nearest whole number of cents, a tie going away
      from zero (see `Round2IsNearestCent`). */
  function Round2(x: real): (r: real)
    ensures x >= 0.0 ==> r >= 0.0
    ensures x <= 0.0 ==> r <= 0.0
  {
    if x >= 0.0 then RoundCentsUp(x)
    else -RoundCentsUp(-x)
  }

  /** The three clauses pin the result down uniquely: a whole number of
      cents, no more than half a cent away, and on an exact half cent the
      one further from zero. */
  lemma Round2IsNearestCent(x: real)
    ensures IsCents(Round2(x))
    ensures Abs(Round2(x) - x) <= 0.005
    ensures Abs(Round2(x) - x) == 0.005 ==> Abs(Round2(x)) > Abs(x)
  {
    if x < 0.0 {
      CentsNegate(RoundCentsUp(-x));
    }
  }

  lemma CentsNegate(c: real)
    requires IsCents(c)
    ensures IsCents(-c)
  {
    var k := (c * 100.0).Floor;
    assert -c * 100.0 == (-k) as real;
  }

  lemma {:induction false} PowNonZero(x: real, n: nat)
    requires x != 0.0
    ensures Pow(x, n) != 0.0
  {
    if n > 0 {
      PowNonZero(x, n - 1);
    }
  }

  lemma {:induction false} PowAboveOne(x: real, n: nat)
    requires x > 1.0 && n >= 1
    ensures Pow(x, n) > 1.0
  {
    if n > 1 {
      PowAboveOne(x, n - 1);
      assert x * Pow(x, n - 1) > 1.0 * Pow(x, n - 1);
    }
  }

  lemma {:induction false} PowBelowOne(x: real, n: nat)
    requires 0.0 < x < 1.0 && n >= 1
    ensures 0.0 < Pow(x, n) < 1.0
  {
    if n > 1 {
      PowBelowOne(x, n - 1);
      assert x * Pow(x, n - 1) < 1.0 * Pow(x, n - 1);
    }
  }

  /** The size of a power is the power of the size: |x^n| == |x|^n. */
  lemma {:induction false} PowAbs(x: real, n: nat)
    ensures Abs(Pow(x, n)) == Pow(Abs(x), n)
  {
    if n >= 1 {
      PowAbs(x, n - 1);
      assert Abs(x * Pow(x, n - 1)) == Abs(x) * Abs(Pow(x, n - 1));
    }
  }

  /** One factor fewer in the denominator: x^-(n-1) == x * x^-n. */
  lemma PowNegStep(x: real, n: nat)
    requires x != 0.0 && n >= 1
    ensures PowNeg(x, n - 1) == x * PowNeg(x, n)
  {
    var p := Pow(x, n - 1);
    PowNonZero(x, n - 1);
    assert Pow(x, n) == x * p;
    assert PowNeg(x, n - 1) * p == 1.0;
    assert (x * PowNeg(x, n)) * p == PowNeg(x, n) * Pow(x, n) == 1.0;
  }

  lemma MulNonZero(x: real, y: real)
    requires x != 0.0 && y != 0.0
    ensures x * y != 0.0
  {
  }

  lemma MulCancel(x: real, y: real, z: real)
    requires z != 0.0 && x * z == y * z
    ensures x == y
  {
  }

  /** (k + 1) copies of a are k copies and one more. */
  lemma CountStep(k: nat, a: real)
    ensures (k + 1) as real * a == k as real * a + a
  {
  }

  /** Rounding is odd-symmetric: `round(-x, 2) == -round(x, 2)`. */
  lemma Round2Negate(x: real)
    ensures Round2(-x) == -Round2(x)
  {
  }

  /** An amount already in whole cents is left as it is. */
  lemma Round2OfCents(c: real)
    requires IsCents(c)
    ensures Round2(c) == c
  {
    var k := (c * 100.0).Floor;
    assert c == k as real / 100.0;
    if c >= 0.0 {
      assert (c * 100.0 + 0.5).Floor == k;
    } else {
      assert (-c * 100.0 + 0.5).Floor == -k;
    }
  }

  /** Rounding to cents is idempotent. */
  lemma Round2Idempotent(x: real)
    ensures Round2(Round2(x)) == Round2(x)
  {
    Round2IsNearestCent(x);
    Round2OfCents(Round2(x));
  }
}
