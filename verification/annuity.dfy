/** The textbook fixed-payment annuity, as an independent reference for the
    loan calculator: a balance that earns interest at rate r per period and is
    reduced by the same payment every period. */
module Annuity {
  import opened RealMath

  /** Balance left after n periods that each add interest and then subtract
      `payment`. */
  function BalanceAfter(balance: real, rate: real, payment: real, n: nat): real
    decreases n
  {
    if n == 0 then balance
    else BalanceAfter(balance * (1.0 + rate) - payment, rate, payment, n - 1)
  }

  /** 1 + x + ... + x^(n-1). */
  function GeometricSum(x: real, n: nat): real
  {
    if n == 0 then 0.0 else GeometricSum(x, n - 1) + Pow(x, n - 1)
  }

  /** Both `(1 + r)^-n` and the division by the annuity factor
      `1 - (1 + r)^-n` are defined. */
  predicate FactorNonZero(rate: real, n: nat)
  {
    1.0 + rate != 0.0 && Pow(1.0 + rate, n) != 1.0
  }

  /** The level payment `P * r / (1 - (1 + r)^-n)`, defined whenever none of
      its divisions is by zero. */
  function LevelPayment(balance: real, rate: real, n: nat): real
    requires FactorNonZero(rate, n)
  {
    balance * rate / (1.0 - PowNeg(1.0 + rate, n))
  }

  lemma LevelPaymentUnfold(balance: real, rate: real, n: nat)
    requires FactorNonZero(rate, n)
    ensures LevelPayment(balance, rate, n) == balance * rate / (1.0 - PowNeg(1.0 + rate, n))
  {
  }

  /** The balance after n periods is the grown principal minus the grown
      payments. */
  lemma {:induction false} BalanceAfterClosedForm(balance: real, rate: real, payment: real, n: nat)
    ensures BalanceAfter(balance, rate, payment, n)
         == balance * Pow(1.0 + rate, n) - payment * GeometricSum(1.0 + rate, n)
    decreases n
  {
    if n > 0 {
      var x := 1.0 + rate;
      var next := balance * (1.0 + rate) - payment;
      var p := Pow(x, n - 1);
      var s := GeometricSum(x, n - 1);
      assert BalanceAfter(balance, rate, payment, n) == BalanceAfter(next, rate, payment, n - 1);
      BalanceAfterClosedForm(next, rate, payment, n - 1);
      ClosedFormStep(balance, x, payment, p, s);
      assert Pow(x, n) == x * p;
      assert GeometricSum(x, n) == s + p;
    }
  }

  lemma ClosedFormStep(b: real, x: real, a: real, p: real, s: real)
    ensures (b * x - a) * p - a * s == b * (x * p) - a * (s + p)
  {
  }

  lemma PowTimesBase(x: real, n: nat)
    ensures Pow(x, n) * x == Pow(x, n + 1)
  {
  }

  /** r * (1 + x + ... + x^(n-1)) == x^n - 1 for x == 1 + r. */
  lemma {:induction false} GeometricSumClosedForm(rate: real, n: nat)
    ensures GeometricSum(1.0 + rate, n) * rate == Pow(1.0 + rate, n) - 1.0
  {
    if n > 0 {
      GeometricSumClosedForm(rate, n - 1);
      PowTimesBase(1.0 + rate, n - 1);
    }
  }

  /** Paying the level payment every period clears the loan exactly. */
  lemma LevelPaymentClearsLoan(balance: real, rate: real, n: nat)
    requires FactorNonZero(rate, n)
    ensures BalanceAfter(balance, rate, LevelPayment(balance, rate, n), n) == 0.0
  {
    var x := 1.0 + rate;
    BalanceAfterClosedForm(balance, rate, LevelPayment(balance, rate, n), n);
    GeometricSumClosedForm(rate, n);
    LevelPaymentTimesSum(balance, rate, n);
  }

  /** The level payment times the geometric sum is the grown principal. */
  lemma LevelPaymentTimesSum(balance: real, rate: real, n: nat)
    requires FactorNonZero(rate, n)
    ensures LevelPayment(balance, rate, n) * GeometricSum(1.0 + rate, n) == balance * Pow(1.0 + rate, n)
  {
    var x := 1.0 + rate;
    var p := Pow(x, n);
    var q := PowNeg(x, n);
    var s := GeometricSum(x, n);
    GeometricSumClosedForm(rate, n);
    assert s * rate == p - 1.0;
    assert q * p == 1.0;
    ReciprocalAlgebra(balance, rate, p, q, s);
  }

  lemma ReciprocalAlgebra(b: real, r: real, p: real, q: real, s: real)
    requires q * p == 1.0 && p != 1.0 && s * r == p - 1.0
    ensures b * r / (1.0 - q) * s == b * p
  {
    var d := 1.0 - q;
    assert d * p == p - 1.0;
    assert d != 0.0 && r != 0.0;
    var a := b * r / d;
    assert a * d == b * r;
    assert a * (s * r) == a * (d * p);
    assert (a * s) * r == (b * p) * r;
  }

  /** The level payment is the only constant payment that clears the loan in
      exactly n periods. */
  lemma ClearingPaymentIsUnique(balance: real, rate: real, payment: real, n: nat)
    requires FactorNonZero(rate, n)
    requires BalanceAfter(balance, rate, payment, n) == 0.0
    ensures payment == LevelPayment(balance, rate, n)
  {
    var x := 1.0 + rate;
    var s := GeometricSum(x, n);
    BalanceAfterClosedForm(balance, rate, payment, n);
    LevelPaymentTimesSum(balance, rate, n);
    GeometricSumClosedForm(rate, n);
    assert s != 0.0;
    assert payment * s == LevelPayment(balance, rate, n) * s;
  }
}
