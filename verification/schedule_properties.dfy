/** What `getPaymentSchedule` guarantees over exact reals: the balance reaches
    zero after the last period, the re-derived payment never changes, it is
    the level payment of the annuity (and so agrees with `getMonthlyPayment`
    at 12 periods a year), and on a positive rate every stored figure is
    non-negative. */
module ScheduleProperties {
  import opened RealMath
  import opened Annuity
  import opened LoanCalculator

  // ---------------------------------------------------------------------
  // Where the divisions are defined
  // ---------------------------------------------------------------------

  /** Any per-period rate above -100% other than zero keeps every division
      of the schedule defined, whatever the term. */
  lemma DivisionSafeForRate(rate: real, termInMonths: int)
    requires rate > -1.0 && rate != 0.0
    ensures DivisionSafe(rate, termInMonths)
  {
    forall k: nat | 1 <= k <= termInMonths
      ensures FactorNonZero(rate, k)
    {
      if rate > 0.0 {
        PowAboveOne(1.0 + rate, k);
      } else {
        PowBelowOne(1.0 + rate, k);
      }
    }
  }

  /** A 0% rate makes every divisor `1 - pow(1, -k)` zero; the proof exhibits
      the one of the last pass, k = 1. */
  lemma ZeroRateDividesByZero(termInMonths: int, termIntervals: int)
    requires termInMonths >= 1 && termIntervals != 0
    ensures PeriodRate(0.0, termIntervals) == 0.0
    ensures !DivisionSafe(PeriodRate(0.0, termIntervals), termInMonths)
  {
    assert Pow(1.0 + 0.0, 1) == 1.0;
    assert !FactorNonZero(0.0, 1);
  }

  /** Below -100%, a per-period rate other than -200% keeps every power of
      `1 + r` away from 1, since |1 + r| is not 1. */
  lemma DivisionSafeBelowMinusOne(rate: real, termInMonths: int)
    requires rate < -1.0 && rate != -2.0
    ensures DivisionSafe(rate, termInMonths)
  {
    var x := 1.0 + rate;
    assert x < 0.0 && Abs(x) != 1.0;
    forall k: nat | 1 <= k <= termInMonths
      ensures FactorNonZero(rate, k)
    {
      PowAbs(x, k);
      if Abs(x) > 1.0 {
        PowAboveOne(Abs(x), k);
      } else {
        PowBelowOne(Abs(x), k);
      }
    }
  }

  /** The inputs the schedule's divisions exclude, exactly: a per-period
      rate of 0 (line 73 divides by zero), of -1 (line 72 raises 0 to a
      negative power), or of -2 once two periods remain (an even power of -1
      is 1, so line 73 divides by zero). */
  lemma DivisionSafeExactly(rate: real, termInMonths: int)
    requires termInMonths >= 1
    ensures !DivisionSafe(rate, termInMonths)
        <==> rate == 0.0 || rate == -1.0 || (rate == -2.0 && termInMonths >= 2)
  {
    if rate == 0.0 {
      assert Pow(1.0 + rate, 1) == 1.0;
      assert !FactorNonZero(rate, 1);
    } else if rate == -1.0 {
      assert !FactorNonZero(rate, 1);
    } else if rate == -2.0 {
      if termInMonths >= 2 {
        assert Pow(1.0 + rate, 2) == 1.0;
        assert !FactorNonZero(rate, 2);
      } else {
        assert Pow(1.0 + rate, 1) == -1.0;
        assert FactorNonZero(rate, 1);
      }
    } else if rate > -1.0 {
      DivisionSafeForRate(rate, termInMonths);
    } else {
      DivisionSafeBelowMinusOne(rate, termInMonths);
    }
  }

  // ---------------------------------------------------------------------
  // One period
  // ---------------------------------------------------------------------

  /** The loop body splits the level payment for the remaining periods into
      interest on the opening balance and principal, and the closing balance
      is the opening balance grown by one period's interest, less the
      payment. */
  lemma StepFields(balance: real, rate: real, remaining: nat)
    requires remaining >= 1 && FactorNonZero(rate, remaining)
    ensures Step(balance, rate, remaining).payment == LevelPayment(balance, rate, remaining)
    ensures Step(balance, rate, remaining).interest == balance * rate
    ensures Step(balance, rate, remaining).principal
         == Step(balance, rate, remaining).payment - Step(balance, rate, remaining).interest
    ensures Step(balance, rate, remaining).balance
         == balance * (1.0 + rate) - Step(balance, rate, remaining).payment
  {
  }

  lemma LevelAlgebra(b: real, r: real, q: real, q': real, p: real, b': real)
    requires 1.0 - q != 0.0 && 1.0 - q' != 0.0 && q' == (1.0 + r) * q
    requires p == b * r / (1.0 - q) && b' == b * (1.0 + r) - p
    ensures b' * r / (1.0 - q') == p
  {
    var d := 1.0 - q;
    var e := 1.0 - q';
    assert p * d == b * r;
    assert b' * d == b * e;
    var p' := b' * r / e;
    assert p' * e == b' * r;
    assert p' * (e * d) == b * e * r;
    assert p * (e * d) == b * e * r;
    MulNonZero(e, d);
    MulCancel(p', p, e * d);
  }

  /** Re-deriving the payment from the closing balance and one period fewer
      gives the same payment. */
  lemma StepKeepsLevelPayment(balance: real, rate: real, remaining: nat)
    requires remaining >= 2 && FactorNonZero(rate, remaining) && FactorNonZero(rate, remaining - 1)
    ensures LevelPayment(Step(balance, rate, remaining).balance, rate, remaining - 1)
         == LevelPayment(balance, rate, remaining)
  {
    StepFields(balance, rate, remaining);
    var q := PowNeg(1.0 + rate, remaining);
    var q' := PowNeg(1.0 + rate, remaining - 1);
    PowNegStep(1.0 + rate, remaining);
    assert q' * Pow(1.0 + rate, remaining - 1) == 1.0;
    assert q * Pow(1.0 + rate, remaining) == 1.0;
    var b' := Step(balance, rate, remaining).balance;
    LevelAlgebra(balance, rate, q, q', LevelPayment(balance, rate, remaining), b');
    LevelPaymentUnfold(b', rate, remaining - 1);
  }

  /** With one period left the payment is the whole balance plus its
      interest, so nothing remains. */
  lemma LastStepClears(balance: real, rate: real)
    requires FactorNonZero(rate, 1)
    ensures Step(balance, rate, 1).balance == 0.0
  {
    var x := 1.0 + rate;
    assert Pow(1.0 + rate, 1) == 1.0 + rate;
    var q := PowNeg(1.0 + rate, 1);
    assert q * (1.0 + rate) == 1.0;
    var d := 1.0 - q;
    assert d * (1.0 + rate) == rate;
    assert rate != 0.0 && d != 0.0;
    var p := balance * rate / d;
    assert p * d == balance * rate;
    assert p * d == balance * (1.0 + rate) * d;
    assert p == balance * (1.0 + rate);
  }

  /** On a positive rate and a non-negative balance, every figure of a period
      is non-negative and the balance does not grow. */
  lemma StepNonNegative(balance: real, rate: real, remaining: nat)
    requires balance >= 0.0 && rate > 0.0 && remaining >= 1
    ensures FactorNonZero(rate, remaining)
    ensures Step(balance, rate, remaining).payment >= 0.0
    ensures Step(balance, rate, remaining).interest >= 0.0
    ensures Step(balance, rate, remaining).principal >= 0.0
    ensures 0.0 <= Step(balance, rate, remaining).balance <= balance
  {
    PowAboveOne(1.0 + rate, remaining);
    StepFields(balance, rate, remaining);
    var q := PowNeg(1.0 + rate, remaining);
    assert q * Pow(1.0 + rate, remaining) == 1.0;
    PowNegStep(1.0 + rate, remaining);
    var q' := PowNeg(1.0 + rate, remaining - 1);
    if remaining >= 2 {
      PowAboveOne(1.0 + rate, remaining - 1);
      assert q' * Pow(1.0 + rate, remaining - 1) == 1.0;
    } else {
      assert Pow(1.0 + rate, 0) == 1.0;
    }
    SignAlgebra(balance, rate, q, q', LevelPayment(balance, rate, remaining));
  }

  lemma SignAlgebra(b: real, r: real, q: real, q': real, p: real)
    requires b >= 0.0 && r > 0.0 && 0.0 < q < 1.0 && q' == (1.0 + r) * q && q' <= 1.0
    requires p == b * r / (1.0 - q)
    ensures p >= b * r >= 0.0
    ensures 0.0 <= b * (1.0 + r) - p <= b
  {
    var d := 1.0 - q;
    assert p * d == b * r;
    assert (b * (1.0 + r) - p) * d == b * (1.0 - q');
  }

  // ---------------------------------------------------------------------
  // The whole trajectory
  // ---------------------------------------------------------------------

  /** Row i is one loop pass from the previous row's UNROUNDED balance (the
      loan amount for row 0) with n - i periods remaining: rounding is never
      carried forward. */
  lemma {:induction false} TrajectoryRowIsStep(balance: real, rate: real, n: nat)
    requires DivisionSafe(rate, n)
    ensures n >= 1 ==> Trajectory(balance, rate, n)[0] == Step(balance, rate, n)
    ensures forall i :: 1 <= i < n ==>
              Trajectory(balance, rate, n)[i] == Step(Trajectory(balance, rate, n)[i - 1].balance, rate, n - i)
    decreases n
  {
    if n >= 1 {
      var s := Step(balance, rate, n);
      TrajectoryUnfold(balance, rate, n);
      var rest := Trajectory(s.balance, rate, n - 1);
      TrajectoryRowIsStep(s.balance, rate, n - 1);
      forall i | 1 <= i < n
        ensures Trajectory(balance, rate, n)[i] == Step(Trajectory(balance, rate, n)[i - 1].balance, rate, n - i)
      {
        assert Trajectory(balance, rate, n)[i] == rest[i - 1];
        if i >= 2 {
          assert Trajectory(balance, rate, n)[i - 1] == rest[i - 2];
        }
      }
    }
  }

  /** The payment re-derived in every period is the level payment of the
      whole loan. */
  lemma {:induction false} PaymentIsLevel(balance: real, rate: real, n: nat)
    requires DivisionSafe(rate, n)
    ensures forall i :: 0 <= i < n ==> Trajectory(balance, rate, n)[i].payment == LevelPayment(balance, rate, n)
    decreases n
  {
    if n >= 1 {
      var s := Step(balance, rate, n);
      TrajectoryUnfold(balance, rate, n);
      StepFields(balance, rate, n);
      var rest := Trajectory(s.balance, rate, n - 1);
      if n >= 2 {
        assert FactorNonZero(rate, n - 1);
        PaymentIsLevel(s.balance, rate, n - 1);
        StepKeepsLevelPayment(balance, rate, n);
      }
      forall i | 0 <= i < n
        ensures Trajectory(balance, rate, n)[i].payment == LevelPayment(balance, rate, n)
      {
        if i >= 1 {
          assert Trajectory(balance, rate, n)[i] == rest[i - 1];
        }
      }
    }
  }

  /** The closing balance of row i is what the textbook annuity leaves after
      i + 1 level payments. */
  lemma {:induction false} BalancesFollowAnnuity(balance: real, rate: real, n: nat)
    requires DivisionSafe(rate, n)
    ensures forall i :: 0 <= i < n ==>
              Trajectory(balance, rate, n)[i].balance
              == BalanceAfter(balance, rate, LevelPayment(balance, rate, n), i + 1)
    decreases n
  {
    if n >= 1 {
      var a := LevelPayment(balance, rate, n);
      var s := Step(balance, rate, n);
      TrajectoryUnfold(balance, rate, n);
      StepFields(balance, rate, n);
      assert s.balance == balance * (1.0 + rate) - a;
      var rest := Trajectory(s.balance, rate, n - 1);
      if n >= 2 {
        assert FactorNonZero(rate, n - 1);
        BalancesFollowAnnuity(s.balance, rate, n - 1);
        StepKeepsLevelPayment(balance, rate, n);
      }
      forall i | 0 <= i < n
        ensures Trajectory(balance, rate, n)[i].balance == BalanceAfter(balance, rate, a, i + 1)
      {
        assert BalanceAfter(balance, rate, a, i + 1) == BalanceAfter(balance * (1.0 + rate) - a, rate, a, i);
        if i >= 1 {
          assert Trajectory(balance, rate, n)[i] == rest[i - 1];
        }
      }
    }
  }

  /** After the last period the unrounded balance is exactly zero. */
  lemma {:induction false} TerminalBalanceIsZero(balance: real, rate: real, n: nat)
    requires n >= 1 && DivisionSafe(rate, n)
    ensures Trajectory(balance, rate, n)[n - 1].balance == 0.0
    decreases n
  {
    var s := Step(balance, rate, n);
    TrajectoryUnfold(balance, rate, n);
    if n == 1 {
      assert FactorNonZero(rate, 1);
      LastStepClears(balance, rate);
    } else {
      TerminalBalanceIsZero(s.balance, rate, n - 1);
      assert Trajectory(balance, rate, n)[n - 1] == Trajectory(s.balance, rate, n - 1)[n - 2];
    }
  }

  /** On a positive rate and a non-negative loan every unrounded figure is
      non-negative and the balance never grows. */
  lemma {:induction false} TrajectoryNonNegative(balance: real, rate: real, n: nat)
    requires balance >= 0.0 && rate > 0.0
    ensures DivisionSafe(rate, n)
    ensures forall i :: 0 <= i < n ==>
              var row := Trajectory(balance, rate, n)[i];
              row.payment >= 0.0 && row.interest >= 0.0 && row.principal >= 0.0 && row.balance >= 0.0
    ensures n >= 1 ==> Trajectory(balance, rate, n)[0].balance <= balance
    ensures forall i :: 1 <= i < n ==>
              Trajectory(balance, rate, n)[i].balance <= Trajectory(balance, rate, n)[i - 1].balance
    decreases n
  {
    DivisionSafeForRate(rate, n);
    if n >= 1 {
      var s := Step(balance, rate, n);
      TrajectoryUnfold(balance, rate, n);
      StepNonNegative(balance, rate, n);
      var rest := Trajectory(s.balance, rate, n - 1);
      TrajectoryNonNegative(s.balance, rate, n - 1);
      forall i | 1 <= i < n
        ensures Trajectory(balance, rate, n)[i] == rest[i - 1]
      {
      }
    }
  }

  /** With nothing borrowed every row is all zeros: the loop runs its full
      term without complaint. */
  lemma {:induction false} ZeroLoanGivesZeroRows(rate: real, n: nat)
    requires DivisionSafe(rate, n)
    ensures forall i :: 0 <= i < n ==> Trajectory(0.0, rate, n)[i] == PeriodRecord(0.0, 0.0, 0.0, 0.0)
    decreases n
  {
    if n >= 1 {
      TrajectoryUnfold(0.0, rate, n);
      StepFields(0.0, rate, n);
      assert Step(0.0, rate, n).balance == 0.0;
      ZeroLoanGivesZeroRows(rate, n - 1);
      forall i | 1 <= i < n
        ensures Trajectory(0.0, rate, n)[i] == Trajectory(0.0, rate, n - 1)[i - 1]
      {
      }
    }
  }

  // ---------------------------------------------------------------------
  // The rounded schedule
  // ---------------------------------------------------------------------

  /** The stored payment is the same in every row: the rounded level
      payment. */
  lemma SchedulePaymentIsLevel(loanAmount: real, interestRate: real, termInMonths: int, termIntervals: int)
    requires termIntervals != 0
    requires DivisionSafe(PeriodRate(interestRate, termIntervals), termInMonths)
    ensures forall i :: 0 <= i < termInMonths ==>
              PaymentSchedule(loanAmount, interestRate, termInMonths, termIntervals)[i].payment
              == Round2(LevelPayment(loanAmount, PeriodRate(interestRate, termIntervals), termInMonths))
  {
    if termInMonths >= 1 {
      PaymentIsLevel(loanAmount, PeriodRate(interestRate, termIntervals), termInMonths);
    }
  }

  /** The last stored balance is zero. */
  lemma ScheduleEndsAtZero(loanAmount: real, interestRate: real, termInMonths: int, termIntervals: int)
    requires termIntervals != 0 && termInMonths >= 1
    requires DivisionSafe(PeriodRate(interestRate, termIntervals), termInMonths)
    ensures PaymentSchedule(loanAmount, interestRate, termInMonths, termIntervals)[termInMonths - 1].balance == 0.0
  {
    TerminalBalanceIsZero(loanAmount, PeriodRate(interestRate, termIntervals), termInMonths);
  }

  /** On a positive rate, a non-negative loan and a positive number of
      periods per year, every stored figure is non-negative. */
  lemma ScheduleNonNegative(loanAmount: real, interestRate: real, termInMonths: int, termIntervals: int)
    requires loanAmount >= 0.0 && interestRate > 0.0 && termIntervals >= 1
    ensures DivisionSafe(PeriodRate(interestRate, termIntervals), termInMonths)
    ensures forall i :: 0 <= i < termInMonths ==>
              var row := PaymentSchedule(loanAmount, interestRate, termInMonths, termIntervals)[i];
              row.payment >= 0.0 && row.interest >= 0.0 && row.principal >= 0.0 && row.balance >= 0.0
  {
    var rate := PeriodRate(interestRate, termIntervals);
    assert rate > 0.0;
    if termInMonths >= 1 {
      TrajectoryNonNegative(loanAmount, rate, termInMonths);
    } else {
      DivisionSafeForRate(rate, termInMonths);
    }
  }

  /** At 12 periods a year every stored payment, the last one included,
      equals `getMonthlyPayment` on the same principal, rate and term. */
  lemma ScheduleAgreesWithMonthlyPayment(principal: int, interestRate: real, termInMonths: int)
    requires principal >= 0 && interestRate > 0.0 && termInMonths >= 1
    ensures DivisionSafe(PeriodRate(interestRate, 12), termInMonths)
    ensures MonthlyPayment(principal, interestRate, termInMonths).Success?
    ensures var schedule := PaymentSchedule(principal as real, interestRate, termInMonths, 12);
            forall i :: 0 <= i < |schedule| ==>
              schedule[i].payment == MonthlyPayment(principal, interestRate, termInMonths).value
  {
    var rate := PeriodRate(interestRate, 12);
    assert rate == interestRate / (12.0 * 100.0);
    DivisionSafeForRate(rate, termInMonths);
    SchedulePaymentIsLevel(principal as real, interestRate, termInMonths, 12);
  }
}
