/** A CORRECTED schedule generator. It is not the PHP `getPaymentSchedule`:
    it is what that function's tests and its caller evidently expect of it.
    It rejects a term or principal of zero, handles a 0% rate as a
    straight-line repayment instead of dividing by zero, and returns the
    total interest beside the rows (the controller reads both). On a positive
    rate its rows are exactly those of `LoanCalculator.PaymentSchedule`. */
module ValidatedSchedule {
  import opened RealMath
  import opened Annuity
  import opened LoanCalculator
  import opened ScheduleProperties

  datatype AmortizationResult = AmortizationResult(totalInterest: real, schedule: seq<PeriodRecord>)

  /** Sum of the unrounded interest of every row. */
  function SumInterest(rows: seq<PeriodRecord>): real
  {
    if |rows| == 0 then 0.0 else rows[0].interest + SumInterest(rows[1..])
  }

  /** Rows of a 0% loan: the same payment every period, all of it principal. */
  function StraightLine(balance: real, payment: real, remaining: nat): (t: seq<PeriodRecord>)
    ensures |t| == remaining
    decreases remaining
  {
    if remaining == 0 then []
    else
      [PeriodRecord(payment, 0.0, payment, balance - payment)]
      + StraightLine(balance - payment, payment, remaining - 1)
  }

  /** Row i of a straight-line repayment pays `payment`, all of it
      principal, and closes at the opening balance less i + 1 payments. */
  lemma {:induction false} StraightLineRows(balance: real, payment: real, remaining: nat)
    ensures forall i :: 0 <= i < remaining ==>
              StraightLine(balance, payment, remaining)[i]
              == PeriodRecord(payment, 0.0, payment, balance - (i + 1) as real * payment)
    decreases remaining
  {
    if remaining >= 1 {
      var rows := StraightLine(balance, payment, remaining);
      var rest := StraightLine(balance - payment, payment, remaining - 1);
      StraightLineRows(balance - payment, payment, remaining - 1);
      assert rows[0] == PeriodRecord(payment, 0.0, payment, balance - payment);
      forall i | 1 <= i < remaining
        ensures rows[i] == PeriodRecord(payment, 0.0, payment, balance - (i + 1) as real * payment)
      {
        assert rows[i] == rest[i - 1];
        assert rest[i - 1].balance == (balance - payment) - i as real * payment;
        CountStep(i, payment);
      }
    }
  }

  /** A straight-line repayment carries no interest. */
  lemma {:induction false} StraightLineInterestFree(balance: real, payment: real, remaining: nat)
    ensures SumInterest(StraightLine(balance, payment, remaining)) == 0.0
    decreases remaining
  {
    if remaining >= 1 {
      StraightLineInterestFree(balance - payment, payment, remaining - 1);
      assert StraightLine(balance, payment, remaining)[1..] == StraightLine(balance - payment, payment, remaining - 1);
    }
  }

  /** Total interest is what the borrower pays in all, less the principal
      repaid: n level payments less the loan amount. */
  lemma {:induction false} TotalInterestIsPaymentsLessPrincipal(balance: real, rate: real, n: nat)
    requires n >= 1 && DivisionSafe(rate, n)
    ensures SumInterest(Trajectory(balance, rate, n)) == n as real * LevelPayment(balance, rate, n) - balance
    decreases n
  {
    var s := Step(balance, rate, n);
    var a := LevelPayment(balance, rate, n);
    TrajectoryUnfold(balance, rate, n);
    StepFields(balance, rate, n);
    var rest := Trajectory(s.balance, rate, n - 1);
    assert Trajectory(balance, rate, n)[1..] == rest;
    if n == 1 {
      LastStepClears(balance, rate);
      assert SumInterest(Trajectory(balance, rate, n)) == balance * rate;
    } else {
      assert FactorNonZero(rate, n - 1);
      TotalInterestIsPaymentsLessPrincipal(s.balance, rate, n - 1);
      StepKeepsLevelPayment(balance, rate, n);
      assert SumInterest(rest) == (n - 1) as real * a - s.balance;
      CountStep(n - 1, a);
    }
  }

  /** The 0% case: `principal / term` every period. */
  function ZeroRateResult(principal: real, termPeriods: nat): (r: AmortizationResult)
    requires termPeriods >= 1
    ensures |r.schedule| == termPeriods
    ensures r.totalInterest == 0.0
    ensures forall i :: 0 <= i < termPeriods ==>
              r.schedule[i].payment == Round2(principal / termPeriods as real) &&
              r.schedule[i].interest == 0.0 &&
              r.schedule[i].principal == Round2(principal / termPeriods as real)
    ensures r.schedule[termPeriods - 1].balance == 0.0
  {
    var payment := principal / termPeriods as real;
    var rows := StraightLine(principal, payment, termPeriods);
    StraightLineRows(principal, payment, termPeriods);
    StraightLineInterestFree(principal, payment, termPeriods);
    assert rows[termPeriods - 1].balance == principal - termPeriods as real * payment == 0.0;
    AmortizationResult(SumInterest(rows), RoundRecords(rows))
  }

  /** The positive-rate case at per-period rate `rate`: the rows of the PHP
      loop, and their interest. */
  function PositiveRateResult(principal: real, rate: real, termPeriods: nat): (r: AmortizationResult)
    requires rate > 0.0 && termPeriods >= 1
    ensures DivisionSafe(rate, termPeriods)
    ensures r.schedule == RoundRecords(Trajectory(principal, rate, termPeriods))
    ensures r.totalInterest == termPeriods as real * LevelPayment(principal, rate, termPeriods) - principal
    ensures r.schedule[termPeriods - 1].balance == 0.0
  {
    DivisionSafeForRate(rate, termPeriods);
    var rows := Trajectory(principal, rate, termPeriods);
    TotalInterestIsPaymentsLessPrincipal(principal, rate, termPeriods);
    TerminalBalanceIsZero(principal, rate, termPeriods);
    AmortizationResult(SumInterest(rows), RoundRecords(rows))
  }

  /** Validates in the order term, rate, principal, then builds the
      schedule; a term or principal of zero is rejected. */
  function ComputeSchedule(principal: real, interestRate: real, termPeriods: int, periodsPerYear: int := 12)
    : (r: Result<AmortizationResult>)
    requires periodsPerYear >= 1
    ensures r == Failure(InvalidTerm) <==> termPeriods <= 0
    ensures r == Failure(InvalidRate) <==> termPeriods >= 1 && interestRate < 0.0
    ensures r == Failure(InvalidPrincipal) <==> termPeriods >= 1 && interestRate >= 0.0 && principal <= 0.0
    ensures r.Success? ==> |r.value.schedule| == termPeriods
    ensures r.Success? ==> r.value.schedule[termPeriods - 1].balance == 0.0
    ensures r.Success? && interestRate > 0.0 ==>
              DivisionSafe(PeriodRate(interestRate, periodsPerYear), termPeriods) &&
              r.value.schedule == PaymentSchedule(principal, interestRate, termPeriods, periodsPerYear)
    ensures r.Success? && interestRate == 0.0 ==>
              r.value.totalInterest == 0.0 &&
              forall i :: 0 <= i < termPeriods ==>
                r.value.schedule[i].payment == Round2(principal / termPeriods as real) &&
                r.value.schedule[i].interest == 0.0
  {
    if termPeriods <= 0 then Failure(InvalidTerm)
    else if interestRate < 0.0 then Failure(InvalidRate)
    else if principal <= 0.0 then Failure(InvalidPrincipal)
    else if interestRate == 0.0 then Success(ZeroRateResult(principal, termPeriods))
    else
      assert PeriodRate(interestRate, periodsPerYear) > 0.0;
      Success(PositiveRateResult(principal, PeriodRate(interestRate, periodsPerYear), termPeriods))
  }

  /** Three rows of the schedule test's data provider, evaluated in the model of the code
      as written: a term of 0 yields no rows instead of failing, a loan of 0
      yields twelve rows of zeros instead of failing, and a 0% rate is
      outside the inputs on which its divisions are defined. */
  lemma ProviderRowsAsWritten()
    ensures PaymentSchedule(1000.0, 10.0, 0) == []
    ensures DivisionSafe(PeriodRate(10.0, 12), 12)
    ensures forall i :: 0 <= i < 12 ==> PaymentSchedule(0.0, 10.0, 12)[i] == PeriodRecord(0.0, 0.0, 0.0, 0.0)
    ensures !DivisionSafe(PeriodRate(0.0, 12), 12)
  {
    DivisionSafeForRate(PeriodRate(10.0, 12), 12);
    ZeroLoanGivesZeroRows(PeriodRate(10.0, 12), 12);
    ZeroRateDividesByZero(12, 12);
  }

  /** The same three rows through the corrected generator: the first two
      fail with the expected tags, and the 0% loan repays 1000 in twelve
      payments of 83.33. */
  lemma ProviderRowsCorrected()
    ensures ComputeSchedule(1000.0, 10.0, 0) == Failure(InvalidTerm)
    ensures ComputeSchedule(0.0, 10.0, 12) == Failure(InvalidPrincipal)
    ensures ComputeSchedule(1000.0, 0.0, 12).Success?
    ensures forall i :: 0 <= i < 12 ==> ComputeSchedule(1000.0, 0.0, 12).value.schedule[i].payment == 83.33
  {
    assert Round2(1000.0 / 12.0) == 83.33;
  }
}
