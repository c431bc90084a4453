/** The `App\Service\LoanCalculator` service, modelled as written:
    `getMonthlyPayment` with its input checks, its term-0 and zero-rate
    cases and the annuity formula, and `getPaymentSchedule` with its
    amortization loop that re-derives the payment every period and rounds
    each stored field on its own. */
module LoanCalculator {
  import opened RealMath
  import opened Annuity

  /** The three exceptions `getMonthlyPayment` throws, as tags rather than
      message strings. */
  datatype LoanError = InvalidTerm | InvalidRate | InvalidPrincipal

  datatype Result<T> = Success(value: T) | Failure(error: LoanError)

  /** One row of the schedule: the array with keys payment, interest,
      principal and balance. */
  datatype PeriodRecord = PeriodRecord(payment: real, interest: real, principal: real, balance: real)

  /** `getMonthlyPayment(principal, interestRate, term)`. The rate is an annual
      percentage, always split over 12 months. */
  function MonthlyPayment(principal: int, interestRate: real, term: int): (r: Result<real>)
    ensures r == Failure(InvalidTerm) <==> term < 0
    ensures r == Failure(InvalidRate) <==> 0 <= term && interestRate < 0.0
    ensures r == Failure(InvalidPrincipal) <==> 0 <= term && 0.0 <= interestRate && principal < 0
    ensures r.Success? ==> r.value >= 0.0
    ensures r.Success? && term == 0 ==> r.value == principal as real
    ensures r.Success? && term > 0 && interestRate == 0.0 ==> r.value == Round2(principal as real / term as real)
    ensures r.Success? && term > 0 && interestRate > 0.0 ==>
              FactorNonZero(interestRate / (12.0 * 100.0), term) &&
              r.value == Round2(LevelPayment(principal as real, interestRate / (12.0 * 100.0), term))
  {
    if term < 0 then Failure(InvalidTerm)
    else if interestRate < 0.0 then Failure(InvalidRate)
    else if principal < 0 then Failure(InvalidPrincipal)
    else Success(ValidatedPayment(principal, interestRate, term))
  }

  /** Lines 33-48 of `getMonthlyPayment`, reached once all three inputs have
      passed their checks. */
  function ValidatedPayment(principal: nat, interestRate: real, term: nat): (payment: real)
    requires interestRate >= 0.0
    ensures payment >= 0.0
    ensures term == 0 ==> payment == principal as real
    ensures term > 0 && interestRate == 0.0 ==> payment == Round2(principal as real / term as real)
    ensures term > 0 && interestRate > 0.0 ==>
              FactorNonZero(interestRate / (12.0 * 100.0), term) &&
              payment == Round2(LevelPayment(principal as real, interestRate / (12.0 * 100.0), term))
  {
    if term == 0 then principal as real
    else if interestRate > 0.0 then
      Round2(AnnuityPayment(principal as real, interestRate / (12.0 * 100.0), term))
    else
      Round2(principal as real / term as real)
  }

  /** Line 43: `principal * (r / (1 - pow(1 + r, -term)))`. For a positive
      rate it is defined, is the level payment of the annuity and is
      non-negative on a non-negative principal. */
  function AnnuityPayment(principal: real, monthlyInterestRate: real, term: nat): (payment: real)
    requires principal >= 0.0 && monthlyInterestRate > 0.0 && term >= 1
    ensures FactorNonZero(monthlyInterestRate, term)
    ensures payment == LevelPayment(principal, monthlyInterestRate, term)
    ensures payment >= 0.0
  {
    var x := 1.0 + monthlyInterestRate;
    PowAboveOne(x, term);
    var factor := 1.0 - PowNeg(x, term);
    assert PowNeg(x, term) * Pow(x, term) == 1.0;
    assert 0.0 < PowNeg(x, term);
    assert 0.0 < factor;
    assert principal * (monthlyInterestRate / factor) == principal * monthlyInterestRate / factor;
    principal * (monthlyInterestRate / factor)
  }

  /** The per-period rate of `getPaymentSchedule`: an annual percentage
      split over `termIntervals` periods. */
  function PeriodRate(interestRate: real, termIntervals: int): real
    requires termIntervals != 0
  {
    (interestRate / 100.0) / termIntervals as real
  }

  /** The inputs on which the schedule is defined over the reals: for every
      remaining-period count k the loop reaches, `1 + r` is non-zero (so
      `pow(1 + r, -k)` is finite) and `1 - (1 + r)^-k` is non-zero. See
      `ScheduleProperties.DivisionSafeExactly` for the rates this excludes. */
  predicate DivisionSafe(rate: real, termInMonths: int)
  {
    forall k: nat :: 1 <= k <= termInMonths ==> FactorNonZero(rate, k)
  }

  /** One pass of the loop body with `remaining` periods left, unrounded. */
  function Step(balance: real, rate: real, remaining: nat): PeriodRecord
    requires remaining >= 1 && FactorNonZero(rate, remaining)
  {
    var pmtAmount := 1.0 - PowNeg(1.0 + rate, remaining);
    var termPay := (balance * rate) / pmtAmount;
    var interest := balance * rate;
    var principal := termPay - interest;
    PeriodRecord(termPay, interest, principal, balance - principal)
  }

  /** The unrounded rows the loop computes from `balance` with `remaining`
      periods left; each row starts from the previous row's unrounded
      balance. */
  function Trajectory(balance: real, rate: real, remaining: nat): (t: seq<PeriodRecord>)
    requires DivisionSafe(rate, remaining)
    ensures |t| == remaining
    ensures remaining >= 1 ==> t[0] == Step(balance, rate, remaining)
    decreases remaining
  {
    if remaining == 0 then []
    else
      var row := Step(balance, rate, remaining);
      [row] + Trajectory(row.balance, rate, remaining - 1)
  }

  /** PHP `round(·, 2)` applied to each field separately. */
  function RoundRecord(row: PeriodRecord): PeriodRecord
  {
    PeriodRecord(Round2(row.payment), Round2(row.interest), Round2(row.principal), Round2(row.balance))
  }

  function RoundRecords(rows: seq<PeriodRecord>): (rounded: seq<PeriodRecord>)
    ensures |rounded| == |rows|
    ensures forall i :: 0 <= i < |rows| ==> rounded[i] == RoundRecord(rows[i])
  {
    if |rows| == 0 then [] else [RoundRecord(rows[0])] + RoundRecords(rows[1..])
  }

  /** `getPaymentSchedule(loanAmount, interestRate, termInMonths,
      termIntervals)`. Nothing is validated: a term of zero or less gives no
      rows, and the model covers only `DivisionSafe` inputs. */
  function PaymentSchedule(loanAmount: real, interestRate: real, termInMonths: int, termIntervals: int := 12)
    : (schedule: seq<PeriodRecord>)
    requires termIntervals != 0
    requires DivisionSafe(PeriodRate(interestRate, termIntervals), termInMonths)
    ensures termInMonths <= 0 ==> schedule == []
    ensures termInMonths >= 0 ==> |schedule| == termInMonths
  {
    if termInMonths <= 0 then []
    else RoundRecords(Trajectory(loanAmount, PeriodRate(interestRate, termIntervals), termInMonths))
  }

  /** The same schedule built the way the PHP builds it: a `while` loop that
      appends one rounded row per period and carries the unrounded balance. */
  method GetPaymentSchedule(loanAmount: real, interestRate: real, termInMonths: int, termIntervals: int := 12)
    returns (schedule: seq<PeriodRecord>)
    requires termIntervals != 0
    requires DivisionSafe(PeriodRate(interestRate, termIntervals), termInMonths)
    ensures schedule == PaymentSchedule(loanAmount, interestRate, termInMonths, termIntervals)
  {
    schedule := AmortizationLoop(loanAmount, PeriodRate(interestRate, termIntervals), termInMonths);
  }

  /** Lines 66-90 of the PHP, once the per-period rate is fixed. */
  method AmortizationLoop(loanAmount: real, rate: real, termInMonths: int) returns (schedule: seq<PeriodRecord>)
    requires DivisionSafe(rate, termInMonths)
    ensures termInMonths <= 0 ==> schedule == []
    ensures termInMonths >= 1 ==> schedule == RoundRecords(Trajectory(loanAmount, rate, termInMonths))
  {
    schedule := [];
    var i := 1;
    var period := termInMonths;
    var balance := loanAmount;
    while i <= termInMonths
      invariant termInMonths <= 0 ==> i == 1 && schedule == []
      invariant termInMonths >= 1 ==> 1 <= i <= termInMonths + 1 && period == termInMonths - i + 1
      invariant termInMonths >= 1 ==>
                  schedule + RoundRecords(Trajectory(balance, rate, period))
                  == RoundRecords(Trajectory(loanAmount, rate, termInMonths))
      decreases termInMonths - i
    {
      assert FactorNonZero(rate, period);
      var pmtAmount := 1.0 - PowNeg(1.0 + rate, period);
      var termPay := (balance * rate) / pmtAmount;
      var interest := balance * rate;
      var principal := termPay - interest;
      var newBalance := balance - principal;
      var row := PeriodRecord(termPay, interest, principal, newBalance);
      assert row == Step(balance, rate, period);
      TrajectoryUnfold(balance, rate, period);
      RoundRecordsCons(row, Trajectory(newBalance, rate, period - 1));
      schedule := schedule + [RoundRecord(row)];
      balance := newBalance;
      period := period - 1;
      i := i + 1;
    }
  }

  lemma TrajectoryUnfold(balance: real, rate: real, remaining: nat)
    requires remaining >= 1 && DivisionSafe(rate, remaining)
    ensures Trajectory(balance, rate, remaining)
         == [Step(balance, rate, remaining)] + Trajectory(Step(balance, rate, remaining).balance, rate, remaining - 1)
  {
  }

  lemma RoundRecordsCons(row: PeriodRecord, rows: seq<PeriodRecord>)
    ensures RoundRecords([row] + rows) == [RoundRecord(row)] + RoundRecords(rows)
  {
    assert ([row] + rows)[1..] == rows;
  }
}
