# Fixed-rate loan calculator, modelled in Dafny

This project models `App\Service\LoanCalculator`, the arithmetic core of a
small Symfony loan-quote application, and proves properties of it over exact
real numbers.

The service has two operations:

- `getMonthlyPayment(principal, interestRate, term)` checks its inputs in a
  fixed order: term, then rate, then principal. It returns the principal
  unchanged for a term of 0. At a 0% rate it returns `principal / term`.
  Otherwise it applies the annuity formula `P·r / (1 - (1 + r)^-n)` with
  `r = rate / 1200`. The last two results are rounded to cents.
- `getPaymentSchedule(loanAmount, interestRate, termInMonths, termIntervals = 12)`
  runs an amortization loop. Every period it re-derives the payment from the
  current unrounded balance and the periods left. It splits the payment into
  interest and principal, then lowers the balance. It stores a row of four
  figures, each rounded on its own. The next period starts from the
  unrounded balance.

Modules, one per concern:

| file | module | contents |
|---|---|---|
| `real_math.dfy` | `RealMath` | `Pow`, PHP `pow(x, -n)` as `PowNeg`, PHP `round(x, 2)` as `Round2` |
| `annuity.dfy` | `Annuity` | the textbook annuity used as the independent reference: `BalanceAfter` (constant-payment recurrence), `LevelPayment` (the formula), clearing and uniqueness |
| `loan_calculator.dfy` | `LoanCalculator` | the two PHP operations as written, the schedule both as a recursive function and as the PHP `while` loop |
| `schedule_properties.dfy` | `ScheduleProperties` | zero terminal balance, constant payment, agreement with `getMonthlyPayment`, non-negativity |
| `payment_properties.dfy` | `PaymentProperties` | the monthly payment characterised as the rounded clearing payment; the test's concrete cases |
| `validated_schedule.dfy` | `ValidatedSchedule` | a separate, corrected schedule generator with validation, 0% support and total interest. It is NOT the PHP code; see Findings |

Modelling choices:

- Arithmetic is over Dafny `real`. The exact-real equalities proved here
  stand in for the PHP tests' float `assertEquals`. PHP `round(x, 2)` rounds
  half away from zero, for both signs.
- The three exceptions of `getMonthlyPayment` are the tags `InvalidTerm`,
  `InvalidRate` and `InvalidPrincipal` of a `Result`.
- `getMonthlyPayment` takes an `int` principal, as its PHP signature does.
  `getPaymentSchedule` takes a real loan amount.
- `getPaymentSchedule` validates nothing. For `termInMonths <= 0` its loop
  never runs and it returns no rows. Its precondition asks for
  `termIntervals != 0` (line 69) and, for each `k` the loop reaches,
  `1 + r != 0` and `(1 + r)^k != 1` (`DivisionSafe`). For a term of at
  least one period, this excludes exactly three per-period rates
  (`DivisionSafeExactly`):
  - 0%, where line 73 divides by zero (`ZeroRateDividesByZero`);
  - -200%, once two or more periods remain, where an even power of -1 makes
    line 73 divide by zero;
  - -100%, where PHP does NOT divide by zero: `pow(0, -k)` is INF, so line
    73 divides by -INF and the loop returns rows the model does not
    reproduce (see Left out).
- `getMonthlyPayment` always splits the annual rate over 12 months. The
  schedule splits it over `termIntervals`. The two agree when
  `termIntervals = 12` (`ScheduleAgreesWithMonthlyPayment`). This is a
  property of the code, and it is kept.

## Model

| member | source | states |
|---|---|---|
| `RealMath.PowNeg` | symfony/src/Service/LoanCalculator.php:43 | `pow(x, -n)` for a non-zero base is the reciprocal of `x^n` |
| `RealMath.Round2` | symfony/src/Service/LoanCalculator.php:48 | rounding to cents keeps the sign of its argument |
| `RealMath.Round2IsNearestCent` | symfony/src/Service/LoanCalculator.php:48 | `round(x, 2)` gives a whole number of cents at most half a cent from `x`; on an exact half cent, it gives the one further from zero |
| `RealMath.Round2Negate` | symfony/src/Service/LoanCalculator.php:48 | rounding is symmetric about zero, as round-half-away-from-zero is |
| `RealMath.Round2Idempotent` | symfony/src/Service/LoanCalculator.php:48 | a property of `round(x, 2)` itself: rounding an amount already rounded to cents changes nothing |
| `Annuity.BalanceAfterClosedForm` | symfony/src/Service/LoanCalculator.php:43 | after n constant payments the balance is the grown principal less the grown payments |
| `Annuity.LevelPaymentClearsLoan` | symfony/src/Service/LoanCalculator.php:43 | paying `P·r/(1-(1+r)^-n)` every period leaves exactly zero after n periods |
| `Annuity.ClearingPaymentIsUnique` | symfony/src/Service/LoanCalculator.php:43 | no other constant payment clears the loan in n periods |
| `LoanCalculator.MonthlyPayment` | symfony/src/Service/LoanCalculator.php:18-49 | fails with `InvalidTerm` exactly when the term is negative; with `InvalidRate` exactly when the term is valid and the rate is negative; with `InvalidPrincipal` exactly when both are valid and the principal is negative. Any result is non-negative. A term of 0 returns the principal unrounded, whatever the rate. A 0% rate returns the rounded straight-line payment. A positive rate returns the rounded level payment at `rate/1200` |
| `LoanCalculator.ValidatedPayment` | symfony/src/Service/LoanCalculator.php:33-48 | the computation after the checks: principal for term 0, rounded `P/n` at 0%, rounded level payment otherwise, never negative |
| `LoanCalculator.AnnuityPayment` | symfony/src/Service/LoanCalculator.php:39-43 | on a positive rate the formula is defined, equals the annuity's level payment and is non-negative |
| `LoanCalculator.Trajectory` | symfony/src/Service/LoanCalculator.php:71-88 | the loop yields one row per remaining period; the first row is one loop pass from the loan amount |
| `LoanCalculator.PaymentSchedule` | symfony/src/Service/LoanCalculator.php:60-91 | a term of 0 or less gives no rows; otherwise exactly `termInMonths` rows |
| `LoanCalculator.AmortizationLoop` | symfony/src/Service/LoanCalculator.php:66-90 | the `while` loop, appending rounded rows and carrying the unrounded balance, builds exactly the rows of the recursive definition |
| `LoanCalculator.GetPaymentSchedule` | symfony/src/Service/LoanCalculator.php:60-91 | the imperative schedule equals `PaymentSchedule` on every input where the divisions are defined |
| `ScheduleProperties.DivisionSafeForRate` | symfony/src/Service/LoanCalculator.php:72-73 | any per-period rate above -100% other than 0 keeps `1 - (1+r)^-k` non-zero for every k |
| `ScheduleProperties.DivisionSafeExactly` | symfony/src/Service/LoanCalculator.php:69-73 | for a term of at least one period, the model's domain `DivisionSafe` (`1 + r` and the line-73 divisor non-zero on every pass) holds exactly when the per-period rate is not 0, not -1, and not -2 with two or more periods |
| `ScheduleProperties.ZeroRateDividesByZero` | symfony/src/Service/LoanCalculator.php:72-73 | at 0% the divisor of line 73 is zero, so the inputs fall outside the defined domain |
| `ScheduleProperties.StepKeepsLevelPayment` | symfony/src/Service/LoanCalculator.php:72-86 | re-deriving the payment from the new balance with one period fewer gives the same payment |
| `ScheduleProperties.LastStepClears` | symfony/src/Service/LoanCalculator.php:72-76 | with one period left, the pass leaves a balance of exactly zero |
| `ScheduleProperties.StepNonNegative` | symfony/src/Service/LoanCalculator.php:72-76 | at a positive rate and a non-negative balance, all four figures are non-negative and the balance does not grow |
| `ScheduleProperties.TrajectoryRowIsStep` | symfony/src/Service/LoanCalculator.php:71-88 | row i is one pass from row i-1's unrounded balance with n-i periods left: rounding is never carried forward |
| `ScheduleProperties.PaymentIsLevel` | symfony/src/Service/LoanCalculator.php:72-73 | the re-derived payment is the same in every period: the level payment of the whole loan |
| `ScheduleProperties.BalancesFollowAnnuity` | symfony/src/Service/LoanCalculator.php:74-85 | row i's balance is what the textbook annuity leaves after i+1 level payments |
| `ScheduleProperties.TerminalBalanceIsZero` | symfony/src/Service/LoanCalculator.php:71-88 | after the last period the unrounded balance is exactly zero |
| `ScheduleProperties.TrajectoryNonNegative` | symfony/src/Service/LoanCalculator.php:71-88 | at a positive rate on a non-negative loan, every unrounded figure is non-negative and the balance never grows |
| `ScheduleProperties.ZeroLoanGivesZeroRows` | symfony/src/Service/LoanCalculator.php:71-88 | a loan of 0 runs the full term and yields rows of zeros |
| `ScheduleProperties.SchedulePaymentIsLevel` | symfony/src/Service/LoanCalculator.php:78-83 | every stored payment is the rounded level payment |
| `ScheduleProperties.ScheduleEndsAtZero` | symfony/tests/Service/LoanCalculatorTest.php:127-130 | the last stored balance is 0 |
| `ScheduleProperties.ScheduleNonNegative` | symfony/src/Service/LoanCalculator.php:78-83 | at a positive rate, a non-negative loan and at least one period a year, every stored figure is non-negative |
| `ScheduleProperties.ScheduleAgreesWithMonthlyPayment` | symfony/tests/Service/LoanCalculatorTest.php:134-140 | at 12 periods a year, every stored payment, the last one included, equals `getMonthlyPayment` on the same inputs |
| `PaymentProperties.MonthlyPaymentIsRoundedClearingPayment` | symfony/src/Service/LoanCalculator.php:39-48 | at a positive rate, the result is the rounded value of any constant monthly payment that clears the loan in `term` months |
| `PaymentProperties.MonthlyPaymentClearsLoan` | symfony/src/Service/LoanCalculator.php:39-48 | the unrounded amount behind the result clears the loan exactly |
| `PaymentProperties.MonthlyPaymentTestCases` | symfony/tests/Service/LoanCalculatorTest.php:24-60 | 1000 at 0% over 10 gives 100; a term of 0 gives 1000 at 10% and at 0%; a negative principal, rate or term gives its own error |
| `ValidatedSchedule.StraightLineRows` | symfony/tests/Service/LoanCalculatorTest.php:88-89 | a 0% repayment pays the same amount every period, all principal, and row i closes at the loan less i+1 payments |
| `ValidatedSchedule.StraightLineInterestFree` | symfony/tests/Service/LoanCalculatorTest.php:88-89 | a 0% repayment accrues no interest |
| `ValidatedSchedule.TotalInterestIsPaymentsLessPrincipal` | symfony/src/Controller/DefaultController.php:144-145 | the total interest the caller reads is n level payments less the loan amount |
| `ValidatedSchedule.ZeroRateResult` | symfony/tests/Service/LoanCalculatorTest.php:88-89 | at 0%, n rows each paying `round(P/n, 2)` of pure principal, no interest, closing at 0 |
| `ValidatedSchedule.PositiveRateResult` | symfony/src/Service/LoanCalculator.php:66-90 | at a positive rate, the rows are those of the PHP loop, close at 0, and their interest totals n level payments less the loan |
| `ValidatedSchedule.ComputeSchedule` | symfony/tests/Service/LoanCalculatorTest.php:85-89 | corrected generator. It fails with `InvalidTerm` exactly for a term of 0 or less. It fails with `InvalidRate` exactly for a valid term and a negative rate. It fails with `InvalidPrincipal` exactly for a valid term and rate and a principal of 0 or less. Otherwise it returns `term` rows whose last balance is 0. At a positive rate the rows are the as-written schedule's. At 0% every payment is `round(P/n, 2)` and there is no interest |
| `ValidatedSchedule.ProviderRowsAsWritten` | symfony/tests/Service/LoanCalculatorTest.php:86-89 | as written, term 0 gives no rows, a loan of 0 gives twelve zero rows, and 0% is outside the defined domain |
| `ValidatedSchedule.ProviderRowsCorrected` | symfony/tests/Service/LoanCalculatorTest.php:86-89 | corrected, term 0 fails with `InvalidTerm`, a loan of 0 fails with `InvalidPrincipal`, and 1000 at 0% over 12 gives twelve payments of 83.33 |

## Left out

- The controller (`DefaultController`) is out: form handling, routing, Twig rendering and Dompdf export are framework and I/O plumbing.
- `validateLoanParameters` is out: the maximum-amount, minimum-income and payment/income-ratio rules depend on the `LoanParameter` service, which is not part of this model, and on exception-swallowing control flow.
- IEEE-754 behaviour is out. This covers float drift, the precision of PHP `pow`, PHP `round`'s pre-rounding correction, and whether a drifted balance rounds to exactly 0. Exact-real equalities stand in for the tests' float comparisons.
- PaymentProperties.MonthlyPaymentTestCases: omits the test's `13.22` (1000 at 10% over 120 months) and `212.47` (10000 at 10% over 60 months). Checking them needs exact powers `(121/120)^120` and `(121/120)^60`, whose rationals are too large for the solver.
- LoanCalculator.PaymentSchedule: the precondition excludes `termIntervals = 0`, a 0% per-period rate, and a -200% per-period rate with two or more periods. On these the code divides by zero (line 69 or line 73). PHP 7 emits a warning and yields NAN (0/0) or INF, and PHP 8 throws `DivisionByZeroError`; the model promises nothing there.
- LoanCalculator.PaymentSchedule: the precondition also excludes a per-period rate of exactly -100%, where the PHP does not fail. There `pow(0, -k)` is INF, so `$pmtAmount` is -INF and line 73 divides by it. The first row is then (0, -L, L, 0) for a loan L, and every later row is zeros. Reproducing this needs IEEE infinities, which the exact-real model does not have.
- PHP type juggling is out: a float loan amount passed to the `int` principal of `getMonthlyPayment`, and integer versus float results of `/`. The model takes the principal as an integer and divides exactly.
- The schedule's record is a datatype with four named fields, not a PHP associative array.

## Findings

| source | as written | input that shows it | evidently intended | confidence | as-written member | corrected member |
|---|---|---|---|---|---|---|
| symfony/src/Service/LoanCalculator.php:72-73 | at a 0% rate `pmtAmount` is `1 - pow(1, -n) = 0` and the next line divides by it (the TODO on line 58 admits this) | `getPaymentSchedule(1000, 0, 12)` | the test's data provider (LoanCalculatorTest.php:88-89) expects a 0% loan to be handled: straight-line payments of `round(1000/12, 2)` | high; not executed | `ScheduleProperties.ZeroRateDividesByZero` | `ValidatedSchedule.ComputeSchedule` |
| symfony/src/Service/LoanCalculator.php:66-71 | no input checks: a term of 0 skips the loop and returns no rows, and a loan of 0 goes through the loop and returns rows of zeros | `getPaymentSchedule(1000, 10, 0)` and `getPaymentSchedule(0, 10, 12)` | the data provider (LoanCalculatorTest.php:86-87) expects both to throw | high; not executed | `ValidatedSchedule.ProviderRowsAsWritten` | `ValidatedSchedule.ComputeSchedule` |

The corrected generator also returns the total interest beside the rows. The
controller reads `['interest']` and `['schedule']` from the schedule
(DefaultController.php:144-145), but the PHP returns a bare list of rows.
The corrected generator checks the rate as `getMonthlyPayment` does, so a
negative rate gives `InvalidRate`. Its term and principal checks reject 0,
as the tests expect.
