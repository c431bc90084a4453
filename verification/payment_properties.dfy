/** What `getMonthlyPayment` promises beyond its own contract: on a positive
    rate it is the rounded value of the one constant payment that clears the
    loan, and it gives the answers its test expects. */
module PaymentProperties {
  import opened RealMath
  import opened Annuity
  import opened LoanCalculator

  /** Whatever constant monthly payment clears the loan in `term` months at
      `interestRate / 12` percent a month, `getMonthlyPayment` returns it
      rounded to cents. */
  lemma MonthlyPaymentIsRoundedClearingPayment(principal: int, interestRate: real, term: int, payment: real)
    requires principal >= 0 && interestRate > 0.0 && term >= 1
    requires BalanceAfter(principal as real, interestRate / (12.0 * 100.0), payment, term) == 0.0
    ensures MonthlyPayment(principal, interestRate, term) == Success(Round2(payment))
  {
    var rate := interestRate / (12.0 * 100.0);
    assert ValidatedPayment(principal, interestRate, term) == Round2(LevelPayment(principal as real, rate, term));
    ClearingPaymentIsUnique(principal as real, rate, payment, term);
  }

  /** The monthly payment does clear the loan up to rounding: paying the
      unrounded amount it was rounded from leaves nothing. */
  lemma MonthlyPaymentClearsLoan(principal: int, interestRate: real, term: int)
    requires principal >= 0 && interestRate > 0.0 && term >= 1
    ensures FactorNonZero(interestRate / (12.0 * 100.0), term)
    ensures var exact := LevelPayment(principal as real, interestRate / (12.0 * 100.0), term);
            MonthlyPayment(principal, interestRate, term) == Success(Round2(exact)) &&
            BalanceAfter(principal as real, interestRate / (12.0 * 100.0), exact, term) == 0.0
  {
    assert ValidatedPayment(principal, interestRate, term)
        == Round2(LevelPayment(principal as real, interestRate / (12.0 * 100.0), term));
    LevelPaymentClearsLoan(principal as real, interestRate / (12.0 * 100.0), term);
  }

  /** The cases of `testMonthlyPayment` that do not need a 120-fold power:
      a 0% rate, a term of 0 with and without interest, and one input of each
      error kind. */
  lemma MonthlyPaymentTestCases()
    ensures MonthlyPayment(1000, 0.0, 10) == Success(100.0)
    ensures MonthlyPayment(1000, 10.0, 0) == Success(1000.0)
    ensures MonthlyPayment(1000, 0.0, 0) == Success(1000.0)
    ensures MonthlyPayment(-5000, 5.0, 10) == Failure(InvalidPrincipal)
    ensures MonthlyPayment(5000, -5.0, 10) == Failure(InvalidRate)
    ensures MonthlyPayment(5000, 5.0, -10) == Failure(InvalidTerm)
  {
    assert Round2(1000.0 / 10.0) == 100.0;
  }
}
