/**
 * The loan amortisation engine: the annuity payment formula and the month-by-month
 * schedule, over exact real arithmetic.
 */
module Calculator {
  import opened Wrappers

  /** The only way the engine fails: the annuity formula divides by `(1 + r)^n - 1`. */
  datatype CalcError = ZeroDivision

  /** One line of the schedule, with every amount already passed through the rounding function. */
  datatype PaymentRecord = PaymentRecord(
    id: nat,
    payment: real,
    interestPayment: real,
    principalPayment: real,
    remainingBalance: real)

  /** What the schedule computation returns: total paid, overpayment and the records. */
  datatype CreditDetails = CreditDetails(totalPayment: real, overpayment: real, payments: seq<PaymentRecord>)

  /** `x` raised to the power `n`. */
  function Pow(x: real, n: nat): real
  {
    if n == 0 then 1.0 else x * Pow(x, n - 1)
  }

  /** The annual percentage rate converted to a monthly fraction. */
  function MonthlyRate(annualRate: real): (r: real)
    ensures 1200.0 * r == annualRate
    ensures r > 0.0 <==> annualRate > 0.0
  {
    annualRate / 12.0 / 100.0
  }

  /**
   * The annuity payment `amount * r * (1+r)^n / ((1+r)^n - 1)`, or the division by zero the
   * formula runs into when `(1+r)^n == 1`.
   */
  function MonthlyPayment(amount: real, annualRate: real, months: nat): (res: Result<real, CalcError>)
    ensures res.Failure? <==> Pow(1.0 + MonthlyRate(annualRate), months) == 1.0
  {
    var r := MonthlyRate(annualRate);
    var growth := Pow(1.0 + r, months);
    if growth - 1.0 == 0.0 then Failure(ZeroDivision)
    else Success(amount * r * growth / (growth - 1.0))
  }

  /** One month of the recurrence: interest is added to the balance and the payment taken off. */
  function NextBalance(b: real, r: real, p: real): real
  {
    b + b * r - p
  }

  /** The outstanding balance after `k` months of the recurrence `b := b + b * r - p`. */
  function Balance(amount: real, r: real, p: real, k: nat): real
  {
    if k == 0 then amount else NextBalance(Balance(amount, r, p, k - 1), r, p)
  }

  /** Interest charged in month `month` (1-based): the previous balance times the monthly rate. */
  function Interest(amount: real, r: real, p: real, month: nat): real
    requires month >= 1
  {
    Balance(amount, r, p, month - 1) * r
  }

  /** The part of the payment that goes to the principal in month `month` (1-based). */
  function Principal(amount: real, r: real, p: real, month: nat): real
    requires month >= 1
  {
    p - Interest(amount, r, p, month)
  }

  /**
   * The record written for month `month` when the balance before it is `b`: the payment, the
   * interest `b * r`, the principal part and the new balance, each rounded.
   */
  function MonthRecord(month: nat, b: real, r: real, p: real, round2: real -> real): PaymentRecord
  {
    PaymentRecord(month, round2(p), round2(b * r), round2(p - b * r), round2(NextBalance(b, r, p)))
  }

  /** The record the schedule holds for month `month` (1-based). */
  function ScheduledRecord(amount: real, r: real, p: real, round2: real -> real, month: nat): PaymentRecord
    requires month >= 1
  {
    MonthRecord(month, Balance(amount, r, p, month - 1), r, p, round2)
  }

  /** The records of the first `months` months, in order. */
  function Schedule(amount: real, r: real, p: real, round2: real -> real, months: nat): seq<PaymentRecord>
  {
    if months == 0 then []
    else Schedule(amount, r, p, round2, months - 1) + [ScheduledRecord(amount, r, p, round2, months)]
  }

  /** The running total of payments after `k` months: `p` added once per month. */
  function TotalPaid(p: real, k: nat): real
  {
    if k == 0 then 0.0 else TotalPaid(p, k - 1) + p
  }

  /** Sum of the principal parts of the first `k` months. */
  function PrincipalPaid(amount: real, r: real, p: real, k: nat): real
  {
    if k == 0 then 0.0 else PrincipalPaid(amount, r, p, k - 1) + Principal(amount, r, p, k)
  }

  // ---------------------------------------------------------------------------------------------
  // The payment formula

  /**
   * Whenever it is defined, the payment `p` solves the annuity equation
   * `p * ((1+r)^n - 1) == A * r * (1+r)^n`.
   */
  lemma PaymentEquation(amount: real, annualRate: real, months: nat)
    requires MonthlyPayment(amount, annualRate, months).Success?
    ensures var growth := Pow(1.0 + MonthlyRate(annualRate), months);
      MonthlyPayment(amount, annualRate, months).value * (growth - 1.0) == amount * MonthlyRate(annualRate) * growth
  {
  }

  lemma {:induction false} PowOfOne(n: nat)
    ensures Pow(1.0, n) == 1.0
  {
    if n > 0 { PowOfOne(n - 1); }
  }

  lemma {:induction false} PowAboveOne(x: real, n: nat)
    requires x > 1.0 && n >= 1
    ensures Pow(x, n) > 1.0
  {
    if n > 1 {
      PowAboveOne(x, n - 1);
      assert x * Pow(x, n - 1) > 1.0 * Pow(x, n - 1);
    }
  }

  lemma {:induction false} PowPositive(x: real, n: nat)
    requires x > 0.0
    ensures Pow(x, n) > 0.0
  {
    if n > 0 {
      PowPositive(x, n - 1);
      assert x * Pow(x, n - 1) > 0.0;
    }
  }

  lemma NonPositiveTimesPositive(x: real, y: real)
    requires x <= 0.0 && y > 0.0
    ensures x * y <= 0.0
  {
  }

  /** A term of zero months or a zero rate makes the formula divide by zero. */
  lemma PaymentUndefined(amount: real, annualRate: real, months: nat)
    requires months == 0 || annualRate == 0.0
    ensures MonthlyPayment(amount, annualRate, months) == Failure(ZeroDivision)
  {
    if annualRate == 0.0 { PowOfOne(months); }
  }

  /** With a positive rate and at least one month the payment is defined. */
  lemma PaymentDefined(amount: real, annualRate: real, months: nat)
    requires annualRate > 0.0 && months >= 1
    ensures MonthlyPayment(amount, annualRate, months).Success?
  {
    PowAboveOne(1.0 + MonthlyRate(annualRate), months);
  }

  /** A positive amount at a positive rate gives a payment above the first month's interest. */
  lemma PaymentExceedsFirstInterest(amount: real, annualRate: real, months: nat)
    requires amount > 0.0 && annualRate > 0.0 && months >= 1
    ensures MonthlyPayment(amount, annualRate, months).Success?
    ensures MonthlyPayment(amount, annualRate, months).value > amount * MonthlyRate(annualRate) > 0.0
  {
    var r := MonthlyRate(annualRate);
    var growth := Pow(1.0 + r, months);
    PowAboveOne(1.0 + r, months);
    PaymentEquation(amount, annualRate, months);
    var p := MonthlyPayment(amount, annualRate, months).value;
    assert p * (growth - 1.0) == amount * r * growth;
    assert amount * r > 0.0;
    var excess, denominator := p - amount * r, growth - 1.0;
    assert excess * denominator == amount * r;
    if excess <= 0.0 {
      NonPositiveTimesPositive(excess, denominator);
      assert false;
    }
  }

  /** 100000 borrowed at 12% for 12 months: the payment rounds to 8884.88 to the cent. */
  lemma TwelveMonthExample()
    ensures MonthlyPayment(100000.0, 12.0, 12).Success?
    ensures 8884.875 <= MonthlyPayment(100000.0, 12.0, 12).value < 8884.885
  {
    assert MonthlyRate(12.0) == 0.01;
    assert Pow(1.01, 1) == 1.01;
    assert Pow(1.01, 2) == 1.0201;
    assert Pow(1.01, 3) == 1.030301;
    assert Pow(1.01, 4) == 1.04060401;
    assert Pow(1.01, 5) == 1.0510100501;
    assert Pow(1.01, 6) == 1.061520150601;
    assert Pow(1.01, 7) == 1.07213535210701;
    assert Pow(1.01, 8) == 1.0828567056280801;
    assert Pow(1.01, 9) == 1.093685272684360901;
    assert Pow(1.01, 10) == 1.10462212541120451001;
    assert Pow(1.01, 11) == 1.1156683466653165551101;
    assert Pow(1.01, 12) == 1.126825030131969720661201;
    var p := MonthlyPayment(100000.0, 12.0, 12).value;
    assert p * 0.126825030131969720661201 == 1126.825030131969720661201;
  }

  // ---------------------------------------------------------------------------------------------
  // The balance recurrence

  /**
   * The closed form `r * b == A*r*q - p*(q - 1)` relating a balance `b` to the growth factor `q`
   * reached after the same number of months.
   */
  predicate ClosedForm(a: real, r: real, p: real, b: real, q: real)
  {
    r * b == a * r * q - p * (q - 1.0)
  }

  /** One month of the recurrence, together with one more factor `1 + r`, keeps the closed form. */
  lemma ClosedFormStep(a: real, r: real, p: real, b: real, q: real)
    requires ClosedForm(a, r, p, b, q)
    ensures ClosedForm(a, r, p, NextBalance(b, r, p), (1.0 + r) * q)
  {
    calc {
      r * (b + b * r - p);
      (1.0 + r) * (r * b) - r * p;
      (1.0 + r) * (a * r * q - p * (q - 1.0)) - r * p;
    }
  }

  /** The principal-part law `p - r * b == q * (p - A*r)` for a balance `b` and growth factor `q`. */
  predicate GrowthLaw(a: real, r: real, p: real, b: real, q: real)
  {
    p - r * b == q * (p - a * r)
  }

  /** One month of the recurrence, together with one more factor `1 + r`, keeps the growth law. */
  lemma GrowthStep(a: real, r: real, p: real, b: real, q: real)
    requires GrowthLaw(a, r, p, b, q)
    ensures GrowthLaw(a, r, p, NextBalance(b, r, p), (1.0 + r) * q)
  {
    calc {
      p - r * (b + b * r - p);
      (1.0 + r) * (p - r * b);
    }
  }

  /** The closed form holds after every number of months. */
  lemma {:induction false} ClosedFormHolds(amount: real, r: real, p: real, k: nat)
    ensures ClosedForm(amount, r, p, Balance(amount, r, p, k), Pow(1.0 + r, k))
  {
    if k > 0 {
      ClosedFormHolds(amount, r, p, k - 1);
      ClosedFormStep(amount, r, p, Balance(amount, r, p, k - 1), Pow(1.0 + r, k - 1));
    }
  }

  /** Closed form of the balance, multiplied through by `r`: `r * B_k == A*r*q^k - p*(q^k - 1)`. */
  lemma {:induction false} BalanceClosedForm(amount: real, r: real, p: real, k: nat)
    ensures r * Balance(amount, r, p, k) == amount * r * Pow(1.0 + r, k) - p * (Pow(1.0 + r, k) - 1.0)
  {
    ClosedFormHolds(amount, r, p, k);
  }

  /** The growth law holds after every number of months. */
  lemma {:induction false} GrowthLawHolds(amount: real, r: real, p: real, k: nat)
    ensures GrowthLaw(amount, r, p, Balance(amount, r, p, k), Pow(1.0 + r, k))
  {
    if k > 0 {
      GrowthLawHolds(amount, r, p, k - 1);
      GrowthStep(amount, r, p, Balance(amount, r, p, k - 1), Pow(1.0 + r, k - 1));
    }
  }

  /** The principal part grows geometrically: `p - r * B_k == (1+r)^k * (p - A*r)`. */
  lemma {:induction false} PrincipalGrowth(amount: real, r: real, p: real, k: nat)
    ensures p - r * Balance(amount, r, p, k) == Pow(1.0 + r, k) * (p - amount * r)
  {
    GrowthLawHolds(amount, r, p, k);
  }

  /** Over exact arithmetic the annuity payment pays the loan off exactly at the end of the term. */
  lemma BalanceAtEndOfTerm(amount: real, annualRate: real, months: nat)
    requires MonthlyPayment(amount, annualRate, months).Success?
    ensures Balance(amount, MonthlyRate(annualRate), MonthlyPayment(amount, annualRate, months).value, months) == 0.0
  {
    var r := MonthlyRate(annualRate);
    var p := MonthlyPayment(amount, annualRate, months).value;
    BalanceClosedForm(amount, r, p, months);
    PaymentEquation(amount, annualRate, months);
    if annualRate == 0.0 {
      PaymentUndefined(amount, annualRate, months);
      assert false;
    }
    assert r != 0.0;
  }

  /** Each month interest plus principal is the payment and the balance falls by the principal. */
  lemma MonthSplit(amount: real, r: real, p: real, month: nat)
    requires month >= 1
    ensures Interest(amount, r, p, month) + Principal(amount, r, p, month) == p
    ensures Interest(amount, r, p, month) == Balance(amount, r, p, month - 1) * r
    ensures Balance(amount, r, p, month) == Balance(amount, r, p, month - 1) - Principal(amount, r, p, month)
  {
  }

  /**
   * For a positive amount and rate the principal part is positive every month, so the balance
   * strictly decreases.
   */
  lemma PrincipalPositive(amount: real, annualRate: real, months: nat, month: nat)
    requires amount > 0.0 && annualRate > 0.0 && months >= 1 && month >= 1
    ensures MonthlyPayment(amount, annualRate, months).Success?
    ensures Principal(amount, MonthlyRate(annualRate), MonthlyPayment(amount, annualRate, months).value, month) > 0.0
    ensures Balance(amount, MonthlyRate(annualRate), MonthlyPayment(amount, annualRate, months).value, month)
          < Balance(amount, MonthlyRate(annualRate), MonthlyPayment(amount, annualRate, months).value, month - 1)
  {
    var r := MonthlyRate(annualRate);
    PaymentExceedsFirstInterest(amount, annualRate, months);
    var p := MonthlyPayment(amount, annualRate, months).value;
    PrincipalGrowth(amount, r, p, month - 1);
    PowPositive(1.0 + r, month - 1);
    assert Pow(1.0 + r, month - 1) * (p - amount * r) > 0.0;
  }

  /** The balance is strictly decreasing over the whole schedule. */
  lemma {:induction false} BalanceDecreasing(amount: real, annualRate: real, months: nat, i: nat, j: nat)
    requires amount > 0.0 && annualRate > 0.0 && months >= 1 && i < j
    ensures MonthlyPayment(amount, annualRate, months).Success?
    ensures Balance(amount, MonthlyRate(annualRate), MonthlyPayment(amount, annualRate, months).value, j)
          < Balance(amount, MonthlyRate(annualRate), MonthlyPayment(amount, annualRate, months).value, i)
  {
    PrincipalPositive(amount, annualRate, months, j);
    if i < j - 1 {
      BalanceDecreasing(amount, annualRate, months, i, j - 1);
    }
  }

  /** Within the term the balance stays between zero and the amount, and is zero only at the end. */
  lemma BalanceWithinTerm(amount: real, annualRate: real, months: nat, k: nat)
    requires amount > 0.0 && annualRate > 0.0 && months >= 1 && k <= months
    ensures MonthlyPayment(amount, annualRate, months).Success?
    ensures var b := Balance(amount, MonthlyRate(annualRate), MonthlyPayment(amount, annualRate, months).value, k);
      0.0 <= b <= amount && (b == 0.0 <==> k == months)
  {
    PaymentDefined(amount, annualRate, months);
    BalanceAtEndOfTerm(amount, annualRate, months);
    if k < months { BalanceDecreasing(amount, annualRate, months, k, months); }
    if 0 < k { BalanceDecreasing(amount, annualRate, months, 0, k); }
  }

  /** The principal parts of the first `k` months add up to what the balance has fallen by. */
  lemma {:induction false} PrincipalPaidTelescopes(amount: real, r: real, p: real, k: nat)
    ensures PrincipalPaid(amount, r, p, k) == amount - Balance(amount, r, p, k)
  {
    if k > 0 { PrincipalPaidTelescopes(amount, r, p, k - 1); }
  }

  /** Over the whole term the principal parts add up to exactly the amount borrowed. */
  lemma PrincipalRepaid(amount: real, annualRate: real, months: nat)
    requires MonthlyPayment(amount, annualRate, months).Success?
    ensures PrincipalPaid(amount, MonthlyRate(annualRate), MonthlyPayment(amount, annualRate, months).value, months) == amount
  {
    BalanceAtEndOfTerm(amount, annualRate, months);
    PrincipalPaidTelescopes(amount, MonthlyRate(annualRate), MonthlyPayment(amount, annualRate, months).value, months);
  }

  // ---------------------------------------------------------------------------------------------
  // The schedule

  /**
   * What the schedule loop has built after `k` months: the first `k` records, the balance after
   * month `k` and `k` payments in total.
   */
  ghost predicate ScheduleSoFar(amount: real, r: real, p: real, round2: real -> real, k: nat,
                                payments: seq<PaymentRecord>, balance: real, total: real)
  {
    && payments == Schedule(amount, r, p, round2, k)
    && balance == Balance(amount, r, p, k)
    && total == TotalPaid(p, k)
  }

  /**
   * One pass of the loop body: from the balance `b` before month `month` it computes the interest,
   * the principal part and the new balance, and appends their record. This extends what has been
   * built by exactly the record of that month.
   */
  lemma MonthStep(amount: real, r: real, p: real, round2: real -> real, month: nat,
                  payments: seq<PaymentRecord>, b: real, total: real,
                  interest: real, principal: real, newBalance: real)
    requires month >= 1 && ScheduleSoFar(amount, r, p, round2, month - 1, payments, b, total)
    requires interest == b * r && principal == p - interest && newBalance == b + interest - p
    ensures ScheduleSoFar(amount, r, p, round2, month,
      payments + [PaymentRecord(month, round2(p), round2(interest), round2(principal), round2(newBalance))],
      newBalance, total + p)
  {
    assert PaymentRecord(month, round2(p), round2(interest), round2(principal), round2(newBalance))
        == MonthRecord(month, b, r, p, round2);
  }

  /** The total paid after `k` months is `k` times the payment. */
  lemma {:induction false} TotalPaidIsProduct(p: real, k: nat)
    ensures TotalPaid(p, k) == k as real * p
  {
    if k > 0 {
      TotalPaidIsProduct(p, k - 1);
      assert (k - 1) as real * p + p == k as real * p;
    }
  }

  /** The schedule has one record per month, and the record at index `i` is the one for month `i + 1`. */
  lemma {:induction false} ScheduleShape(amount: real, r: real, p: real, round2: real -> real, months: nat)
    ensures |Schedule(amount, r, p, round2, months)| == months
    ensures forall i :: 0 <= i < months ==>
      Schedule(amount, r, p, round2, months)[i] == ScheduledRecord(amount, r, p, round2, i + 1)
  {
    if months > 0 {
      ScheduleShape(amount, r, p, round2, months - 1);
    }
  }

  /** With the annuity payment, the last record of the schedule shows a balance of (the rounding of) 0. */
  lemma ScheduleEndsPaidOff(amount: real, annualRate: real, months: nat, round2: real -> real)
    requires MonthlyPayment(amount, annualRate, months).Success? && months >= 1
    ensures var s := Schedule(amount, MonthlyRate(annualRate), MonthlyPayment(amount, annualRate, months).value,
                              round2, months);
      |s| == months && s[months - 1].remainingBalance == round2(0.0)
  {
    var r := MonthlyRate(annualRate);
    var p := MonthlyPayment(amount, annualRate, months).value;
    ScheduleShape(amount, r, p, round2, months);
    BalanceAtEndOfTerm(amount, annualRate, months);
  }

  /**
   * Builds the schedule month by month: interest on the outstanding balance, the split of the fixed
   * payment, the new balance, one record per month, and the running total of payments.
   */
  method GetCreditDetails(amount: real, annualRate: real, months: nat, round2: real -> real)
    returns (res: Result<CreditDetails, CalcError>)
    ensures res.Failure? <==> MonthlyPayment(amount, annualRate, months).Failure?
    ensures res.Success? ==>
      res.value.payments == Schedule(amount, MonthlyRate(annualRate), MonthlyPayment(amount, annualRate, months).value, round2, months)
    ensures res.Success? ==> res.value.totalPayment == TotalPaid(MonthlyPayment(amount, annualRate, months).value, months)
    ensures res.Success? ==> res.value.overpayment == res.value.totalPayment - amount
  {
    var monthlyRate := MonthlyRate(annualRate);
    var totalPayment := 0.0;
    var payments := [];
    var remainingBalance := amount;

    var paymentResult := MonthlyPayment(amount, annualRate, months);
    if paymentResult.Failure? {
      return Failure(paymentResult.error);
    }
    var monthlyPayment := paymentResult.value;

    for month := 1 to months + 1
      invariant ScheduleSoFar(amount, monthlyRate, monthlyPayment, round2, month - 1,
                              payments, remainingBalance, totalPayment)
    {
      ghost var before := (payments, remainingBalance);
      var interestPayment := remainingBalance * monthlyRate;
      var principalPayment := monthlyPayment - interestPayment;
      remainingBalance := remainingBalance + interestPayment - monthlyPayment;
      payments := payments + [PaymentRecord(
        month,
        round2(monthlyPayment),
        round2(interestPayment),
        round2(principalPayment),
        round2(remainingBalance))];
      MonthStep(amount, monthlyRate, monthlyPayment, round2, month, before.0, before.1, totalPayment,
                interestPayment, principalPayment, remainingBalance);
      totalPayment := totalPayment + monthlyPayment;
    }
    assert ScheduleSoFar(amount, monthlyRate, monthlyPayment, round2, months, payments, remainingBalance, totalPayment);
    var overpayment := totalPayment - amount;
    return Success(CreditDetails(totalPayment, overpayment, payments));
  }
}
