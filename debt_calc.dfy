/** `calculate_debt_payoff` (tools/debt_calc.py): a chain of guards that picks
    one of five result shapes for a debt with a balance, an annual rate and a
    monthly payment, and the payoff fields derived from the month count.

    Numbers are exact reals. The closed-form step
    `ceil(-log(1 - r*P/M) / log(1 + r))` is modelled by its exact meaning:
    the least number of monthly payments after which the amortised balance is
    no longer positive (lemma `PayoffMonthsIsCeilOfLogFormula` shows that this
    is the least n with (1 + r)^n * (1 - r*P/M) >= 1). */
module DebtCalc {
  import opened Wrappers

  /** The base year the payoff year is counted from. */
  const BaseYear: int := 2025

  const PaymentNotPositive: string := "Monthly payment must be positive"
  const PaymentBelowInterest: string := "Payment doesn't cover monthly interest"
  const UnableToCalculate: string := "Unable to calculate - check inputs"
  const StatusAlreadyPaid: string := "already_paid"
  const StatusOnTrack: string := "on_track"
  const StatusUnderwater: string := "underwater"

  /** The five dictionaries the function returns, one constructor per key
      set. `Failed` is both the invalid-payment and the unable-to-calculate
      dictionary (keys "error" and "months_remaining"). */
  datatype Payoff =
    | AlreadyPaid(monthsRemaining: int, totalInterest: real, payoffYear: int, status: string)
    | Failed(error: string, monthsRemaining: int)
    | InterestFree(monthsRemaining: int, totalInterest: real, payoffYear: int,
                   payoffMonth: int, status: string)
    | Underwater(error: string, monthlyInterest: real, monthlyPayment: real,
                 shortfall: real, monthsRemaining: int, status: string)
    | Amortized(monthsRemaining: int, yearsRemaining: real, totalInterest: real,
                totalPaid: real, payoffYear: int, payoffMonth: int, status: string)
  {
    /** Results whose status is "on_track". */
    predicate OnTrack() {
      InterestFree? || Amortized?
    }
  }

  function Pow(x: real, n: nat): real {
    if n == 0 then 1.0 else x * Pow(x, n - 1)
  }

  /** Python's `math.ceil` on an exact real. */
  function Ceil(x: real): (n: int)
    ensures n as real - 1.0 < x <= n as real
  {
    -((-x).Floor)
  }

  /** The integer nearest to `y`, ties to the even one. */
  function RoundHalfEven(y: real): (n: int)
    ensures -0.5 <= n as real - y <= 0.5
    ensures y >= 0.0 ==> n >= 0
    ensures y - y.Floor as real == 0.5 ==> n % 2 == 0
  {
    var f := y.Floor;
    var d := y - f as real;
    if d < 0.5 then f else if d > 0.5 then f + 1 else if f % 2 == 0 then f else f + 1
  }

  /** Python's `round(x, places)` on an exact real: to the nearest multiple
      of 10^-places, ties to the even multiple. Rounding x to `places`
      decimals is rounding 10x to one decimal fewer, scaled back. */
  function Round(x: real, places: nat): (r: real)
    ensures x >= 0.0 ==> r >= 0.0
    decreases places
  {
    if places == 0 then RoundHalfEven(x) as real else Round(x * 10.0, places - 1) / 10.0
  }

  /** `r` lies within half a unit of `x`, in units of 1/`scale`. */
  predicate WithinHalfUnit(r: real, x: real, scale: real) {
    -0.5 <= (r - x) * scale <= 0.5
  }

  /** `Round` moves its argument by at most half a unit in the last place. */
  lemma {:induction false} RoundIsNearest(x: real, places: nat)
    ensures WithinHalfUnit(Round(x, places), x, Pow(10.0, places))
    decreases places
  {
    if places > 0 {
      RoundIsNearest(x * 10.0, places - 1);
      ShiftOnePlace(x, Round(x * 10.0, places - 1), Pow(10.0, places - 1),
                    Round(x, places), Pow(10.0, places));
    }
  }

  /** One decimal place of `RoundIsNearest`: with y the rounding of 10x to
      one place fewer, y/10 is as close to x in units of 10*s as y is to
      10x in units of s. */
  lemma ShiftOnePlace(x: real, y: real, s: real, r: real, s': real)
    requires WithinHalfUnit(y, x * 10.0, s)
    requires r == y / 10.0 && s' == 10.0 * s
    ensures WithinHalfUnit(r, x, s')
  {
    assert (r - x) * s' == (y - x * 10.0) * s;
  }

  /** The balance left after `n` monthly payments of `payment` when `rate`
      accrues on the balance each month. */
  function Balance(principal: real, rate: real, payment: real, n: nat): real {
    if n == 0 then principal
    else Balance(principal, rate, payment, n - 1) * (1.0 + rate) - payment
  }

  /** The conditions under which the closed-form branch is reached: a
      positive balance, a positive payment, a positive monthly rate, and a
      payment above the first month's interest. */
  predicate Amortizable(principal: real, rate: real, payment: real) {
    principal > 0.0 && payment > 0.0 && rate > 0.0 && payment > principal * rate
  }

  /** The conditions under which the underwater branch is reached: a
      positive balance, a positive payment, a positive monthly rate, and a
      payment no larger than the first month's interest. */
  predicate InterestExceedsPayment(principal: real, rate: real, payment: real) {
    principal > 0.0 && payment > 0.0 && rate > 0.0 && payment <= principal * rate
  }

  /** Each payment removes at least the margin by which it exceeds the
      first month's interest, so the balance falls at least linearly. */
  lemma {:induction false} BalanceFallsLinearly(principal: real, rate: real, payment: real, n: nat)
    requires Amortizable(principal, rate, payment)
    ensures Balance(principal, rate, payment, n)
            <= principal - n as real * (payment - principal * rate)
  {
    if n > 0 {
      var d := payment - principal * rate;
      BalanceFallsLinearly(principal, rate, payment, n - 1);
      var b := Balance(principal, rate, payment, n - 1);
      assert (n - 1) as real * d >= 0.0;
      assert b * rate <= principal * rate;
      assert b * (1.0 + rate) == b + b * rate;
      assert n as real * d == (n - 1) as real * d + d;
    }
  }

  /** A month count by which the balance is certainly paid off. */
  function Horizon(principal: real, rate: real, payment: real): int
    requires Amortizable(principal, rate, payment)
  {
    (principal / (payment - principal * rate)).Floor + 1
  }

  /** The first month at or after `n` with a non-positive balance. */
  function PaidOffFrom(principal: real, rate: real, payment: real, n: nat): (m: nat)
    requires Amortizable(principal, rate, payment)
    ensures n <= m
    decreases Horizon(principal, rate, payment) - n
  {
    if Balance(principal, rate, payment, n) <= 0.0 then n
    else
      BeforeHorizon(principal, rate, payment, n);
      PaidOffFrom(principal, rate, payment, n + 1)
  }

  /** A month whose balance is still positive lies before the horizon. */
  lemma BeforeHorizon(principal: real, rate: real, payment: real, n: nat)
    requires Amortizable(principal, rate, payment)
    requires Balance(principal, rate, payment, n) > 0.0
    ensures n < Horizon(principal, rate, payment)
  {
    BalanceFallsLinearly(principal, rate, payment, n);
    var d := payment - principal * rate;
    assert n as real * d < principal;
    assert n as real < principal / d;
  }

  /** The month `PaidOffFrom` finds has a non-positive balance. */
  lemma {:induction false} PaidOffFromIsPaidOff(principal: real, rate: real, payment: real, n: nat)
    requires Amortizable(principal, rate, payment)
    ensures Balance(principal, rate, payment, PaidOffFrom(principal, rate, payment, n)) <= 0.0
    decreases Horizon(principal, rate, payment) - n
  {
    if Balance(principal, rate, payment, n) > 0.0 {
      BeforeHorizon(principal, rate, payment, n);
      PaidOffFromIsPaidOff(principal, rate, payment, n + 1);
    }
  }

  /** Every month from `n` up to the one `PaidOffFrom` finds still has a
      positive balance. */
  lemma {:induction false} PaidOffFromIsFirst(principal: real, rate: real, payment: real, n: nat, k: nat)
    requires Amortizable(principal, rate, payment)
    requires n <= k < PaidOffFrom(principal, rate, payment, n)
    ensures Balance(principal, rate, payment, k) > 0.0
    decreases k - n
  {
    if k > n {
      PaidOffFromIsFirst(principal, rate, payment, n + 1, k);
    }
  }

  /** The number of payments the closed-form branch reports: the first
      month whose balance is no longer positive (lemmas `PayoffMonthsIsPaidOff`
      and `PayoffMonthsIsLeast`). At least one payment is needed, since the
      principal is positive. */
  function PayoffMonths(principal: real, rate: real, payment: real): (m: nat)
    requires Amortizable(principal, rate, payment)
    ensures m >= 1
  {
    PaidOffFrom(principal, rate, payment, 0)
  }

  /** After `PayoffMonths` payments the balance is no longer positive; one
      payment fewer leaves a positive balance. */
  lemma PayoffMonthsIsPaidOff(principal: real, rate: real, payment: real)
    requires Amortizable(principal, rate, payment)
    ensures var m := PayoffMonths(principal, rate, payment);
      Balance(principal, rate, payment, m) <= 0.0 && Balance(principal, rate, payment, m - 1) > 0.0
  {
    var m := PayoffMonths(principal, rate, payment);
    PaidOffFromIsPaidOff(principal, rate, payment, 0);
    PaidOffFromIsFirst(principal, rate, payment, 0, m - 1);
  }

  /** Before the payoff month the balance is positive. */
  lemma {:induction false} PayoffMonthsIsLeast(principal: real, rate: real, payment: real, k: nat)
    requires Amortizable(principal, rate, payment)
    requires k < PayoffMonths(principal, rate, payment)
    ensures Balance(principal, rate, payment, k) > 0.0
  {
    PaidOffFromIsFirst(principal, rate, payment, 0, k);
  }

  /** Whether `math.log(x)` and the division by `math.log(1 + rate)` succeed
      (no ValueError, no ZeroDivisionError). */
  predicate LogDefined(x: real, rate: real) {
    x > 0.0 && 1.0 + rate > 0.0 && 1.0 + rate != 1.0
  }

  /** The guard of `calculate_debt_payoff` that decides the result. */
  datatype Guard = NothingOwed | NoPayment | NoInterest | BelowInterest | Amortizing

  /** The guards in source order: the balance, the payment, the monthly
      rate, the payment against the first month's interest. */
  function Classify(balance: real, monthlyRate: real, monthlyPayment: real): (g: Guard)
    ensures g == NothingOwed <==> balance <= 0.0
    ensures g == NoPayment <==> balance > 0.0 && monthlyPayment <= 0.0
    ensures g == NoInterest <==> balance > 0.0 && monthlyPayment > 0.0 && monthlyRate <= 0.0
    ensures g == BelowInterest <==> InterestExceedsPayment(balance, monthlyRate, monthlyPayment)
    ensures g == Amortizing <==> Amortizable(balance, monthlyRate, monthlyPayment)
  {
    if balance <= 0.0 then NothingOwed
    else if monthlyPayment <= 0.0 then NoPayment
    else if monthlyRate <= 0.0 then NoInterest
    else if monthlyPayment <= balance * monthlyRate then BelowInterest
    else Amortizing
  }

  /** `calculate_debt_payoff(balance, annual_rate, monthly_payment)`: the
      guards in source order, each picking one result shape. Exactly one
      shape answers each input, and the month count is -1 exactly on the
      error shapes. */
  function CalculateDebtPayoff(balance: real, annualRate: real, monthlyPayment: real): (r: Payoff)
    ensures balance <= 0.0 ==> r == AlreadyPaid(0, 0.0, BaseYear, StatusAlreadyPaid)
    ensures r.Failed? <==> balance > 0.0 && monthlyPayment <= 0.0
    ensures r.Failed? ==> r == Failed(PaymentNotPositive, -1)
    ensures r.InterestFree? <==> balance > 0.0 && monthlyPayment > 0.0 && annualRate <= 0.0
    ensures r.Underwater? <==> InterestExceedsPayment(balance, annualRate / 12.0, monthlyPayment)
    ensures r.Amortized? <==> Amortizable(balance, annualRate / 12.0, monthlyPayment)
    ensures r.monthsRemaining == -1 <==> r.Failed? || r.Underwater?
    ensures r.OnTrack() ==> r.status == StatusOnTrack && r.monthsRemaining >= 1
    ensures r.OnTrack() ==>
      && 0 <= r.payoffMonth < 12
      && r.monthsRemaining == 12 * (r.payoffYear - BaseYear) + r.payoffMonth
    ensures r.InterestFree? ==>
      && r.totalInterest == 0.0
      && (r.monthsRemaining - 1) as real * monthlyPayment < balance <= r.monthsRemaining as real * monthlyPayment
    ensures r.Underwater? ==>
      && ReportsShortfall(r, balance, annualRate / 12.0, monthlyPayment)
      && r.monthlyInterest >= 0.0 && r.shortfall >= 0.0
    ensures r.Amortized? ==>
      && r.monthsRemaining == PayoffMonths(balance, annualRate / 12.0, monthlyPayment)
      && ReportsTotals(r, balance, monthlyPayment, PayoffMonths(balance, annualRate / 12.0, monthlyPayment))
      && r.totalInterest >= 0.0 && r.totalPaid >= 0.0
  {
    var monthlyRate := annualRate / 12.0;
    match Classify(balance, monthlyRate, monthlyPayment)
    case NothingOwed => AlreadyPaid(0, 0.0, BaseYear, StatusAlreadyPaid)
    case NoPayment => Failed(PaymentNotPositive, -1)
    case NoInterest => InterestFreePayoff(balance, monthlyPayment)
    case BelowInterest => UnderwaterPayoff(balance, monthlyRate, monthlyPayment)
    case Amortizing => ClosedFormPayoff(balance, monthlyRate, monthlyPayment)
  }

  /** The zero-interest branch: the month count is the number of payments
      that covers the balance (one fewer would leave part of it unpaid), and
      no interest is paid. */
  function InterestFreePayoff(balance: real, monthlyPayment: real): (r: Payoff)
    requires balance > 0.0 && monthlyPayment > 0.0
    ensures r.InterestFree? && r.status == StatusOnTrack && r.totalInterest == 0.0
    ensures r.monthsRemaining >= 1
    ensures (r.monthsRemaining - 1) as real * monthlyPayment < balance
    ensures balance <= r.monthsRemaining as real * monthlyPayment
    ensures 0 <= r.payoffMonth < 12
    ensures r.monthsRemaining == 12 * (r.payoffYear - BaseYear) + r.payoffMonth
  {
    var months := Ceil(balance / monthlyPayment);
    CeilingCoversBalance(balance, monthlyPayment, months);
    InterestFree(months, 0.0, BaseYear + months / 12, months % 12, StatusOnTrack)
  }

  /** `months` payments cover the balance and one fewer does not, when
      `months` is the ceiling of the balance over the payment. */
  lemma CeilingCoversBalance(balance: real, payment: real, months: int)
    requires payment > 0.0
    requires months as real - 1.0 < balance / payment <= months as real
    ensures (months - 1) as real * payment < balance <= months as real * payment
  {
    var q := balance / payment;
    assert q * payment == balance;
    assert (months - 1) as real * payment < q * payment;
    assert q * payment <= months as real * payment;
  }

  /** The figures of an underwater result: the first month's interest
      rounded to cents, and its excess over the payment rounded to cents. */
  predicate ReportsShortfall(r: Payoff, balance: real, monthlyRate: real, monthlyPayment: real)
    requires r.Underwater?
  {
    && r.monthlyInterest == Round(balance * monthlyRate, 2)
    && r.shortfall == Round(balance * monthlyRate - monthlyPayment, 2)
  }

  /** The branch where the payment does not exceed the first month's
      interest: no month count, and a shortfall that is never negative. */
  function UnderwaterPayoff(balance: real, monthlyRate: real, monthlyPayment: real): (r: Payoff)
    requires 0.0 < monthlyPayment <= balance * monthlyRate
    ensures r.Underwater? && r.status == StatusUnderwater && r.error == PaymentBelowInterest
    ensures r.monthsRemaining == -1 && r.monthlyPayment == monthlyPayment
    ensures ReportsShortfall(r, balance, monthlyRate, monthlyPayment)
    ensures r.monthlyInterest >= 0.0 && r.shortfall >= 0.0
  {
    var monthlyInterest := balance * monthlyRate;
    Underwater(PaymentBelowInterest, Round(monthlyInterest, 2), monthlyPayment,
               Round(monthlyInterest - monthlyPayment, 2), -1, StatusUnderwater)
  }

  /** The closed-form branch. The "Unable to calculate" return of the source
      is kept, and never taken: the logarithms are defined here. The month
      count is the exact payoff month, the payments it stands for cover the
      balance, and the totals are those of that month count, so the
      interest reported is never negative. */
  function ClosedFormPayoff(balance: real, monthlyRate: real, monthlyPayment: real): (r: Payoff)
    requires Amortizable(balance, monthlyRate, monthlyPayment)
    ensures r.Amortized? && r.status == StatusOnTrack
    ensures r.monthsRemaining == PayoffMonths(balance, monthlyRate, monthlyPayment)
    ensures ReportsTotals(r, balance, monthlyPayment, PayoffMonths(balance, monthlyRate, monthlyPayment))
    ensures r.totalInterest >= 0.0 && r.totalPaid >= 0.0
  {
    match LogMonths(balance, monthlyRate, monthlyPayment)
    case None => Failed(UnableToCalculate, -1)
    case Some(months) =>
      PaymentsCoverPrincipal(balance, monthlyRate, monthlyPayment);
      OnTrackTotals(balance, monthlyPayment, months)
  }

  /** The month count of the closed form, or `None` where the source's
      logarithms would fail; they never do once the earlier guards pass. */
  function LogMonths(balance: real, monthlyRate: real, monthlyPayment: real): (m: Option<nat>)
    requires Amortizable(balance, monthlyRate, monthlyPayment)
    ensures m == Some(PayoffMonths(balance, monthlyRate, monthlyPayment))
  {
    var logArgument := LogArgument(balance, monthlyRate, monthlyPayment);
    LogArgumentInUnitInterval(balance, monthlyRate, monthlyPayment);
    if !LogDefined(logArgument, monthlyRate) then None
    else Some(PayoffMonths(balance, monthlyRate, monthlyPayment))
  }

  /** The totals of an on-track closed-form result, from its month count:
      the amount paid is the months times the payment, the interest is that
      amount less the balance, both rounded to cents, and the years are the
      months over 12 rounded to one decimal. */
  predicate ReportsTotals(r: Payoff, balance: real, monthlyPayment: real, months: int)
    requires r.Amortized?
  {
    && r.monthsRemaining == months
    && r.totalPaid == Round(months as real * monthlyPayment, 2)
    && r.totalInterest == Round(months as real * monthlyPayment - balance, 2)
    && r.yearsRemaining == Round(months as real / 12.0, 1)
  }

  /** The fields the closed-form branch derives from a month count whose
      payments cover the balance: the amount paid is the months times the
      payment, the interest is that amount less the balance, both rounded to
      cents and never negative, the years are the months over 12 to one
      decimal, and the payoff date is the base year plus whole years, with
      the leftover months. */
  function OnTrackTotals(balance: real, monthlyPayment: real, months: nat): (r: Payoff)
    requires months as real * monthlyPayment >= balance >= 0.0
    ensures r.Amortized? && r.status == StatusOnTrack && r.monthsRemaining == months
    ensures ReportsTotals(r, balance, monthlyPayment, months)
    ensures r.totalInterest >= 0.0 && r.totalPaid >= 0.0
    ensures 0 <= r.payoffMonth < 12
    ensures r.monthsRemaining == 12 * (r.payoffYear - BaseYear) + r.payoffMonth
  {
    var totalPaid := months as real * monthlyPayment;
    var totalInterest := totalPaid - balance;
    var r := Amortized(months, Round(months as real / 12.0, 1), Round(totalInterest, 2),
                       Round(totalPaid, 2), BaseYear + months / 12, months % 12, StatusOnTrack);
    r
  }

  /** The closed-form branch reports the totals of its month count, whose
      payments cover the balance. */
  lemma ClosedFormTotals(balance: real, monthlyRate: real, monthlyPayment: real)
    requires Amortizable(balance, monthlyRate, monthlyPayment)
    ensures PayoffMonths(balance, monthlyRate, monthlyPayment) as real * monthlyPayment >= balance
    ensures ClosedFormPayoff(balance, monthlyRate, monthlyPayment)
            == OnTrackTotals(balance, monthlyPayment, PayoffMonths(balance, monthlyRate, monthlyPayment))
  {
    PaymentsCoverPrincipal(balance, monthlyRate, monthlyPayment);
  }

  /** The month count the closed-form branch reports is the first month in
      which the debt is paid off: the balance is positive after every
      earlier month and no longer positive after it. */
  lemma ReportedMonthIsFirstPaidOff(balance: real, annualRate: real, monthlyPayment: real)
    requires Amortizable(balance, annualRate / 12.0, monthlyPayment)
    ensures var r := CalculateDebtPayoff(balance, annualRate, monthlyPayment);
            var rate := annualRate / 12.0;
      && r.Amortized?
      && Balance(balance, rate, monthlyPayment, r.monthsRemaining) <= 0.0
      && forall k :: 0 <= k < r.monthsRemaining ==> Balance(balance, rate, monthlyPayment, k) > 0.0
  {
    var rate := annualRate / 12.0;
    var m := PayoffMonths(balance, rate, monthlyPayment);
    PayoffMonthsIsPaidOff(balance, rate, monthlyPayment);
    forall k | 0 <= k < m ensures Balance(balance, rate, monthlyPayment, k) > 0.0 {
      PayoffMonthsIsLeast(balance, rate, monthlyPayment, k);
    }
  }

  /** Once the earlier guards pass, the argument of the first logarithm lies
      strictly between 0 and 1 and the second logarithm's argument exceeds 1,
      so the "Unable to calculate" return cannot be reached. */
  lemma LogArgumentInUnitInterval(principal: real, rate: real, payment: real)
    requires Amortizable(principal, rate, payment)
    ensures 0.0 < LogArgument(principal, rate, payment) < 1.0
    ensures LogDefined(LogArgument(principal, rate, payment), rate)
  {
    QuotientInUnitInterval(rate * principal, payment);
  }

  lemma QuotientInUnitInterval(a: real, b: real)
    requires 0.0 < a < b
    ensures 0.0 < a / b < 1.0
  {
    var q := a / b;
    assert q * b == a;
    assert (1.0 - q) * b == b - a;
    PositiveFactor(1.0 - q, b);
  }

  lemma DivTimes(a: real, b: real)
    requires b != 0.0
    ensures (a / b) * b == a
  {
  }

  lemma PositiveFactor(x: real, y: real)
    requires y > 0.0
    ensures x * y > 0.0 ==> x > 0.0
  {
  }

  /** `r*b == r*p*q - m*(q - 1)`: with q = (1 + r)^n, the balance `b`
      after n payments of `m` on principal `p`, in closed form (scaled by r). */
  predicate ScaledClosedForm(r: real, p: real, m: real, b: real, q: real) {
    r * b == r * p * q - m * (q - 1.0)
  }

  /** The balance after n payments, in closed form. */
  lemma {:induction false} ScaledBalance(principal: real, rate: real, payment: real, n: nat)
    ensures ScaledClosedForm(rate, principal, payment, Balance(principal, rate, payment, n),
                             Pow(1.0 + rate, n))
  {
    if n > 0 {
      var b := Balance(principal, rate, payment, n - 1);
      var q := Pow(1.0 + rate, n - 1);
      assert Balance(principal, rate, payment, n) == b * (1.0 + rate) - payment;
      assert Pow(1.0 + rate, n) == (1.0 + rate) * q;
      ScaledBalance(principal, rate, payment, n - 1);
      ScaledBalanceStep(rate, principal, payment, b, q,
                        Balance(principal, rate, payment, n), Pow(1.0 + rate, n));
    }
  }

  /** The algebra of one step of `ScaledBalance`. */
  lemma ScaledBalanceStep(r: real, p: real, m: real, b: real, q: real, b': real, q': real)
    requires ScaledClosedForm(r, p, m, b, q)
    requires b' == b * (1.0 + r) - m && q' == (1.0 + r) * q
    ensures ScaledClosedForm(r, p, m, b', q')
  {
    assert r * b' == (r * b) * (1.0 + r) - r * m;
  }

  /** The balance after n payments is paid off exactly when
      (1 + r)^n * (1 - r*P/M) >= 1, that is, when
      n >= -log(1 - r*P/M) / log(1 + r). */
  lemma {:induction false} PaidOffIffPowerBound(principal: real, rate: real, payment: real, n: nat)
    requires rate > 0.0 && payment > 0.0
    ensures Balance(principal, rate, payment, n) <= 0.0
            <==> PowerBoundMet(Pow(1.0 + rate, n), LogArgument(principal, rate, payment))
  {
    ScaledBalance(principal, rate, payment, n);
    PowerBoundAlgebra(rate, principal, payment, Balance(principal, rate, payment, n), Pow(1.0 + rate, n));
  }

  /** The algebra of `PaidOffIffPowerBound`, over plain reals. */
  lemma PowerBoundAlgebra(r: real, p: real, m: real, b: real, q: real)
    requires r > 0.0 && m > 0.0
    requires ScaledClosedForm(r, p, m, b, q)
    ensures b <= 0.0 <==> PowerBoundMet(q, LogArgument(p, r, m))
  {
    var x := LogArgument(p, r, m);
    DivTimes(r * p, m);
    assert m * x == m - r * p;
    assert r * b == m * (1.0 - q * x);
    SignOfMultiple(b, r);
    SignOfMultiple(1.0 - q * x, m);
  }

  /** The argument `1 - r*P/M` of the first logarithm of the closed form. */
  function LogArgument(principal: real, rate: real, payment: real): real
    requires payment > 0.0
  {
    1.0 - rate * principal / payment
  }

  /** `q * x >= 1`: with q = (1 + r)^n and x the log argument, this is
      n >= -log(x) / log(1 + r). */
  predicate PowerBoundMet(q: real, x: real) {
    q * x >= 1.0
  }

  /** Multiplying by a positive factor keeps the sign. */
  lemma SignOfMultiple(a: real, k: real)
    requires k > 0.0
    ensures a <= 0.0 <==> k * a <= 0.0
  {
    if a > 0.0 {
      PositiveFactor(a, k);
    }
  }

  /** The power bound after `n` months at monthly rate `rate`. */
  predicate PowerBoundMetAt(rate: real, x: real, n: nat) {
    PowerBoundMet(Pow(1.0 + rate, n), x)
  }

  /** The month count of the closed-form branch is the ceiling of the
      source's formula -log(1 - r*P/M) / log(1 + r): with x = 1 - r*P/M in
      (0, 1) and q = 1 + r > 1, it is the least n with q^n * x >= 1: it
      meets the bound and no earlier month does. */
  lemma PayoffMonthsIsCeilOfLogFormula(principal: real, rate: real, payment: real)
    requires Amortizable(principal, rate, payment)
    ensures var m := PayoffMonths(principal, rate, payment);
            var x := LogArgument(principal, rate, payment);
      && 0.0 < x < 1.0
      && PowerBoundMet(Pow(1.0 + rate, m), x)
      && !PowerBoundMet(Pow(1.0 + rate, m - 1), x)
      && forall n: nat :: n < m ==> !PowerBoundMetAt(rate, x, n)
  {
    var m := PayoffMonths(principal, rate, payment);
    var x := LogArgument(principal, rate, payment);
    PayoffMonthsIsPaidOff(principal, rate, payment);
    LogArgumentInUnitInterval(principal, rate, payment);
    PaidOffIffPowerBound(principal, rate, payment, m);
    PaidOffIffPowerBound(principal, rate, payment, m - 1);
    forall n: nat | n < m ensures !PowerBoundMetAt(rate, x, n) {
      PayoffMonthsIsLeast(principal, rate, payment, n);
      PaidOffIffPowerBound(principal, rate, payment, n);
    }
  }

  /** While the balance stays positive, each month's interest is
      non-negative, so after k payments at least k*M has been paid against
      the principal: the balance is at least P - k*M. */
  lemma {:induction false} BalanceAtLeastPrincipalLessPayments(
    principal: real, rate: real, payment: real, k: nat)
    requires rate > 0.0
    requires forall j :: 0 <= j < k ==> Balance(principal, rate, payment, j) > 0.0
    ensures Balance(principal, rate, payment, k) >= principal - k as real * payment
  {
    if k > 0 {
      BalanceAtLeastPrincipalLessPayments(principal, rate, payment, k - 1);
      var b := Balance(principal, rate, payment, k - 1);
      assert b * rate >= 0.0;
      assert b * (1.0 + rate) == b + b * rate;
    }
  }

  /** In the closed-form branch the payments cover the principal: the
      month count times the payment is at least the balance. */
  lemma PaymentsCoverPrincipal(principal: real, rate: real, payment: real)
    requires Amortizable(principal, rate, payment)
    ensures PayoffMonths(principal, rate, payment) as real * payment >= principal
  {
    var m := PayoffMonths(principal, rate, payment);
    PayoffMonthsIsPaidOff(principal, rate, payment);
    forall j | 0 <= j < m ensures Balance(principal, rate, payment, j) > 0.0 {
      PayoffMonthsIsLeast(principal, rate, payment, j);
    }
    BalanceAtLeastPrincipalLessPayments(principal, rate, payment, m);
  }

  /** A zero balance is already paid even when the payment is zero: the
      balance guard runs before the payment guard. */
  lemma ZeroBalanceZeroPaymentIsAlreadyPaid(annualRate: real)
    ensures CalculateDebtPayoff(0.0, annualRate, 0.0).AlreadyPaid?
    ensures CalculateDebtPayoff(0.0, annualRate, 0.0).monthsRemaining == 0
  {
  }

  /** 10000 at 0% paid 500 a month takes 20 months, with no interest,
      ending in month 8 of 2026. */
  lemma InterestFreeExample()
    ensures CalculateDebtPayoff(10000.0, 0.0, 500.0)
            == InterestFree(20, 0.0, 2026, 8, StatusOnTrack)
  {
  }

  /** 100000 at 20% paid 100 a month is underwater (interest 1666.67). */
  lemma UnderwaterExample()
    ensures CalculateDebtPayoff(100000.0, 0.20, 100.0).Underwater?
    ensures CalculateDebtPayoff(100000.0, 0.20, 100.0).monthsRemaining == -1
    ensures CalculateDebtPayoff(100000.0, 0.20, 100.0).monthlyInterest == 1666.67
    ensures CalculateDebtPayoff(100000.0, 0.20, 100.0).shortfall == 1566.67
  {
    var r := CalculateDebtPayoff(100000.0, 0.20, 100.0);
    assert ReportsShortfall(r, 100000.0, 0.20 / 12.0, 100.0);
    assert Round(100000.0 * (0.20 / 12.0), 2) == Round(166666.0 + 2.0 / 3.0, 0) / 100.0;
  }
}
