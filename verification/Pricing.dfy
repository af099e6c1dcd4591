/** Invoice amounts (billing/invoicing.py, billing/models.py). Money is in integer cents, tax rates in hundredths of a
    percent; a quotient that Python rounds to its decimal precision is a real number known up to a tiny error. */
module Pricing {
  import opened Wrappers

  const MAX_CUSTOM_DURATION_MONTHS := 36
  const CREDIT_DAYS_PER_MONTH := 30

  datatype Error = BadMonths | NoPlan | NoPrice

  datatype Result<T> = Ok(value: T) | Err(error: Error)

  datatype LineKind = BaseCharge | ExtraMembers | Credit

  datatype Line = Line(kind: LineKind, amount: int)

  /** The amounts of a generated invoice. */
  datatype Bill = Bill(
    lines: seq<Line>, subtotal: nat, credit: nat, previousPlan: Option<nat>, taxRate: nat, tax: nat, total: nat,
    months: nat)

  // ----- rounding -----

  /** `Decimal.quantize(..., ROUND_HALF_UP)`: to the nearest cent, halves away from zero. */
  function RoundHalfUp(x: real): int {
    if x >= 0.0 then (x + 0.5).Floor else -((0.5 - x).Floor)
  }

  /** The same rounding of an exact non-negative quotient, on integers. */
  function RoundDiv(n: nat, d: nat): (r: nat)
    requires d >= 1
    ensures 2 * n - d < 2 * (r * d) <= 2 * n + d
  {
    var r := (2 * n + d) / (2 * d);
    assert (2 * d) * r == 2 * (r * d);
    r
  }

  predicate IsRounded(r: int, x: real) {
    x - 0.5 <= r as real <= x + 0.5 && (x >= 0.0 ==> r >= 0 && x - 0.5 < r as real) && (x <= 0.0 ==> r <= 0)
  }

  lemma RoundedWithinHalf(x: real)
    ensures IsRounded(RoundHalfUp(x), x)
  {
  }

  /** The two forms agree: `x` is the quotient `n / d`. */
  lemma RoundDivIsHalfUp(n: nat, d: nat, x: real)
    requires d >= 1 && x * d as real == n as real
    ensures RoundDiv(n, d) == RoundHalfUp(x)
  {
    var r := RoundDiv(n, d);
    ProductAsReal(r, d);
    RoundsTo(n as real, d as real, x, r, (r * d) as real);
  }

  lemma RoundsTo(n: real, d: real, x: real, r: int, p: real)
    requires n >= 0.0 && d > 0.0 && x * d == n && r as real * d == p && 2.0 * n - d < 2.0 * p <= 2.0 * n + d
    ensures RoundHalfUp(x) == r
  {
    QuotientBounds(n, x, d, r as real, p);
    NonNegativeQuotient(x, d);
    HalfUpIs(x, r);
  }

  lemma HalfUpIs(x: real, r: int)
    requires x >= 0.0 && x - 0.5 < r as real <= x + 0.5
    ensures RoundHalfUp(x) == r
  {
  }

  lemma NonNegativeQuotient(x: real, d: real)
    requires d > 0.0 && x * d >= 0.0
    ensures x >= 0.0
  {
  }

  lemma ProductAsReal(r: nat, d: nat)
    ensures (r * d) as real == r as real * d as real
  {
  }

  lemma CancelFactor(a: real, b: real, d: real, ad: real, bd: real)
    requires d > 0.0 && a * d == ad && b * d == bd
    ensures ad <= bd ==> a <= b
    ensures ad < bd ==> a < b
  {
    assert (b - a) * d == bd - ad;
    if a >= b {
      assert (a - b) * d >= 0.0;
    }
  }

  lemma QuotientBounds(n: real, x: real, d: real, r: real, p: real)
    requires d > 0.0 && x * d == n && r * d == p && 2.0 * n - d < 2.0 * p <= 2.0 * n + d
    ensures x - 0.5 < r <= x + 0.5
  {
    assert (x + 0.5) * d == n + 0.5 * d;
    assert (x - 0.5) * d == n - 0.5 * d;
    CancelFactor(r, x + 0.5, d, p, n + 0.5 * d);
    CancelFactor(x - 0.5, r, d, n - 0.5 * d, p);
  }

  lemma RoundMonotone(x: real, y: real)
    requires x <= y
    ensures RoundHalfUp(x) <= RoundHalfUp(y)
  {
    var r, s := RoundHalfUp(x), RoundHalfUp(y);
    if r > s {
      assert r as real >= s as real + 1.0;
      RoundedWithinHalf(x);
      RoundedWithinHalf(y);
    }
  }

  // ----- lines -----

  function SumLines(lines: seq<Line>): int {
    if lines == [] then 0 else lines[0].amount + SumLines(lines[1..])
  }

  lemma {:induction false} SumAppend(lines: seq<Line>, line: Line)
    ensures SumLines(lines + [line]) == SumLines(lines) + line.amount
  {
    if lines == [] {
      assert [line][1..] == [];
    } else {
      assert (lines + [line])[1..] == lines[1..] + [line];
      SumAppend(lines[1..], line);
    }
  }

  function Scaled(lines: seq<Line>, months: nat): seq<Line> {
    if lines == [] then [] else [Line(lines[0].kind, lines[0].amount * months)] + Scaled(lines[1..], months)
  }

  lemma {:induction false} ScaledSum(lines: seq<Line>, months: nat)
    ensures SumLines(Scaled(lines, months)) == SumLines(lines) * months
  {
    if lines != [] {
      assert Scaled(lines, months)[1..] == Scaled(lines[1..], months);
      ScaledSum(lines[1..], months);
    }
  }

  lemma {:induction false} ScaledOnce(lines: seq<Line>)
    ensures Scaled(lines, 1) == lines
  {
    if lines != [] {
      ScaledOnce(lines[1..]);
      assert lines == [lines[0]] + lines[1..];
    }
  }

  lemma ScaledAppend(line: Line, rest: seq<Line>, months: nat)
    ensures Scaled([line] + rest, months) == [Line(line.kind, line.amount * months)] + Scaled(rest, months)
  {
    assert ([line] + rest)[1..] == rest;
  }

  /** `_apply_duration_months`: a single month is left as it is. */
  method ApplyDurationMonths(subtotal: nat, lines: seq<Line>, months: nat) returns (total: nat, scaled: seq<Line>)
    requires SumLines(lines) == subtotal
    ensures total == subtotal * months && scaled == Scaled(lines, months) && SumLines(scaled) == total
  {
    if months == 1 {
      ScaledOnce(lines);
      return subtotal, lines;
    }
    scaled := [];
    var i := 0;
    assert lines[0..] == lines;
    while i < |lines|
      invariant 0 <= i <= |lines|
      invariant scaled + Scaled(lines[i..], months) == Scaled(lines, months)
    {
      assert lines[i..][1..] == lines[i + 1..];
      scaled := scaled + [Line(lines[i].kind, lines[i].amount * months)];
      i := i + 1;
    }
    assert lines[i..] == [] && scaled == Scaled(lines, months);
    ScaledSum(lines, months);
    total := subtotal * months;
  }

  predicate MonthsOk(months: int) {
    1 <= months <= MAX_CUSTOM_DURATION_MONTHS
  }

  /** The tax on an amount: exact up to half a cent. */
  function TaxOn(amount: nat, taxRate: nat): (tax: nat)
    ensures amount * taxRate - 5000 <= 10000 * tax <= amount * taxRate + 5000
    ensures taxRate == 0 ==> tax == 0
  {
    RoundDiv(amount * taxRate, 10000)
  }

  // ----- department invoices -----

  /** What a department invoice is made from; `None` prices are not configured, `None` seats are unlimited. */
  datatype DepartmentOrder = DepartmentOrder(
    plan: Option<nat>, price: Option<nat>, extraSeatPrice: Option<nat>, seatsIncluded: Option<nat>, seats: nat,
    taxRate: nat, months: int)

  /** Members beyond those included are charged when there is a seat price. */
  predicate ChargesSeats(o: DepartmentOrder) {
    o.seatsIncluded.Some? && o.seats > o.seatsIncluded.value && o.extraSeatPrice.Some?
  }

  /** `generate_invoice_for_department`: either the first error, or amounts that add up. */
  method GenerateForDepartment(o: DepartmentOrder) returns (r: Result<Bill>)
    ensures r.Ok? <==> 1 <= o.months <= 36 && o.plan.Some? && o.price.Some?
    ensures r.Err? ==> r.error == if !MonthsOk(o.months) then BadMonths else if o.plan.None? then NoPlan else NoPrice
    ensures r.Ok? ==>
              var b := r.value;
              var extra := if ChargesSeats(o) then (o.seats - o.seatsIncluded.value) * o.extraSeatPrice.value else 0;
              && b.lines == [Line(BaseCharge, o.price.value * o.months)]
                            + (if ChargesSeats(o) then [Line(ExtraMembers, extra * o.months)] else [])
              && b.subtotal == (o.price.value + extra) * o.months
              && SumLines(b.lines) == b.subtotal
              && b.taxRate == o.taxRate && b.tax == TaxOn(b.subtotal, o.taxRate) && b.total == b.subtotal + b.tax
              && b.credit == 0 && b.previousPlan.None? && b.months == o.months
  {
    if !MonthsOk(o.months) {
      return Err(BadMonths);
    }
    if o.plan.None? {
      return Err(NoPlan);
    }
    if o.price.None? {
      return Err(NoPrice);
    }
    var subtotal: nat := o.price.value;
    var lines := [Line(BaseCharge, subtotal)];
    assert lines[1..] == [];
    if o.seatsIncluded.Some? {
      var extraSeats := if o.seats > o.seatsIncluded.value then o.seats - o.seatsIncluded.value else 0;
      if extraSeats > 0 && o.extraSeatPrice.Some? {
        var extraAmount := extraSeats * o.extraSeatPrice.value;
        SumAppend(lines, Line(ExtraMembers, extraAmount));
        subtotal := subtotal + extraAmount;
        lines := lines + [Line(ExtraMembers, extraAmount)];
      }
    }
    ScaledAppend(lines[0], lines[1..], o.months);
    assert lines == [lines[0]] + lines[1..];
    if |lines| == 2 {
      ScaledAppend(lines[1], [], o.months);
      assert lines[1..] == [lines[1]] + [];
    }
    subtotal, lines := ApplyDurationMonths(subtotal, lines, o.months);
    var tax := TaxOn(subtotal, o.taxRate);
    r := Ok(Bill(lines, subtotal, 0, None, o.taxRate, tax, subtotal + tax, o.months));
  }

  // ----- the credit for unused time -----

  /** The paid invoice the credit is drawn from. */
  datatype Source = Source(subtotal: nat, months: nat, total: nat)

  /** A paid invoice of the user, with its issue date as a day number. */
  datatype PaidInvoice = PaidInvoice(plan: nat, issue: int, amounts: Source)

  /** The user's current plan and the second at which it ends. */
  datatype Assignment = Assignment(plan: nat, expires: Option<int>)

  const SECONDS_PER_DAY := 86400

  /** `(expires_at - now).days`: whole days, rounded down. */
  function UnusedDays(expires: int, now: int): int {
    (expires - now) / SECONDS_PER_DAY
  }

  /** Paid time ends with the last second of its last day: what is left at any time of a day is the difference of the
      two dates. */
  lemma UnusedDaysAreDates(lastDay: int, day: int, second: nat)
    requires second < SECONDS_PER_DAY
    ensures UnusedDays(SECONDS_PER_DAY * lastDay + (SECONDS_PER_DAY - 1), SECONDS_PER_DAY * day + second)
         == lastDay - day
  {
    var rest := SECONDS_PER_DAY - 1 - second;
    assert 0 <= rest < SECONDS_PER_DAY;
    assert SECONDS_PER_DAY * (lastDay - day) + rest
        == SECONDS_PER_DAY * lastDay + (SECONDS_PER_DAY - 1) - (SECONDS_PER_DAY * day + second);
  }

  /** The k-th of the paid invoices is the plan's with the latest issue date, the newest of several; they are in the
      order of their ids. */
  predicate IsNewestPaid(paid: seq<PaidInvoice>, plan: nat, k: nat) {
    && k < |paid| && paid[k].plan == plan
    && forall j :: 0 <= j < |paid| && paid[j].plan == plan ==>
                     paid[j].issue < paid[k].issue || (paid[j].issue == paid[k].issue && j <= k)
  }

  predicate HasPaidFor(paid: seq<PaidInvoice>, plan: nat) {
    exists j :: 0 <= j < |paid| && paid[j].plan == plan
  }

  function NewestPaid(paid: seq<PaidInvoice>, plan: nat): (k: Option<nat>)
    ensures k.Some? <==> HasPaidFor(paid, plan)
    ensures k.Some? ==> IsNewestPaid(paid, plan, k.value)
  {
    if paid == [] then None else
    var n := |paid| - 1;
    var earlier := NewestPaid(paid[..n], plan);
    if paid[n].plan == plan && (earlier.None? || paid[earlier.value].issue <= paid[n].issue) then Some(n)
    else if earlier.Some? then
      assert paid[..n][earlier.value] == paid[earlier.value];
      earlier
    else None
  }

  /** `Invoice.monthly_price`. */
  function MonthlyPrice(s: Source): nat
    requires s.months >= 1
  {
    RoundDiv(s.subtotal, s.months)
  }

  /** Python divides the monthly price by 30 to its decimal precision: the quotient is off by next to nothing. */
  ghost predicate IsDailyRate(rate: real, monthly: nat) {
    var exact := CREDIT_DAYS_PER_MONTH as real * rate;
    rate >= 0.0 && monthly as real - 0.000000001 <= exact <= monthly as real + 0.000000001
  }

  /** There is unused time to credit: another plan, a whole day left of the current one, and a paid invoice of it. */
  predicate Creditable(current: Option<Assignment>, newPlan: nat, paid: seq<PaidInvoice>, now: int) {
    && current.Some? && current.value.plan != newPlan
    && current.value.expires.Some? && UnusedDays(current.value.expires.value, now) > 0
    && HasPaidFor(paid, current.value.plan)
  }

  /** The rate Python computes belongs to the newest paid invoice of the current plan. */
  ghost predicate IsRateOf(dailyRate: real, current: Option<Assignment>, paid: seq<PaidInvoice>) {
    current.Some? ==>
      forall k: nat | IsNewestPaid(paid, current.value.plan, k) ::
        paid[k].amounts.months >= 1 && IsDailyRate(dailyRate, MonthlyPrice(paid[k].amounts))
  }

  /** The credit is drawn from the newest paid invoice of a plan. */
  ghost predicate DrawnFrom(credit: nat, paid: seq<PaidInvoice>, plan: nat, days: nat, dailyRate: real)
    requires dailyRate >= 0.0
  {
    exists k: nat :: IsNewestPaid(paid, plan, k) && credit == CappedCredit(paid[k].amounts, days, dailyRate)
  }

  /** `_compute_upgrade_credit`: the credit, the plan it is for, and the days credited. */
  method ComputeUpgradeCredit(
    current: Option<Assignment>, newPlan: nat, paid: seq<PaidInvoice>, now: int, dailyRate: real)
    returns (credit: nat, previousPlan: Option<nat>, days: nat)
    requires dailyRate >= 0.0 && IsRateOf(dailyRate, current, paid)
    ensures previousPlan == if Creditable(current, newPlan, paid, now) then Some(current.value.plan) else None
    ensures previousPlan.None? ==> credit == 0 && days == 0
    ensures previousPlan.Some? ==>
              && days == UnusedDays(current.value.expires.value, now)
              && DrawnFrom(credit, paid, current.value.plan, days, dailyRate)
  {
    if current.None? || current.value.plan == newPlan || current.value.expires.None? {
      return 0, None, 0;
    }
    if current.value.expires.value <= now {
      return 0, None, 0;
    }
    var left := UnusedDays(current.value.expires.value, now);
    if left <= 0 {
      return 0, None, 0;
    }
    var source := NewestPaid(paid, current.value.plan);
    if source.None? {
      return 0, None, 0;
    }
    days := left;
    previousPlan := Some(current.value.plan);
    credit := CreditFor(paid[source.value].amounts, days, dailyRate);
  }

  /** Never credit more than was paid. */
  method CreditFor(source: Source, days: nat, dailyRate: real) returns (credit: nat)
    requires dailyRate >= 0.0
    ensures credit == CappedCredit(source, days, dailyRate) && credit <= source.total
  {
    RoundedWithinHalf(dailyRate * days as real);
    credit := RoundHalfUp(dailyRate * days as real);
    if credit > source.total {
      credit := source.total;
    }
  }

  function CappedCredit(s: Source, days: nat, dailyRate: real): (credit: nat)
    requires dailyRate >= 0.0
  {
    RoundedWithinHalf(dailyRate * days as real);
    var credit := RoundHalfUp(dailyRate * days as real);
    if credit > s.total then s.total else credit
  }

  /** The credit grows with the days left and never exceeds what was paid. */
  lemma CreditGrows(s: Source, days: nat, more: nat, rate: real)
    requires rate >= 0.0 && days <= more
    ensures 0 <= CappedCredit(s, days, rate) <= CappedCredit(s, more, rate) <= s.total
  {
    RateTimes(rate, days, more);
    RoundMonotone(rate * days as real, rate * more as real);
  }

  /** Below what was paid, the credit is within a cent of the unused share of the monthly price (half a cent of
      rounding, and the error of the quotient); it never exceeds that share by more than a cent. */
  lemma CreditBounds(s: Source, days: nat, rate: real)
    requires s.months >= 1 && IsDailyRate(rate, MonthlyPrice(s)) && days <= 1000000
    ensures var credit := CappedCredit(s, days, rate);
      && CREDIT_DAYS_PER_MONTH * credit <= MonthlyPrice(s) * days + CREDIT_DAYS_PER_MONTH
      && (credit < s.total ==> MonthlyPrice(s) * days <= CREDIT_DAYS_PER_MONTH * credit + CREDIT_DAYS_PER_MONTH)
  {
    RoundedWithinHalf(rate * days as real);
    RateError(rate, MonthlyPrice(s), days);
    ProductAsReal(MonthlyPrice(s), days);
    NonNegative(rate, days);
    ShareBounds(MonthlyPrice(s) * days, rate * days as real);
  }

  /** A credit and the amounts of the invoice it is drawn from: never more than its total, and below that within a cent
      of its price for the unused days - a month of 30 days - give or take half a cent for each month of them, by which
      the monthly price may have been rounded. */
  predicate CreditsUnusedShare(credit: nat, s: Source, days: nat) {
    && credit <= s.total
    && 60 * (s.months * credit) <= 2 * (s.subtotal * days) + s.months * days + 60 * s.months
    && (credit < s.total ==> 2 * (s.subtotal * days) <= 60 * (s.months * credit) + s.months * days + 60 * s.months)
  }

  /** Every credit is that of the newest paid invoice of the current plan, and of no other. */
  lemma CreditOfTheNewestInvoice(
    credit: nat, current: Option<Assignment>, paid: seq<PaidInvoice>, days: nat, dailyRate: real, k: nat)
    requires dailyRate >= 0.0 && current.Some? && IsRateOf(dailyRate, current, paid) && days <= 1000000
    requires DrawnFrom(credit, paid, current.value.plan, days, dailyRate)
    requires k < |paid| && paid[k].plan == current.value.plan
    requires forall j :: 0 <= j < |paid| && paid[j].plan == current.value.plan ==> paid[j].issue <= paid[k].issue
    requires forall j :: k < j < |paid| && paid[j].plan == current.value.plan ==> paid[j].issue < paid[k].issue
    ensures CreditsUnusedShare(credit, paid[k].amounts, days)
  {
    assert IsNewestPaid(paid, current.value.plan, k);
    CreditBounds(paid[k].amounts, days, dailyRate);
    ShareOfSubtotal(credit, paid[k].amounts, MonthlyPrice(paid[k].amounts), days);
  }

  lemma ShareOfSubtotal(credit: nat, s: Source, monthly: nat, days: nat)
    requires 2 * s.subtotal - s.months < 2 * (monthly * s.months) <= 2 * s.subtotal + s.months && credit <= s.total
    requires 30 * credit <= monthly * days + 30
    requires credit < s.total ==> monthly * days <= 30 * credit + 30
    ensures CreditsUnusedShare(credit, s, days)
  {
    Reassociate(s.months, monthly, days);
    DaysOfMonths(monthly * s.months, s.subtotal, s.months, days);
    MonthsOfShare(s.months, credit, monthly * days);
    if credit < s.total {
      MonthsBelow(s.months, monthly * days, credit);
    }
  }

  lemma Reassociate(a: nat, b: nat, c: nat)
    ensures a * (b * c) == (b * a) * c
  {
  }

  lemma DaysOfMonths(p: nat, subtotal: nat, months: nat, days: nat)
    requires 2 * subtotal - months <= 2 * p <= 2 * subtotal + months
    ensures 2 * (subtotal * days) - months * days <= 2 * (p * days) <= 2 * (subtotal * days) + months * days
  {
    Times(days, 2 * p, 2 * subtotal + months);
    Times(days, 2 * subtotal - months, 2 * p);
  }

  lemma MonthsOfShare(months: nat, credit: nat, share: nat)
    requires 30 * credit <= share + 30
    ensures 30 * (months * credit) <= months * share + 30 * months
  {
    Times(months, 30 * credit, share + 30);
  }

  lemma MonthsBelow(months: nat, share: nat, credit: nat)
    requires share <= 30 * credit + 30
    ensures months * share <= 30 * (months * credit) + 30 * months
  {
    Times(months, share, 30 * credit + 30);
  }

  lemma Times(n: nat, a: int, b: int)
    requires a <= b
    ensures n * a <= n * b
  {
  }

  /** Rounding the monthly price can cost or give more than a cent: 36.18 for 36 months are 1.01 a month, so 900 days
      are credited with 30.30, not the 30.15 they were bought for. */
  lemma MonthlyRoundingAddsUp(rate: real)
    requires IsDailyRate(rate, MonthlyPrice(Source(3618, 36, 3618)))
    ensures CappedCredit(Source(3618, 36, 3618), 900, rate) == 3030 && 3618 * 900 == 3015 * 30 * 36
  {
    assert MonthlyPrice(Source(3618, 36, 3618)) == 101;
    RoundedWithinHalf(rate * 900.0);
  }

  /** Rounding what is within one part of thirty times `x`. */
  lemma ShareBounds(p: nat, x: real)
    requires x >= 0.0 && p as real - 1.0 <= 30.0 * x <= p as real + 1.0
    ensures p <= 30 * RoundHalfUp(x) + 30 && 30 * RoundHalfUp(x) <= p + 30
  {
    RoundedWithinHalf(x);
  }

  lemma NonNegative(rate: real, days: nat)
    requires rate >= 0.0
    ensures rate * days as real >= 0.0
  {
    Product(rate, days as real);
  }

  lemma Product(a: real, b: real)
    requires a >= 0.0 && b >= 0.0
    ensures a * b >= 0.0
  {
  }

  lemma RateTimes(rate: real, days: nat, more: nat)
    requires rate >= 0.0 && days <= more
    ensures rate * days as real <= rate * more as real
  {
    Product(rate, more as real - days as real);
  }

  lemma TimesDays(e: real, d: real)
    requires -0.000000001 <= e <= 0.000000001 && 0.0 <= d <= 1000000.0
    ensures -1.0 <= e * d <= 1.0
  {
    Product(0.000000001 - e, d);
    Product(0.000000001 + e, d);
  }

  lemma RateError(rate: real, monthly: nat, days: nat)
    requires IsDailyRate(rate, monthly) && days <= 1000000
    ensures monthly as real * days as real - 1.0 <= 30.0 * (rate * days as real) <= monthly as real * days as real + 1.0
  {
    var m, d := monthly as real, days as real;
    var e := 30.0 * rate - m;
    TimesDays(e, d);
    assert 30.0 * (rate * d) == (m + e) * d;
  }

  // ----- invoices of one person -----

  datatype UserOrder = UserOrder(plan: Option<nat>, price: Option<nat>, taxRate: nat, months: int, fixedTerm: bool)

  function UserLines(subtotal: nat, credit: nat): seq<Line> {
    [Line(BaseCharge, subtotal)] + if credit > 0 then [Line(LineKind.Credit, -(credit as int))] else []
  }

  /** The lines sum to the subtotal less the credit; what is left of that, if anything, is taxed and charged. */
  predicate UserBillAddsUp(o: UserOrder, b: Bill)
    requires o.price.Some?
  {
    var due := SumLines(b.lines);
    var taxable := if due > 0 then due else 0;
    && b.subtotal == o.price.value * o.months && b.months == o.months
    && due == b.subtotal - b.credit && b.lines == UserLines(b.subtotal, b.credit)
    && b.taxRate == o.taxRate && b.tax == TaxOn(taxable, o.taxRate) && b.total == taxable + b.tax
  }

  /** The previous plan is recorded exactly for a creditable fixed-term change, with the credit for its unused days;
      without one there is no credit. */
  ghost predicate CreditAsDue(
    o: UserOrder, b: Bill, current: Option<Assignment>, paid: seq<PaidInvoice>, now: int, dailyRate: real)
    requires o.plan.Some? && dailyRate >= 0.0
  {
    if o.fixedTerm && Creditable(current, o.plan.value, paid, now) then
      && b.previousPlan == Some(current.value.plan)
      && DrawnFrom(b.credit, paid, current.value.plan, UnusedDays(current.value.expires.value, now), dailyRate)
    else b.previousPlan.None? && b.credit == 0
  }

  /** `generate_invoice_for_user` without a departmental plan: one seat, and a credit for a fixed-term change. */
  method GenerateForUser(
    o: UserOrder, current: Option<Assignment>, paid: seq<PaidInvoice>, now: int, dailyRate: real)
    returns (r: Result<Bill>)
    requires dailyRate >= 0.0 && IsRateOf(dailyRate, current, paid)
    ensures r.Ok? <==> o.plan.Some? && 1 <= o.months <= 36 && o.price.Some?
    ensures r.Err? ==> r.error == if o.plan.None? then NoPlan else if !MonthsOk(o.months) then BadMonths else NoPrice
    ensures r.Ok? ==> UserBillAddsUp(o, r.value) && CreditAsDue(o, r.value, current, paid, now, dailyRate)
  {
    if o.plan.None? {
      return Err(NoPlan);
    }
    if !MonthsOk(o.months) {
      return Err(BadMonths);
    }
    if o.price.None? {
      return Err(NoPrice);
    }
    var lines := [Line(BaseCharge, o.price.value)];
    assert lines[1..] == [];
    assert Scaled(lines, o.months) == [Line(BaseCharge, o.price.value * o.months)];
    var subtotal: nat;
    subtotal, lines := ApplyDurationMonths(o.price.value, lines, o.months);
    var credit: nat, previousPlan: Option<nat> := 0, None;
    if o.fixedTerm {
      var days;
      credit, previousPlan, days := ComputeUpgradeCredit(current, o.plan.value, paid, now, dailyRate);
      if credit > 0 {
        var credited: int := credit;
        SumAppend(lines, Line(LineKind.Credit, -credited));
        lines := lines + [Line(LineKind.Credit, -credited)];
      }
    }
    var taxable := if subtotal > credit then subtotal - credit else 0;
    var tax := TaxOn(taxable, o.taxRate);
    r := Ok(Bill(lines, subtotal, credit, previousPlan, o.taxRate, tax, taxable + tax, o.months));
  }
}
