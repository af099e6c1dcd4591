/** Calendar-month arithmetic (billing/invoicing.py, `add_calendar_months`) on Gregorian dates, measured against the
    day number of a date (Python's proleptic `date.toordinal`). Years are not capped. */
module Calendar {
  import opened Wrappers

  datatype Date = Date(year: nat, month: nat, day: nat)

  predicate IsLeap(year: nat) {
    year % 4 == 0 && (year % 100 != 0 || year % 400 == 0)
  }

  /** `calendar.monthrange(year, month)[1]`. */
  function MonthLength(year: nat, month: nat): nat {
    if month == 2 then (if IsLeap(year) then 29 else 28)
    else if month in {4, 6, 9, 11} then 30
    else 31
  }

  predicate Valid(d: Date) {
    d.year >= 1 && 1 <= d.month <= 12 && 1 <= d.day <= MonthLength(d.year, d.month)
  }

  /** Chronological order. */
  predicate Before(a: Date, b: Date) {
    a.year < b.year || (a.year == b.year && (a.month < b.month || (a.month == b.month && a.day < b.day)))
  }

  // ----- day numbers -----

  /** Days before January 1 of a year. */
  function DaysBeforeYear(year: nat): nat
    requires year >= 1
  {
    (year - 1) * 365 + (year - 1) / 4 - (year - 1) / 100 + (year - 1) / 400
  }

  function DaysBeforeMonth(year: nat, month: nat): nat
    requires 1 <= month <= 13
  {
    if month == 1 then 0 else DaysBeforeMonth(year, month - 1) + MonthLength(year, month - 1)
  }

  /** January 1 of year 1 is day 1. */
  function Ordinal(d: Date): nat
    requires Valid(d)
  {
    DaysBeforeYear(d.year) + DaysBeforeMonth(d.year, d.month) + d.day
  }

  /** The following day. */
  function NextDay(d: Date): Date
    requires Valid(d)
  {
    if d.day < MonthLength(d.year, d.month) then d.(day := d.day + 1)
    else if d.month < 12 then Date(d.year, d.month + 1, 1)
    else Date(d.year + 1, 1, 1)
  }

  lemma MonthsOfYear(year: nat)
    ensures DaysBeforeMonth(year, 13) == if IsLeap(year) then 366 else 365
  {
    var feb := MonthLength(year, 2);
    assert DaysBeforeMonth(year, 2) == 31 && DaysBeforeMonth(year, 3) == 31 + feb;
    assert DaysBeforeMonth(year, 4) == 62 + feb && DaysBeforeMonth(year, 5) == 92 + feb;
    assert DaysBeforeMonth(year, 6) == 123 + feb && DaysBeforeMonth(year, 7) == 153 + feb;
    assert DaysBeforeMonth(year, 8) == 184 + feb && DaysBeforeMonth(year, 9) == 215 + feb;
    assert DaysBeforeMonth(year, 10) == 245 + feb && DaysBeforeMonth(year, 11) == 276 + feb;
    assert DaysBeforeMonth(year, 12) == 306 + feb && DaysBeforeMonth(year, 13) == 337 + feb;
  }

  /** Whether a period of `k` years ends with `year`. */
  function Ends(year: nat, k: nat): nat
    requires k >= 1
  {
    if year % k == 0 then 1 else 0
  }

  lemma PeriodsEnded(year: nat)
    requires year >= 1
    ensures year / 4 == (year - 1) / 4 + Ends(year, 4)
    ensures year / 100 == (year - 1) / 100 + Ends(year, 100)
    ensures year / 400 == (year - 1) / 400 + Ends(year, 400)
  {
  }

  lemma MultipleOfFour(n: nat, q: nat)
    requires n == 4 * q
    ensures n % 4 == 0
  {
  }

  lemma MultipleOfHundred(n: nat, q: nat)
    requires n == 100 * q
    ensures n % 100 == 0
  {
  }

  lemma PeriodsNest(year: nat)
    ensures year % 100 == 0 ==> year % 4 == 0
    ensures year % 400 == 0 ==> year % 100 == 0
  {
    if year % 100 == 0 {
      MultipleOfFour(year, 25 * (year / 100));
    }
    if year % 400 == 0 {
      MultipleOfHundred(year, 4 * (year / 400));
    }
  }

  lemma LeapByPeriods(year: nat)
    ensures Ends(year, 4) - Ends(year, 100) + Ends(year, 400) == if IsLeap(year) then 1 else 0
  {
    PeriodsNest(year);
  }

  lemma LeapDays(year: nat)
    requires year >= 1
    ensures DaysBeforeYear(year + 1) == DaysBeforeYear(year) + if IsLeap(year) then 366 else 365
  {
    PeriodsEnded(year);
    LeapByPeriods(year);
  }

  lemma YearLength(year: nat)
    requires year >= 1
    ensures DaysBeforeYear(year + 1) == DaysBeforeYear(year) + DaysBeforeMonth(year, 13)
  {
    MonthsOfYear(year);
    LeapDays(year);
  }

  /** The day number counts days: the next day has the next number. */
  lemma OrdinalCountsDays(d: Date)
    requires Valid(d)
    ensures Valid(NextDay(d)) && Before(d, NextDay(d)) && Ordinal(NextDay(d)) == Ordinal(d) + 1
  {
    if d.day == MonthLength(d.year, d.month) {
      if d.month == 12 {
        YearLength(d.year);
        assert DaysBeforeMonth(d.year, 13) == DaysBeforeMonth(d.year, 12) + d.day;
      } else {
        assert DaysBeforeMonth(d.year, d.month + 1) == DaysBeforeMonth(d.year, d.month) + d.day;
      }
    }
  }

  lemma {:induction false} MonthsAccumulate(year: nat, a: nat, b: nat)
    requires 1 <= a <= b <= 13
    ensures DaysBeforeMonth(year, a) + 28 * (b - a) <= DaysBeforeMonth(year, b)
    decreases b - a
  {
    if a < b {
      MonthsAccumulate(year, a, b - 1);
    }
  }

  lemma {:induction false} YearsAccumulate(a: nat, b: nat)
    requires 1 <= a <= b
    ensures DaysBeforeYear(a) + 365 * (b - a) <= DaysBeforeYear(b)
    decreases b - a
  {
    if a < b {
      YearsAccumulate(a, b - 1);
      LeapDays(b - 1);
    }
  }

  /** Day numbers order dates as the calendar does. */
  lemma OrdinalRespectsOrder(a: Date, b: Date)
    requires Valid(a) && Valid(b)
    ensures Before(a, b) <==> Ordinal(a) < Ordinal(b)
    ensures a == b <==> Ordinal(a) == Ordinal(b)
  {
    if Before(a, b) {
      EarlierDateHasSmallerNumber(a, b);
    } else if Before(b, a) {
      EarlierDateHasSmallerNumber(b, a);
    }
  }

  lemma EarlierMonthHasSmallerNumber(a: Date, b: Date)
    requires Valid(a) && Valid(b) && a.year == b.year && a.month < b.month
    ensures Ordinal(a) < Ordinal(b)
  {
    MonthsAccumulate(a.year, a.month + 1, b.month);
  }

  lemma EarlierYearHasSmallerNumber(a: Date, b: Date)
    requires Valid(a) && Valid(b) && a.year < b.year
    ensures Ordinal(a) < Ordinal(b)
  {
    MonthsAccumulate(a.year, a.month + 1, 13);
    YearLength(a.year);
    YearsAccumulate(a.year + 1, b.year);
  }

  lemma EarlierDateHasSmallerNumber(a: Date, b: Date)
    requires Valid(a) && Valid(b) && Before(a, b)
    ensures Ordinal(a) < Ordinal(b)
  {
    if a.year < b.year {
      EarlierYearHasSmallerNumber(a, b);
    } else if a.month < b.month {
      EarlierMonthHasSmallerNumber(a, b);
    }
  }

  // ----- adding months -----

  /** `add_calendar_months`: the day is clamped to the length of the target month. */
  function AddMonths(d: Date, months: nat): Date
    requires d.month >= 1
  {
    var index := d.month - 1 + months;
    var year, month := d.year + index / 12, index % 12 + 1;
    Date(year, month, Min(d.day, MonthLength(year, month)))
  }

  /** Months since year 0. */
  function MonthIndex(d: Date): nat
    requires d.month >= 1
  {
    12 * d.year + d.month - 1
  }

  lemma AddMonthsIsValid(d: Date, months: nat)
    requires Valid(d)
    ensures Valid(AddMonths(d, months))
    ensures MonthIndex(AddMonths(d, months)) == MonthIndex(d) + months
    ensures AddMonths(d, months).day == Min(d.day, MonthLength(AddMonths(d, months).year, AddMonths(d, months).month))
  {
  }

  /** Dates of the same month index agree on year and month. */
  lemma MonthIndexDetermines(a: Date, b: Date)
    requires Valid(a) && Valid(b)
    ensures MonthIndex(a) == MonthIndex(b) <==> a.year == b.year && a.month == b.month
    ensures MonthIndex(a) < MonthIndex(b) ==> Before(a, b)
    ensures MonthIndex(a) == MonthIndex(b) ==> (Before(a, b) <==> a.day < b.day)
  {
  }

  lemma AddMonthsMonotone(a: Date, b: Date, months: nat)
    requires Valid(a) && Valid(b) && (a == b || Before(a, b))
    ensures var a', b' := AddMonths(a, months), AddMonths(b, months);
      Valid(a') && Valid(b') && (a' == b' || Before(a', b')) && Ordinal(a') <= Ordinal(b')
  {
    var a', b' := AddMonths(a, months), AddMonths(b, months);
    AddMonthsIsValid(a, months);
    AddMonthsIsValid(b, months);
    MonthIndexDetermines(a, b);
    MonthIndexDetermines(a', b');
    OrdinalRespectsOrder(a', b');
  }

  lemma AddMonthsStrict(d: Date, m: nat, n: nat)
    requires Valid(d) && m < n
    ensures Valid(AddMonths(d, m)) && Valid(AddMonths(d, n))
    ensures Before(AddMonths(d, m), AddMonths(d, n)) && Ordinal(AddMonths(d, m)) < Ordinal(AddMonths(d, n))
  {
    AddMonthsIsValid(d, m);
    AddMonthsIsValid(d, n);
    MonthIndexDetermines(AddMonths(d, m), AddMonths(d, n));
    OrdinalRespectsOrder(AddMonths(d, m), AddMonths(d, n));
  }

  /** The first days of two consecutive months are one month length apart. */
  lemma NextMonthStart(a: Date, b: Date)
    requires Valid(a) && Valid(b) && MonthIndex(b) == MonthIndex(a) + 1
    ensures Ordinal(b) - b.day == Ordinal(a) - a.day + MonthLength(a.year, a.month)
  {
    YearLength(a.year);
    assert if a.month == 12 then b.year == a.year + 1 && b.month == 1 else b.year == a.year && b.month == a.month + 1;
  }

  /** One month further, the day being clamped in both months. */
  lemma OneMonthMovesDays(a: Date, b: Date, day: nat)
    requires Valid(a) && Valid(b) && MonthIndex(b) == MonthIndex(a) + 1
    requires a.day == Min(day, MonthLength(a.year, a.month)) && b.day == Min(day, MonthLength(b.year, b.month))
    ensures Ordinal(a) + 28 <= Ordinal(b) <= Ordinal(a) + 31
  {
    NextMonthStart(a, b);
  }

  /** Every month added moves the day number by 28 to 31 days. */
  lemma {:induction false} AddMonthsMovesDays(d: Date, months: nat)
    requires Valid(d)
    ensures Valid(AddMonths(d, months))
    ensures Ordinal(d) + 28 * months <= Ordinal(AddMonths(d, months)) <= Ordinal(d) + 31 * months
  {
    AddMonthsIsValid(d, months);
    if months > 0 {
      AddMonthsMovesDays(d, months - 1);
      AddMonthsIsValid(d, months - 1);
      OneMonthMovesDays(AddMonths(d, months - 1), AddMonths(d, months), d.day);
    } else {
      AddNoMonths(d);
    }
  }

  lemma AddNoMonths(d: Date)
    requires Valid(d)
    ensures AddMonths(d, 0) == d
  {
    MonthIndexDetermines(d, AddMonths(d, 0));
  }

  // ----- stacking -----

  function Stack(d: Date, steps: seq<nat>): Date
    requires Valid(d)
    decreases |steps|
  {
    AddMonthsIsValid(d, if steps == [] then 0 else steps[0]);
    if steps == [] then d else Stack(AddMonths(d, steps[0]), steps[1..])
  }

  function Sum(steps: seq<nat>): nat {
    if steps == [] then 0 else steps[0] + Sum(steps[1..])
  }

  lemma {:induction false} StackDays(d: Date, steps: seq<nat>)
    requires Valid(d)
    ensures Valid(Stack(d, steps))
    ensures MonthIndex(Stack(d, steps)) == MonthIndex(d) + Sum(steps)
    ensures Min(d.day, 28) <= Stack(d, steps).day <= d.day
    decreases |steps|
  {
    if steps != [] {
      AddMonthsIsValid(d, steps[0]);
      StackDays(AddMonths(d, steps[0]), steps[1..]);
    }
  }

  /** Renewing month by month lands in the same month as buying the whole period at once, at most three days earlier,
      and on the same day when the start day is at most 28. */
  lemma StackingLosesAtMostThreeDays(d: Date, steps: seq<nat>)
    requires Valid(d)
    ensures Valid(Stack(d, steps)) && Valid(AddMonths(d, Sum(steps)))
    ensures var once, stacked := AddMonths(d, Sum(steps)), Stack(d, steps);
      && once.year == stacked.year && once.month == stacked.month
      && Ordinal(once) - 3 <= Ordinal(stacked) <= Ordinal(once)
      && (d.day <= 28 ==> stacked == once)
  {
    var once, stacked := AddMonths(d, Sum(steps)), Stack(d, steps);
    AddMonthsIsValid(d, Sum(steps));
    StackDays(d, steps);
    MonthIndexDetermines(once, stacked);
    assert Valid(stacked) && stacked.day <= MonthLength(stacked.year, stacked.month);
  }

  /** Three days are really lost: January 31 plus one month plus one month, against plus two months. */
  lemma StackingCanLoseThreeDays()
    ensures Stack(Date(2026, 1, 31), [1, 1]) == Date(2026, 3, 28)
    ensures AddMonths(Date(2026, 1, 31), 2) == Date(2026, 3, 31)
  {
    assert AddMonths(Date(2026, 1, 31), 1) == Date(2026, 2, 28);
    assert [1, 1][1..] == [1] && [1][1..] == [];
    assert Stack(Date(2026, 2, 28), [1]) == Stack(AddMonths(Date(2026, 2, 28), 1), []);
  }
}
