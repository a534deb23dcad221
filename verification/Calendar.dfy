/**
  Proleptic Gregorian dates, their day numbers, and the two date shifts the scheduler uses:
  adding days (a timedelta) and adding months with the day clamped to the target month.
 */
module Calendar {

  datatype RawDate = RawDate(year: int, month: int, day: int)

  predicate IsDate(d: RawDate) {
    d.year >= 1 && 1 <= d.month <= 12 && 1 <= d.day <= DaysInMonth(d.year, d.month)
  }

  type Date = d: RawDate | IsDate(d) witness RawDate(1, 1, 1)

  predicate IsLeap(year: int) {
    year % 4 == 0 && (year % 100 != 0 || year % 400 == 0)
  }

  function DaysInMonth(year: int, month: int): (days: int)
    ensures 28 <= days <= 31
  {
    if month == 2 then (if IsLeap(year) then 29 else 28)
    else if month in {4, 6, 9, 11} then 30
    else 31
  }

  /** Days in the years before `year`, in closed form. */
  function DaysBeforeYear(year: int): int {
    var y := year - 1;
    y * 365 + y / 4 - y / 100 + y / 400
  }

  function DaysBeforeMonth(year: int, month: nat): int {
    if month <= 1 then 0 else DaysBeforeMonth(year, month - 1) + DaysInMonth(year, month - 1)
  }

  /** Months are numbered consecutively across years. */
  function MonthIndex(d: RawDate): int {
    d.year * 12 + (d.month - 1)
  }

  function MonthLength(index: int): (days: int)
    ensures 28 <= days <= 31
  {
    DaysInMonth(index / 12, index % 12 + 1)
  }

  /** The day number of the last day before month `index`. */
  function MonthStart(index: int): int {
    DaysBeforeYear(index / 12) + DaysBeforeMonth(index / 12, index % 12 + 1)
  }

  /** The day number of a date: 1 January of year 1 is day 1. */
  function Ordinal(d: RawDate): int
    requires 1 <= d.month
  {
    DaysBeforeYear(d.year) + DaysBeforeMonth(d.year, d.month) + d.day
  }

  /** Dates compare by year, then month, then day. */
  predicate OnOrBefore(a: RawDate, b: RawDate) {
    a.year < b.year
    || (a.year == b.year && (a.month < b.month || (a.month == b.month && a.day <= b.day)))
  }

  function NextDay(d: Date): Date {
    if d.day < DaysInMonth(d.year, d.month) then RawDate(d.year, d.month, d.day + 1)
    else if d.month < 12 then RawDate(d.year, d.month + 1, 1)
    else RawDate(d.year + 1, 1, 1)
  }

  function AddDays(d: Date, days: nat): Date {
    if days == 0 then d else NextDay(AddDays(d, days - 1))
  }

  /** Adds calendar months, clamping the day to the length of the month reached. */
  function AddMonths(d: Date, months: nat): Date {
    var total := d.year * 12 + (d.month - 1) + months;
    var year, month := total / 12, total % 12 + 1;
    var length := DaysInMonth(year, month);
    RawDate(year, month, if d.day <= length then d.day else length)
  }

  lemma QuotientStep(y: int, k: int)
    requires k in {4, 100, 400}
    ensures y / k == (y - 1) / k + if y % k == 0 then 1 else 0
  {
    if k == 4 {
    } else if k == 100 {
    } else {
    }
  }

  lemma YearLength(year: int)
    ensures DaysBeforeYear(year + 1) == DaysBeforeYear(year) + if IsLeap(year) then 366 else 365
  {
    QuotientStep(year, 4);
    QuotientStep(year, 100);
    QuotientStep(year, 400);
    LeapDivisors(year);
  }

  lemma LeapDivisors(year: int)
    ensures year % 100 == 0 ==> year % 4 == 0
    ensures year % 400 == 0 ==> year % 100 == 0
  {
    var century := year / 100;
    var cycle := year / 400;
    if year % 100 == 0 {
      MultiplesOf(4, 25 * century);
    }
    if year % 400 == 0 {
      MultiplesOf(100, 4 * cycle);
    }
  }

  lemma MultiplesOf(k: int, q: int)
    requires k == 4 || k == 100
    ensures (k * q) % k == 0
  {
    if k == 4 {
      assert (4 * q) % 4 == 0;
    } else {
      assert (100 * q) % 100 == 0;
    }
  }

  lemma MonthsFillTheYear(year: int)
    ensures DaysBeforeMonth(year, 12) + 31 == if IsLeap(year) then 366 else 365
  {
    assert DaysBeforeMonth(year, 1) == 0;
    assert DaysBeforeMonth(year, 2) == 31;
    assert DaysBeforeMonth(year, 3) == 31 + DaysInMonth(year, 2);
    assert DaysBeforeMonth(year, 4) == DaysBeforeMonth(year, 3) + 31;
    assert DaysBeforeMonth(year, 5) == DaysBeforeMonth(year, 4) + 30;
    assert DaysBeforeMonth(year, 6) == DaysBeforeMonth(year, 5) + 31;
    assert DaysBeforeMonth(year, 7) == DaysBeforeMonth(year, 6) + 30;
    assert DaysBeforeMonth(year, 8) == DaysBeforeMonth(year, 7) + 31;
    assert DaysBeforeMonth(year, 9) == DaysBeforeMonth(year, 8) + 31;
    assert DaysBeforeMonth(year, 10) == DaysBeforeMonth(year, 9) + 30;
    assert DaysBeforeMonth(year, 11) == DaysBeforeMonth(year, 10) + 31;
  }

  /** Month starts are spaced by exactly the length of each month, across year ends too. */
  lemma MonthStartStep(index: int)
    ensures MonthStart(index + 1) == MonthStart(index) + MonthLength(index)
  {
    var year, month := index / 12, index % 12 + 1;
    if month < 12 {
      assert (index + 1) / 12 == year && (index + 1) % 12 == month;
    } else {
      assert (index + 1) / 12 == year + 1 && (index + 1) % 12 == 0;
      YearLength(year);
      MonthsFillTheYear(year);
    }
  }

  lemma OrdinalByMonth(d: Date)
    ensures Ordinal(d) == MonthStart(MonthIndex(d)) + d.day
    ensures 1 <= d.day <= MonthLength(MonthIndex(d))
  {
    assert MonthIndex(d) / 12 == d.year && MonthIndex(d) % 12 == d.month - 1;
  }

  lemma {:induction false} MonthStartMonotone(a: int, b: int)
    requires a < b
    ensures MonthStart(a) + MonthLength(a) <= MonthStart(b)
    decreases b - a
  {
    MonthStartStep(b - 1);
    if a < b - 1 {
      MonthStartMonotone(a, b - 1);
    }
  }

  /** The day number orders dates exactly as the calendar does, so it is injective. */
  lemma OrdinalOrders(a: Date, b: Date)
    ensures OnOrBefore(a, b) <==> Ordinal(a) <= Ordinal(b)
    ensures a == b <==> Ordinal(a) == Ordinal(b)
  {
    OrdinalByMonth(a);
    OrdinalByMonth(b);
    if MonthIndex(a) < MonthIndex(b) {
      MonthStartMonotone(MonthIndex(a), MonthIndex(b));
    } else if MonthIndex(b) < MonthIndex(a) {
      MonthStartMonotone(MonthIndex(b), MonthIndex(a));
    }
  }

  lemma NextDayOrdinal(d: Date)
    ensures Ordinal(NextDay(d)) == Ordinal(d) + 1
  {
    if d.day == DaysInMonth(d.year, d.month) && d.month == 12 {
      YearLength(d.year);
      MonthsFillTheYear(d.year);
      assert DaysBeforeMonth(d.year + 1, 1) == 0;
    }
  }

  lemma {:induction false} AddDaysOrdinal(d: Date, days: nat)
    ensures Ordinal(AddDays(d, days)) == Ordinal(d) + days
  {
    if days > 0 {
      AddDaysOrdinal(d, days - 1);
      NextDayOrdinal(AddDays(d, days - 1));
    }
  }

  lemma {:induction false} AddDaysAdds(d: Date, a: nat, b: nat)
    ensures AddDays(AddDays(d, a), b) == AddDays(d, a + b)
  {
    if b > 0 {
      AddDaysAdds(d, a, b - 1);
    }
  }

  function Clamp(day: int, length: int): int {
    if day <= length then day else length
  }

  lemma AddMonthsIndex(d: Date, months: nat)
    ensures MonthIndex(AddMonths(d, months)) == MonthIndex(d) + months
    ensures AddMonths(d, months).day == Clamp(d.day, MonthLength(MonthIndex(d) + months))
  {
  }

  lemma AddMonthsOrdinal(d: Date, months: nat)
    ensures Ordinal(AddMonths(d, months)) ==
            MonthStart(MonthIndex(d) + months) + Clamp(d.day, MonthLength(MonthIndex(d) + months))
  {
    AddMonthsIndex(d, months);
    OrdinalByMonth(AddMonths(d, months));
  }

  /** Clamping one day to two neighbouring months, the first of which starts the count. */
  lemma ClampedGap(day: int, length: int, next: int)
    requires 28 <= length <= 31 && 28 <= next <= 31 && 1 <= day <= 31
    ensures 28 <= length - Clamp(day, length) + Clamp(day, next) <= 31
  {
  }

  /** Consecutive clamped month dates of one anchor are 28 to 31 days apart. */
  lemma AddMonthsStep(d: Date, months: nat)
    ensures 28 <= Ordinal(AddMonths(d, months + 1)) - Ordinal(AddMonths(d, months)) <= 31
  {
    var index := MonthIndex(d) + months;
    AddMonthsOrdinal(d, months);
    AddMonthsOrdinal(d, months + 1);
    MonthStartStep(index);
    ClampedGap(d.day, MonthLength(index), MonthLength(index + 1));
  }

  lemma AddNoMonths(d: Date)
    ensures AddMonths(d, 0) == d
  {
    assert (d.year * 12 + (d.month - 1)) / 12 == d.year;
  }

  // ------------------------------------------------------------------- which calendar

  /** The twelve month lengths; February has a day more in years divisible by 4, save centuries not divisible by 400. */
  lemma MonthLengths(year: int)
    ensures seq(12, i requires 0 <= i < 12 => DaysInMonth(year, i + 1)) ==
            [31, if year % 400 == 0 || (year % 4 == 0 && year % 100 != 0) then 29 else 28,
             31, 30, 31, 30, 31, 31, 30, 31, 30, 31]
  {
    LeapDivisors(year);
  }

  lemma LeapsRecur(year: int)
    ensures IsLeap(year + 400) <==> IsLeap(year)
    ensures DaysBeforeYear(year + 400) == DaysBeforeYear(year) + 146097
  {
    var y := year - 1;
    assert (y + 400) / 4 == y / 4 + 100 && (y + 400) / 100 == y / 100 + 4 && (y + 400) / 400 == y / 400 + 1;
    assert (year + 400) % 4 == year % 4 && (year + 400) % 100 == year % 100 && (year + 400) % 400 == year % 400;
  }

  lemma {:induction false} MonthsRecur(year: int, month: nat)
    ensures DaysBeforeMonth(year + 400, month) == DaysBeforeMonth(year, month)
  {
    if month > 1 {
      LeapsRecur(year);
      MonthsRecur(year, month - 1);
    }
  }

  lemma SameMonthsLater(year: int, month: int)
    ensures DaysInMonth(year + 400, month) == DaysInMonth(year, month)
  {
    LeapsRecur(year);
  }

  /** The calendar repeats every four hundred years, which are 146097 days. */
  lemma CalendarRecurs(d: Date, later: RawDate)
    requires later == RawDate(d.year + 400, d.month, d.day)
    ensures IsDate(later) && Ordinal(later) == Ordinal(d) + 146097
  {
    SameMonthsLater(d.year, d.month);
    MonthsRecur(d.year, d.month);
    YearsRecur(d.year);
  }

  lemma YearsRecur(year: int)
    ensures DaysBeforeYear(year + 400) == DaysBeforeYear(year) + 146097
  {
    LeapsRecur(year);
  }

  /** Day numbers start at 1 on 1 January of year 1. */
  lemma DayOne()
    ensures Ordinal(RawDate(1, 1, 1)) == 1
  {
    assert DaysBeforeYear(1) == 0;
  }
}
