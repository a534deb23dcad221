/** Delivery cadences and the dates of one horizon. */
module Frequency {
  import opened Calendar

  datatype Cadence = Weekly | Biweekly | Monthly

  const HORIZON_MONTHS := 3

  /** Days between deliveries of a periodic cadence. */
  function Interval(f: Cadence): (days: nat)
    requires !f.Monthly?
    ensures days > 0
  {
    if f.Weekly? then 7 else 14
  }

  /** Deliveries in one horizon. */
  function HorizonSize(f: Cadence): (count: nat)
    ensures count > 0
  {
    match f
    case Weekly => 12
    case Biweekly => 6
    case Monthly => HORIZON_MONTHS
  }

  /** The horizon a new subscription gets: first delivery one interval after `today`. */
  function EventDates(today: Date, f: Cadence): (dates: seq<Date>)
    ensures |dates| == HorizonSize(f)
  {
    if f.Monthly? then
      seq(HORIZON_MONTHS, i requires 0 <= i < HORIZON_MONTHS => AddMonths(today, i + 1))
    else
      var first := AddDays(today, Interval(f));
      seq(HorizonSize(f), i requires 0 <= i < HorizonSize(f) => AddDays(first, Interval(f) * i))
  }

  /** The horizon an extension appends after the last scheduled date. */
  function NextDatesAfter(last: Date, f: Cadence): (dates: seq<Date>)
    ensures |dates| == HorizonSize(f)
  {
    if f.Monthly? then
      seq(HORIZON_MONTHS, i requires 0 <= i < HORIZON_MONTHS => AddMonths(last, i + 1))
    else
      seq(HorizonSize(f), i requires 0 <= i < HorizonSize(f) => AddDays(last, Interval(f) * (i + 1)))
  }

  function Last<T>(s: seq<T>): T
    requires s != []
  {
    s[|s| - 1]
  }

  /** The least and the greatest number of days between two consecutive deliveries. */
  function GapRange(f: Cadence): (int, int) {
    match f
    case Weekly => (7, 7)
    case Biweekly => (14, 14)
    case Monthly => (28, 31)
  }

  ghost predicate InGap(a: Date, b: Date, f: Cadence) {
    GapRange(f).0 <= Ordinal(b) - Ordinal(a) <= GapRange(f).1
  }

  /** Creating a horizon and extending from the same day give the same dates. */
  lemma FirstHorizonIsAnExtension(day: Date, f: Cadence)
    ensures EventDates(day, f) == NextDatesAfter(day, f)
  {
    if !f.Monthly? {
      forall i | 0 <= i < HorizonSize(f)
        ensures EventDates(day, f)[i] == NextDatesAfter(day, f)[i]
      {
        AddDaysAdds(day, Interval(f), Interval(f) * i);
      }
    }
  }

  /**
    The i-th date of a monthly horizon is i months on from the date it is counted from, on the same
    day, or on the last day of a month that is shorter: a short month does not carry over to the next.
   */
  lemma MonthlyHorizon(last: Date, i: nat)
    requires i < 3
    ensures var date := NextDatesAfter(last, Monthly)[i];
            && date.year * 12 + date.month == last.year * 12 + last.month + i + 1
            && date.day == if last.day <= DaysInMonth(date.year, date.month) then last.day
                           else DaysInMonth(date.year, date.month)
  {
    AddMonthsIndex(last, i + 1);
  }

  lemma HorizonGaps(last: Date, f: Cadence, i: nat)
    requires i < HorizonSize(f)
    ensures InGap(if i == 0 then last else NextDatesAfter(last, f)[i - 1], NextDatesAfter(last, f)[i], f)
  {
    if f.Monthly? {
      AddNoMonths(last);
      AddMonthsStep(last, i);
    } else {
      PeriodicDates(last, f, i);
      if i > 0 {
        PeriodicDates(last, f, i - 1);
      }
      OneMore(Interval(f), i);
    }
  }

  lemma PeriodicDates(last: Date, f: Cadence, i: nat)
    requires !f.Monthly? && i < HorizonSize(f)
    ensures Ordinal(NextDatesAfter(last, f)[i]) == Ordinal(last) + Interval(f) * (i + 1)
  {
    AddDaysOrdinal(last, Interval(f) * (i + 1));
  }

  lemma OneMore(size: nat, n: nat)
    ensures size * n + size == size * (n + 1)
  {
  }

  /** Extending moves the last scheduled date forward by at least 84 days, and at most 93. */
  lemma ExtensionAdvances(last: Date, f: Cadence)
    ensures 84 <= Ordinal(Last(NextDatesAfter(last, f))) - Ordinal(last) <= 93
  {
    if f.Monthly? {
      HorizonGaps(last, f, 0);
      HorizonGaps(last, f, 1);
      HorizonGaps(last, f, 2);
    } else {
      assert Interval(f) * HorizonSize(f) == 84 by {
        if f.Weekly? {
          assert 7 * 12 == 84;
        } else {
          assert 14 * 6 == 84;
        }
      }
      AddDaysOrdinal(last, 84);
    }
  }
}
