/** Schedules over any number of horizon extensions, and runs of the extension job. */
module Horizons {
  import opened Calendar
  import opened Frequency

  const LOOKAHEAD_DAYS := 60

  /** Every date a subscription created on `start` has after `extensions` extensions. */
  function Schedule(start: Date, f: Cadence, extensions: nat): (dates: seq<Date>)
    ensures |dates| > 0
  {
    if extensions == 0 then EventDates(start, f)
    else
      var before := Schedule(start, f, extensions - 1);
      before + NextDatesAfter(Last(before), f)
  }

  lemma {:induction false} ScheduleSize(start: Date, f: Cadence, extensions: nat)
    ensures |Schedule(start, f, extensions)| == HorizonSize(f) * (extensions + 1)
  {
    if extensions > 0 {
      ScheduleSize(start, f, extensions - 1);
      OneMore(HorizonSize(f), extensions);
    }
  }

  /**
    No gap and no clash at the joins: any two consecutive dates of a schedule, and the start
    and the first date, are a legal interval apart.
   */
  lemma {:induction false} ScheduleGaps(start: Date, f: Cadence, extensions: nat, i: nat)
    requires i < |Schedule(start, f, extensions)|
    ensures InGap(if i == 0 then start else Schedule(start, f, extensions)[i - 1],
                  Schedule(start, f, extensions)[i], f)
  {
    if extensions == 0 {
      FirstHorizonIsAnExtension(start, f);
      HorizonGaps(start, f, i);
    } else {
      var before := Schedule(start, f, extensions - 1);
      if i < |before| {
        ScheduleGaps(start, f, extensions - 1, i);
      } else {
        HorizonGaps(Last(before), f, i - |before|);
      }
    }
  }

  lemma {:induction false} ScheduleIncreases(start: Date, f: Cadence, extensions: nat, i: nat, j: nat)
    requires i < j < |Schedule(start, f, extensions)|
    ensures Ordinal(Schedule(start, f, extensions)[i]) < Ordinal(Schedule(start, f, extensions)[j])
    decreases j - i
  {
    ScheduleGaps(start, f, extensions, j);
    if i < j - 1 {
      ScheduleIncreases(start, f, extensions, i, j - 1);
    }
  }

  /** Hence the unique constraint on (subscription, scheduled date) can never fire. */
  lemma ScheduleHasNoRepeat(start: Date, f: Cadence, extensions: nat, i: nat, j: nat)
    requires i < |Schedule(start, f, extensions)| && j < |Schedule(start, f, extensions)|
    requires Schedule(start, f, extensions)[i] == Schedule(start, f, extensions)[j]
    ensures i == j
  {
    if i < j {
      ScheduleIncreases(start, f, extensions, i, j);
    } else if j < i {
      ScheduleIncreases(start, f, extensions, j, i);
    }
  }

  /** Dates falling in consecutive calendar months after month `from`. */
  ghost predicate ConsecutiveMonths(dates: seq<Date>, from: int) {
    forall i :: 0 <= i < |dates| ==> MonthIndex(dates[i]) == from + i + 1
  }

  lemma JoinMonths(before: seq<Date>, added: seq<Date>, from: int)
    requires before != [] && ConsecutiveMonths(before, from)
    requires ConsecutiveMonths(added, MonthIndex(Last(before)))
    ensures ConsecutiveMonths(before + added, from)
  {
  }

  /** Monthly schedules visit every calendar month after the start exactly once, in order. */
  lemma {:induction false} MonthlySchedule(start: Date, extensions: nat)
    ensures ConsecutiveMonths(Schedule(start, Monthly, extensions), MonthIndex(start))
  {
    if extensions == 0 {
      FirstHorizonIsAnExtension(start, Monthly);
      HorizonMonths(start);
    } else {
      var before := Schedule(start, Monthly, extensions - 1);
      MonthlySchedule(start, extensions - 1);
      HorizonMonths(Last(before));
      JoinMonths(before, NextDatesAfter(Last(before), Monthly), MonthIndex(start));
    }
  }

  lemma HorizonMonths(last: Date)
    ensures ConsecutiveMonths(NextDatesAfter(last, Monthly), MonthIndex(last))
  {
    forall i: nat | i < HORIZON_MONTHS
      ensures MonthIndex(NextDatesAfter(last, Monthly)[i]) == MonthIndex(last) + i + 1
    {
      AddMonthsIndex(last, i + 1);
    }
  }

  /** One arithmetic progression of dates, `step` days apart, starting one step after `start`. */
  ghost predicate Progression(dates: seq<Date>, start: Date, step: nat) {
    forall i :: 0 <= i < |dates| ==> dates[i] == AddDays(start, step * (i + 1))
  }

  lemma StepsAdd(start: Date, step: nat, a: nat, b: nat)
    ensures AddDays(AddDays(start, step * a), step * b) == AddDays(start, step * (a + b))
  {
    AddDaysAdds(start, step * a, step * b);
    assert step * a + step * b == step * (a + b);
  }

  lemma LaterTerm(before: seq<Date>, added: seq<Date>, start: Date, step: nat, j: nat)
    requires before != [] && Progression(before, start, step) && Progression(added, Last(before), step)
    requires j < |added|
    ensures added[j] == AddDays(start, step * (|before| + j + 1))
  {
    StepsAdd(start, step, |before|, j + 1);
    assert Last(before) == AddDays(start, step * |before|);
  }

  lemma JoinProgressions(before: seq<Date>, added: seq<Date>, start: Date, step: nat)
    requires before != [] && Progression(before, start, step) && Progression(added, Last(before), step)
    ensures Progression(before + added, start, step)
  {
    var all := before + added;
    forall i | 0 <= i < |all| ensures all[i] == AddDays(start, step * (i + 1)) {
      if i < |before| {
        assert all[i] == before[i];
      } else {
        var j := i - |before|;
        LaterTerm(before, added, start, step, j);
        assert all[i] == added[j] && |before| + j + 1 == i + 1;
      }
    }
  }

  /** Weekly and biweekly schedules are one exact arithmetic progression. */
  lemma {:induction false} PeriodicSchedule(start: Date, f: Cadence, extensions: nat)
    requires !f.Monthly?
    ensures Progression(Schedule(start, f, extensions), start, Interval(f))
  {
    if extensions == 0 {
      FirstHorizonIsAnExtension(start, f);
    } else {
      var before := Schedule(start, f, extensions - 1);
      PeriodicSchedule(start, f, extensions - 1);
      JoinProgressions(before, NextDatesAfter(Last(before), f), start, Interval(f));
    }
  }

  /**
    Clamping is not undone: the day of month that the next horizon is counted from never
    rises, but it never falls below the original day or 28, whichever is less.
   */
  lemma {:induction false} AnchorDrift(start: Date, extensions: nat)
    ensures Clamp(start.day, 28) <= Last(Schedule(start, Monthly, extensions)).day <= start.day
    ensures extensions > 0 ==>
              Last(Schedule(start, Monthly, extensions)).day <= Last(Schedule(start, Monthly, extensions - 1)).day
  {
    if extensions == 0 {
      FirstHorizonIsAnExtension(start, Monthly);
      OneHorizonDrift(start);
    } else {
      AnchorDrift(start, extensions - 1);
      OneHorizonDrift(Last(Schedule(start, Monthly, extensions - 1)));
    }
  }

  lemma OneHorizonDrift(anchor: Date)
    ensures Clamp(anchor.day, 28) <= Last(NextDatesAfter(anchor, Monthly)).day <= anchor.day
  {
    AddMonthsIndex(anchor, HORIZON_MONTHS);
  }

  // ---------------------------------------------------------------- repeated runs

  predicate Near(last: Date, today: Date) {
    OnOrBefore(last, AddDays(today, LOOKAHEAD_DAYS))
  }

  lemma NearByOrdinal(last: Date, today: Date)
    ensures Near(last, today) <==> Ordinal(last) <= Ordinal(today) + LOOKAHEAD_DAYS
  {
    AddDaysOrdinal(today, LOOKAHEAD_DAYS);
    OrdinalOrders(last, AddDays(today, LOOKAHEAD_DAYS));
  }

  /** The last scheduled date after one run of the extension job. */
  function AfterRun(last: Date, today: Date, f: Cadence): Date {
    if Near(last, today) then Last(NextDatesAfter(last, f)) else last
  }

  /** The last scheduled date after `runs` runs on the same day. */
  function AfterRuns(last: Date, today: Date, f: Cadence, runs: nat): Date {
    if runs == 0 then last else AfterRun(AfterRuns(last, today, f, runs - 1), today, f)
  }

  lemma RunAdvances(last: Date, today: Date, f: Cadence)
    ensures Near(last, today) ==> Ordinal(AfterRun(last, today, f)) >= Ordinal(last) + 84
    ensures !Near(last, today) ==> AfterRun(last, today, f) == last
  {
    ExtensionAdvances(last, f);
  }

  lemma {:induction false} RunsAdvance(last: Date, today: Date, f: Cadence, runs: nat)
    ensures !Near(AfterRuns(last, today, f, runs), today)
            || Ordinal(AfterRuns(last, today, f, runs)) >= Ordinal(last) + 84 * runs
    ensures Ordinal(AfterRuns(last, today, f, runs)) >= Ordinal(last)
  {
    if runs > 0 {
      var before := AfterRuns(last, today, f, runs - 1);
      RunsAdvance(last, today, f, runs - 1);
      RunAdvances(before, today, f);
    }
  }

  /** Same-day re-runs stop extending after at most floor((today + 60 - last) / 84) + 1 of them. */
  lemma RunsReachFixpoint(last: Date, today: Date, f: Cadence, runs: nat)
    requires Near(last, today)
    requires runs >= (Ordinal(today) + LOOKAHEAD_DAYS - Ordinal(last)) / 84 + 1
    ensures !Near(AfterRuns(last, today, f, runs), today)
    ensures AfterRuns(last, today, f, runs + 1) == AfterRuns(last, today, f, runs)
  {
    RunsAdvance(last, today, f, runs);
    NearByOrdinal(AfterRuns(last, today, f, runs), today);
  }

  /** One run is enough once the schedule reaches past 24 days ago. */
  lemma SecondRunIsIdle(last: Date, today: Date, f: Cadence)
    requires Ordinal(last) > Ordinal(today) - 24
    ensures AfterRuns(last, today, f, 2) == AfterRuns(last, today, f, 1)
  {
    assert AfterRuns(last, today, f, 1) == AfterRun(AfterRuns(last, today, f, 0), today, f);
    NearByOrdinal(last, today);
    ExtensionAdvances(last, f);
    NearByOrdinal(AfterRun(last, today, f), today);
  }

  /** A periodic horizon is exactly twelve weeks long. */
  lemma PeriodicAdvance(last: Date, f: Cadence)
    requires !f.Monthly?
    ensures Ordinal(Last(NextDatesAfter(last, f))) == Ordinal(last) + 84
  {
    AddDaysOrdinal(last, Interval(f) * HorizonSize(f));
  }

  /**
    A run leaves the schedule more than 60 days ahead if it was less than 24 days behind, and for
    the periodic cadences only then.
   */
  lemma RunStaysAhead(last: Date, today: Date, f: Cadence)
    ensures Ordinal(last) > Ordinal(today) - 24 ==> Ordinal(AfterRun(last, today, f)) > Ordinal(today) + LOOKAHEAD_DAYS
    ensures !f.Monthly? && Ordinal(AfterRun(last, today, f)) > Ordinal(today) + LOOKAHEAD_DAYS ==>
              Ordinal(last) > Ordinal(today) - 24
  {
    NearByOrdinal(last, today);
    ExtensionAdvances(last, f);
    if !f.Monthly? {
      PeriodicAdvance(last, f);
    }
  }

  /** The last scheduled date after runs on the given days. */
  function AfterPasses(last: Date, f: Cadence, days: seq<Date>): Date {
    if days == [] then last
    else AfterRun(AfterPasses(last, f, days[..|days| - 1]), days[|days| - 1], f)
  }

  /** The first run is less than 24 days late, and no two runs are more than 84 days apart. */
  ghost predicate OftenEnough(last: Date, days: seq<Date>) {
    && (days != [] ==> Ordinal(days[0]) < Ordinal(last) + 24)
    && (forall i :: 0 < i < |days| ==> Ordinal(days[i]) <= Ordinal(days[i - 1]) + 84)
  }

  /** Run often enough, a schedule reaches more than 60 days ahead after every run. */
  lemma {:induction false} PassesStayAhead(last: Date, f: Cadence, days: seq<Date>)
    requires days != [] && OftenEnough(last, days)
    ensures Ordinal(AfterPasses(last, f, days)) > Ordinal(Last(days)) + LOOKAHEAD_DAYS
    decreases |days|
  {
    var n := |days| - 1;
    if n > 0 {
      PassesStayAhead(last, f, days[..n]);
    }
    RunStaysAhead(AfterPasses(last, f, days[..n]), days[n], f);
  }

  /** The days of a job that runs daily. */
  function Daily(first: Date, count: nat): (days: seq<Date>)
    ensures |days| == count
  {
    seq(count, i requires 0 <= i < count => AddDays(first, i))
  }

  /** Run daily from any of the first 108 days on, a new schedule always reaches more than 60 days ahead. */
  lemma DailyRunsStayAhead(created: Date, f: Cadence, delay: nat, count: nat)
    requires delay <= 107 && count > 0
    ensures var days := Daily(AddDays(created, delay), count);
            Ordinal(AfterPasses(Last(EventDates(created, f)), f, days)) > Ordinal(Last(days)) + LOOKAHEAD_DAYS
  {
    DailyIsOftenEnough(created, f, delay, count);
    PassesStayAhead(Last(EventDates(created, f)), f, Daily(AddDays(created, delay), count));
  }

  lemma DailyIsOftenEnough(created: Date, f: Cadence, delay: nat, count: nat)
    requires delay <= 107
    ensures OftenEnough(Last(EventDates(created, f)), Daily(AddDays(created, delay), count))
  {
    var first := AddDays(created, delay);
    FirstHorizonIsAnExtension(created, f);
    ExtensionAdvances(created, f);
    AddDaysOrdinal(created, delay);
    forall i: nat
      ensures Ordinal(AddDays(first, i)) == Ordinal(first) + i
    {
      AddDaysOrdinal(first, i);
    }
  }
}
