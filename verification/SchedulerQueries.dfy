/** The scheduler's queries can always be answered, in every state and on every day. */
module SchedulerQueries {
  import opened Wrappers
  import opened Calendar
  import opened Frequency
  import opened Horizons
  import opened Shop
  import opened SubscriptionTables
  import opened SubscriptionSteps
  import opened SchedulerRuns

  // ------------------------------------------------------------------- due events

  ghost predicate ByDate(events: seq<Event>, rows: seq<EventId>) {
    && (forall i :: 0 <= i < |rows| ==> rows[i] < |events|)
    && (forall i, j :: 0 <= i < j < |rows| ==> OnOrBefore(events[rows[i]].date, events[rows[j]].date))
  }

  /** Puts an event before the first that is not earlier. */
  function InsertByDate(events: seq<Event>, rows: seq<EventId>, e: EventId): seq<EventId>
    requires e < |events| && forall i :: 0 <= i < |rows| ==> rows[i] < |events|
  {
    if rows == [] || OnOrBefore(events[e].date, events[rows[0]].date) then [e] + rows
    else [rows[0]] + InsertByDate(events, rows[1..], e)
  }

  lemma {:induction false} Inserted(events: seq<Event>, rows: seq<EventId>, e: EventId)
    requires e < |events| && ByDate(events, rows) && Distinct(rows) && e !in rows
    ensures ByDate(events, InsertByDate(events, rows, e)) && Distinct(InsertByDate(events, rows, e))
    ensures forall d: EventId :: d in InsertByDate(events, rows, e) <==> d == e || d in rows
  {
    if rows != [] && !OnOrBefore(events[e].date, events[rows[0]].date) {
      Inserted(events, rows[1..], e);
      var later := InsertByDate(events, rows[1..], e);
      forall d: EventId | d in later
        ensures d < |events| && OnOrBefore(events[rows[0]].date, events[d].date) && d != rows[0]
      {
        assert d == e || d in rows[1..];
      }
      FirstStays(events, rows[0], later);
      assert forall d :: d in rows <==> d == rows[0] || d in rows[1..];
    }
  }

  lemma FirstStays(events: seq<Event>, first: EventId, later: seq<EventId>)
    requires first < |events| && ByDate(events, later) && Distinct(later)
    requires forall d :: d in later ==> d < |events| && OnOrBefore(events[first].date, events[d].date) && d != first
    ensures ByDate(events, [first] + later) && Distinct([first] + later)
  {
  }

  /** The due events among the first `n`, in date order. */
  lemma {:induction false} DueAmong(s: State, today: Date, n: nat) returns (rows: seq<EventId>)
    requires n <= |s.events|
    ensures ByDate(s.events, rows) && Distinct(rows)
    ensures forall e: EventId :: e in rows <==> e < n && Due(s, e, today)
  {
    if n == 0 {
      rows := [];
    } else {
      var before := DueAmong(s, today, n - 1);
      rows := before;
      if Due(s, n - 1, today) {
        Inserted(s.events, before, n - 1);
        rows := InsertByDate(s.events, before, n - 1);
      }
    }
  }

  lemma DueQueryExists(s: State, today: Date) returns (rows: seq<EventId>)
    ensures IsDueQuery(s, today, rows)
  {
    rows := DueAmong(s, today, |s.events|);
  }

  // ------------------------------------------------------------------- extensions

  lemma {:induction false} HorizonsAmong(s: State, today: Date, n: nat) returns (rows: seq<(SubId, Date)>)
    requires n <= |s.subs|
    ensures forall k: SubId, last: Date :: (k, last) in rows <==> k < n && NeedsHorizon(s, k, last, today)
    ensures Distinct(rows)
  {
    if n == 0 {
      rows := [];
    } else {
      rows := HorizonsAmong(s, today, n - 1);
      var last := MaxDate(s.events, n - 1);
      if last.Some? && NeedsHorizon(s, n - 1, last.value, today) {
        var before := rows;
        assert (n - 1, last.value) !in before;
        rows := before + [(n - 1, last.value)];
      }
    }
  }

  lemma ExtensionQueryExists(s: State, today: Date) returns (rows: seq<(SubId, Date)>)
    ensures IsExtensionQuery(s, today, rows)
  {
    rows := HorizonsAmong(s, today, |s.subs|);
  }

  /** So a daily run is possible in any state, and what is proved of every daily run is not empty. */
  lemma DailyRunExists(s: State, today: Date) returns (due: seq<EventId>, rows: seq<(SubId, Date)>)
    ensures LegalDailyRun(s, today, due, rows)
  {
    due := DueQueryExists(s, today);
    rows := ExtensionQueryExists(SyncCompleted(ProcessRows(s, due)), today);
  }
}
