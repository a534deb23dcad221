/** What repeated and missed runs of the scheduler amount to. */
module SchedulerRuns {
  import opened Wrappers
  import opened Calendar
  import opened Frequency
  import opened Horizons
  import opened OrderStatuses
  import opened Shop
  import opened SubscriptionTables
  import opened SubscriptionSteps
  import opened SubscriptionInvariant
  import opened SubscriptionPreservation
  import opened SubscriptionRuns

  // ------------------------------------------------------------------- due events

  ghost predicate Distinct<T>(rows: seq<T>) {
    forall i, j :: 0 <= i < j < |rows| ==> rows[i] != rows[j]
  }

  /** Rows of the due query, each with its address and its snapshot. */
  ghost predicate Materializable(s: State, rows: seq<EventId>) {
    Distinct(rows) && forall i :: 0 <= i < |rows| ==> StillDue(s, rows[i]) && CanMaterialize(s, rows[i])
  }

  lemma DueRowsMaterialize(s: State, today: Date, rows: seq<EventId>)
    requires Lifecycle(s) && IsDueQuery(s, today, rows)
    ensures Materializable(s, rows)
  {
    DueRowsAreDue(s, today, rows);
    forall i | 0 <= i < |rows|
      ensures CanMaterialize(s, rows[i])
    {
      assert EventFits(s, s.events[rows[i]]);
    }
  }

  /** Processing adds one order per row and touches only the events of those rows. */
  lemma {:induction false} ProcessFrame(s: State, rows: seq<EventId>)
    requires Materializable(s, rows)
    ensures var r := ProcessRows(s, rows);
            && r == s.(events := r.events, orders := r.orders)
            && |r.events| == |s.events| && |r.orders| == |s.orders| + |rows|
            && (forall o :: 0 <= o < |s.orders| ==> r.orders[o] == s.orders[o])
            && (forall e :: 0 <= e < |s.events| && e !in rows ==> r.events[e] == s.events[e])
  {
    if rows != [] {
      var n := |rows| - 1;
      ProcessFrame(s, rows[..n]);
      assert rows[n] !in rows[..n];
    }
  }

  /** An event that was turned into the order `o`, built from its own price and snapshot. */
  ghost predicate OrderedAs(s: State, r: State, e: EventId, o: OrderId) {
    && CanMaterialize(s, e) && e < |r.events| && o < |r.orders|
    && r.events[e] == s.events[e].(order := Some(o), status := EventStatus.Ready)
    && r.orders[o] == BuildOrder(s.subs[s.events[e].sub], s.events[e])
  }

  /** The i-th row gets the i-th new order. */
  lemma {:induction false} ProcessedRow(s: State, rows: seq<EventId>, i: nat)
    requires Materializable(s, rows) && i < |rows|
    ensures OrderedAs(s, ProcessRows(s, rows), rows[i], |s.orders| + i)
  {
    var n := |rows| - 1;
    ProcessFrame(s, rows[..n]);
    assert rows[n] !in rows[..n];
    if i < n {
      ProcessedRow(s, rows[..n], i);
      assert rows[..n][i] == rows[i];
    }
  }

  lemma ProcessedEvent(s: State, rows: seq<EventId>, e: EventId) returns (o: OrderId)
    requires Materializable(s, rows) && e in rows
    ensures OrderedAs(s, ProcessRows(s, rows), e, o)
  {
    var i :| 0 <= i < |rows| && rows[i] == e;
    ProcessedRow(s, rows, i);
    o := |s.orders| + i;
  }

  function Members(rows: seq<EventId>): set<EventId> {
    set e | e in rows
  }

  lemma {:induction false} DistinctSize(rows: seq<EventId>)
    requires Distinct(rows)
    ensures |Members(rows)| == |rows|
  {
    if rows != [] {
      var n := |rows| - 1;
      DistinctSize(rows[..n]);
      assert rows[n] !in rows[..n];
      assert Members(rows) == Members(rows[..n]) + {rows[n]};
    }
  }

  lemma DueLater(s: State, d1: Date, d2: Date, e: EventId)
    requires OnOrBefore(d1, d2) && Due(s, e, d1)
    ensures Due(s, e, d2)
  {
    OrdinalOrders(s.events[e].date, d1);
    OrdinalOrders(d1, d2);
    OrdinalOrders(s.events[e].date, d2);
  }

  /** What a later query finds: everything due by then, less what was processed before. */
  lemma LaterRow(s: State, d1: Date, due1: seq<EventId>, d2: Date, e: EventId)
    requires Lifecycle(s) && OnOrBefore(d1, d2) && IsDueQuery(s, d1, due1)
    ensures Due(s, e, d2) <==> e in due1 || Due(ProcessRows(s, due1), e, d2)
    ensures e in due1 ==> !Due(ProcessRows(s, due1), e, d2)
  {
    DueRowsMaterialize(s, d1, due1);
    ProcessFrame(s, due1);
    assert e in due1 <==> Due(s, e, d1);
    if e in due1 {
      DueLater(s, d1, d2, e);
      var o := ProcessedEvent(s, due1, e);
    }
  }

  lemma LaterQuery(s: State, d1: Date, due1: seq<EventId>, d2: Date, due2: seq<EventId>, due: seq<EventId>)
    requires Lifecycle(s) && OnOrBefore(d1, d2)
    requires IsDueQuery(s, d1, due1) && IsDueQuery(ProcessRows(s, due1), d2, due2) && IsDueQuery(s, d2, due)
    ensures forall e :: e in due <==> e in due1 || e in due2
    ensures forall e :: e in due1 ==> e !in due2
    ensures |due| == |due1| + |due2|
  {
    forall e
      ensures e in due <==> e in due1 || e in due2
      ensures e in due1 ==> e !in due2
    {
      LaterRow(s, d1, due1, d2, e);
    }
    DistinctSize(due);
    DistinctSize(due1);
    DistinctSize(due2);
    assert Members(due) == Members(due1) + Members(due2);
    assert Members(due1) !! Members(due2);
  }

  /** One event in two states that may number its order differently. */
  ghost predicate SameEvent(a: State, b: State, e: EventId) {
    && e < |a.events| && e < |b.events|
    && a.events[e].(order := None) == b.events[e].(order := None)
    && (a.events[e].order.Some? <==> b.events[e].order.Some?)
    && (a.events[e].order.Some? ==>
          && a.events[e].order.value < |a.orders| && b.events[e].order.value < |b.orders|
          && a.orders[a.events[e].order.value] == b.orders[b.events[e].order.value])
  }

  /** The same tables, except that orders may be numbered differently. */
  ghost predicate SameUpToOrderNames(a: State, b: State) {
    && a.subs == b.subs && a.payments == b.payments && a.ledger == b.ledger
    && |a.events| == |b.events| && |a.orders| == |b.orders|
    && (forall e :: 0 <= e < |a.events| ==> SameEvent(a, b, e))
  }

  lemma ProcessedEitherWay(s: State, due1: seq<EventId>, due2: seq<EventId>, due: seq<EventId>, e: EventId)
    requires Materializable(s, due1) && Materializable(ProcessRows(s, due1), due2) && Materializable(s, due)
    requires e < |s.events| && EventFits(s, s.events[e])
    requires e in due <==> e in due1 || e in due2
    requires e in due1 ==> e !in due2
    ensures SameEvent(ProcessRows(ProcessRows(s, due1), due2), ProcessRows(s, due), e)
  {
    var m := ProcessRows(s, due1);
    ProcessFrame(s, due1);
    ProcessFrame(m, due2);
    ProcessFrame(s, due);
    if e in due {
      var o := ProcessedEvent(s, due, e);
      if e in due1 {
        var o1 := ProcessedEvent(s, due1, e);
      } else {
        var o2 := ProcessedEvent(m, due2, e);
      }
    }
  }

  /** Catching up: a run at `d1` and then at `d2` does what one run at `d2` does, up to order names. */
  lemma CatchUpEqualsOneRun(s: State, d1: Date, due1: seq<EventId>, d2: Date, due2: seq<EventId>, due: seq<EventId>)
    requires Inv(s) && OnOrBefore(d1, d2)
    requires IsDueQuery(s, d1, due1) && IsDueQuery(ProcessRows(s, due1), d2, due2) && IsDueQuery(s, d2, due)
    ensures SameUpToOrderNames(ProcessRows(ProcessRows(s, due1), due2), ProcessRows(s, due))
  {
    var m := ProcessRows(s, due1);
    LaterQuery(s, d1, due1, d2, due2, due);
    StepKeepsInv(s, ProcessOp(d1, due1));
    DueRowsMaterialize(s, d1, due1);
    DueRowsMaterialize(m, d2, due2);
    DueRowsMaterialize(s, d2, due);
    ProcessFrame(s, due1);
    ProcessFrame(m, due2);
    ProcessFrame(s, due);
    forall e | 0 <= e < |s.events|
      ensures SameEvent(ProcessRows(m, due2), ProcessRows(s, due), e)
    {
      ProcessedEitherWay(s, due1, due2, due, e);
    }
  }

  // ------------------------------------------------------------------- extensions

  lemma {:induction false} EventsOfGrowth(events: seq<Event>, added: seq<Event>, k: SubId)
    ensures (forall i :: 0 <= i < |added| ==> added[i].sub != k) ==> EventsOf(events + added, k) == EventsOf(events, k)
    ensures added != [] && Last(added).sub == k ==>
              EventsOf(events + added, k) != [] && Last(EventsOf(events + added, k)) == |events + added| - 1
  {
    if added == [] {
      assert events + added == events;
    } else {
      var n := |added| - 1;
      EventsOfGrowth(events, added[..n], k);
      assert events + added == events + added[..n] + [added[n]];
      EventsOfAppend(events + added[..n], added[n], k);
    }
  }

  lemma {:induction false} AppendTouchesEventsOnly(s: State, k: SubId, dates: seq<Date>, id: ProductId, p: Product,
                                                   provider: Option<Provider>)
    requires k < |s.subs|
    ensures AppendHorizon(s, k, dates, id, p, provider).orders == s.orders
  {
    if dates != [] {
      AppendTouchesEventsOnly(s, k, dates[..|dates| - 1], id, p, provider);
    }
  }

  /** One extension in closed form. */
  lemma ExtendOneEvents(s: State, k: SubId, last: Date, catalog: Catalog, provider: Option<Provider>)
    requires k < |s.subs|
    ensures var r := ExtendOne(s, k, last, catalog, provider);
            var found := ExtensionProduct(s, k, catalog);
            && r.orders == s.orders
            && r.events == s.events + (if found.None? then [] else
                 var dates := NextDatesAfter(last, s.subs[k].frequency);
                 seq(|dates|, i requires 0 <= i < |dates| => NewEvent(k, dates[i], found.value.0, found.value.1)))
  {
    var found := ExtensionProduct(s, k, catalog);
    if found.Some? {
      var dates := NextDatesAfter(last, s.subs[k].frequency);
      AppendHorizonEvents(s, k, dates, found.value.0, found.value.1, provider);
      AppendTouchesEventsOnly(s, k, dates, found.value.0, found.value.1, provider);
    } else {
      assert s.events + [] == s.events;
    }
  }

  lemma ProductAfterGrowth(s: State, r: State, added: seq<Event>, k: SubId, id: ProductId, p: Product,
                           catalog: Catalog, m: SubId)
    requires ExtensionProduct(s, k, catalog) == Some((id, p))
    requires r.events == s.events + added && added != []
    requires forall i :: 0 <= i < |added| ==>
                           added[i].sub == k && added[i].product == Some(Snapshot(id, p.name, p.price))
    ensures ExtensionProduct(r, m, catalog) == ExtensionProduct(s, m, catalog)
  {
    EventsOfGrowth(s.events, added, m);
    if m == k {
      assert r.events[|r.events| - 1] == Last(added);
    }
  }

  /** Extending one subscription leaves the product every subscription would extend with. */
  lemma ExtendOneKeepsProducts(s: State, k: SubId, last: Date, catalog: Catalog, provider: Option<Provider>, m: SubId)
    requires k < |s.subs|
    ensures ExtensionProduct(ExtendOne(s, k, last, catalog, provider), m, catalog) == ExtensionProduct(s, m, catalog)
  {
    var r := ExtendOne(s, k, last, catalog, provider);
    var found := ExtensionProduct(s, k, catalog);
    if found.Some? {
      ExtendOneEvents(s, k, last, catalog, provider);
      var dates := NextDatesAfter(last, s.subs[k].frequency);
      var added := seq(|dates|, i requires 0 <= i < |dates| => NewEvent(k, dates[i], found.value.0, found.value.1));
      ProductAfterGrowth(s, r, added, k, found.value.0, found.value.1, catalog, m);
    }
  }

  lemma {:induction false} ExtendKeepsProducts(s: State, rows: seq<(SubId, Date)>, catalog: Catalog,
                                               provider: Option<Provider>, m: SubId)
    requires forall i :: 0 <= i < |rows| ==> rows[i].0 < |s.subs|
    ensures ExtensionProduct(ExtendRows(s, rows, catalog, provider), m, catalog) == ExtensionProduct(s, m, catalog)
  {
    if rows != [] {
      var n := |rows| - 1;
      ExtendKeepsProducts(s, rows[..n], catalog, provider, m);
      ExtendOneKeepsProducts(ExtendRows(s, rows[..n], catalog, provider), rows[n].0, rows[n].1, catalog, provider, m);
    }
  }

  /** The extension pass, subscription by subscription: one horizon for the i-th row's. */
  lemma {:induction false} ExtendedDates(s: State, rows: seq<(SubId, Date)>, catalog: Catalog,
                                         provider: Option<Provider>, i: nat)
    requires forall j :: 0 <= j < |rows| ==> rows[j].0 < |s.subs|
    requires forall j, k :: 0 <= j < k < |rows| ==> rows[j].0 != rows[k].0
    requires i < |rows|
    ensures var (m, last) := rows[i];
            DatesOf(ExtendRows(s, rows, catalog, provider).events, m) ==
            DatesOf(s.events, m) +
            if ExtensionProduct(s, m, catalog).Some? then NextDatesAfter(last, s.subs[m].frequency) else []
  {
    var n := |rows| - 1;
    var before := ExtendRows(s, rows[..n], catalog, provider);
    ExtendOneDates(before, rows[n].0, rows[n].1, catalog, provider, rows[i].0);
    if i < n {
      ExtendedDates(s, rows[..n], catalog, provider, i);
    } else {
      ExtendRowsLeavesOthers(s, rows[..n], catalog, provider, rows[n].0);
      ExtendKeepsProducts(s, rows[..n], catalog, provider, rows[n].0);
    }
  }

  /** An event the extension of one row appends. */
  ghost predicate AppendedFor(s: State, row: (SubId, Date), catalog: Catalog, ev: Event) {
    && ev.status == EventStatus.Pending && ev.order.None?
    && row.0 == ev.sub && row.0 < |s.subs|
    && ExtensionProduct(s, row.0, catalog).Some?
    && ev.date in NextDatesAfter(row.1, s.subs[row.0].frequency)
  }

  ghost predicate Appended(s: State, rows: seq<(SubId, Date)>, catalog: Catalog, ev: Event) {
    exists i :: 0 <= i < |rows| && AppendedFor(s, rows[i], catalog, ev)
  }

  lemma ExtendOneAppends(s: State, k: SubId, last: Date, catalog: Catalog, provider: Option<Provider>)
    requires k < |s.subs|
    ensures var r := ExtendOne(s, k, last, catalog, provider);
            && r.orders == s.orders && |s.events| <= |r.events|
            && (forall e :: 0 <= e < |s.events| ==> r.events[e] == s.events[e])
            && (forall e :: |s.events| <= e < |r.events| ==> AppendedFor(s, (k, last), catalog, r.events[e]))
  {
    ExtendOneEvents(s, k, last, catalog, provider);
    var r := ExtendOne(s, k, last, catalog, provider);
    forall e | |s.events| <= e < |r.events|
      ensures AppendedFor(s, (k, last), catalog, r.events[e])
    {
      assert r.events[e].date == NextDatesAfter(last, s.subs[k].frequency)[e - |s.events|];
    }
  }

  /** The extension pass appends pending, unordered events and touches nothing else in these tables. */
  lemma {:induction false} ExtendAppends(s: State, rows: seq<(SubId, Date)>, catalog: Catalog,
                                         provider: Option<Provider>)
    requires forall i :: 0 <= i < |rows| ==> rows[i].0 < |s.subs|
    requires forall i, j :: 0 <= i < j < |rows| ==> rows[i].0 != rows[j].0
    ensures var r := ExtendRows(s, rows, catalog, provider);
            && r.orders == s.orders && |s.events| <= |r.events|
            && (forall e :: 0 <= e < |s.events| ==> r.events[e] == s.events[e])
            && (forall e :: |s.events| <= e < |r.events| ==> Appended(s, rows, catalog, r.events[e]))
  {
    if rows != [] {
      var n := |rows| - 1;
      var before := ExtendRows(s, rows[..n], catalog, provider);
      var r := ExtendRows(s, rows, catalog, provider);
      ExtendAppends(s, rows[..n], catalog, provider);
      ExtendOneAppends(before, rows[n].0, rows[n].1, catalog, provider);
      ExtendKeepsProducts(s, rows[..n], catalog, provider, rows[n].0);
      forall e | |s.events| <= e < |r.events|
        ensures Appended(s, rows, catalog, r.events[e])
      {
        if e < |before.events| {
          assert Appended(s, rows[..n], catalog, before.events[e]);
          var i :| 0 <= i < n && AppendedFor(s, rows[..n][i], catalog, before.events[e]);
          assert AppendedFor(s, rows[i], catalog, r.events[e]);
        } else {
          assert AppendedFor(before, (rows[n].0, rows[n].1), catalog, r.events[e]);
          assert AppendedFor(s, rows[n], catalog, r.events[e]);
        }
      }
    }
  }

  /** The dates after the extension pass: one more horizon if the subscription was extended. */
  lemma ExtendedOrNot(s: State, today: Date, rows: seq<(SubId, Date)>, catalog: Catalog, provider: Option<Provider>,
                      k: SubId, last: Date)
    requires IsExtensionQuery(s, today, rows)
    requires k < |s.subs| && s.subs[k].status.Active? && MaxDate(s.events, k) == Some(last)
    ensures DatesOf(ExtendRows(s, rows, catalog, provider).events, k) ==
            DatesOf(s.events, k) + if Near(last, today) && ExtensionProduct(s, k, catalog).Some?
                                   then NextDatesAfter(last, s.subs[k].frequency) else []
  {
    ExtensionRowsDistinct(s, today, rows);
    assert (k, last) in rows <==> NeedsHorizon(s, k, last, today);
    if NeedsHorizon(s, k, last, today) {
      var i :| 0 <= i < |rows| && rows[i] == (k, last);
      ExtendedDates(s, rows, catalog, provider, i);
    } else {
      forall i | 0 <= i < |rows|
        ensures rows[i].0 < |s.subs| && rows[i].0 != k
      {
        assert NeedsHorizon(s, rows[i].0, rows[i].1, today);
      }
      ExtendRowsLeavesOthers(s, rows, catalog, provider, k);
    }
  }

  /** The engine's last dates move exactly as the schedule-level run says. */
  lemma ExtensionFollowsSchedule(s: State, today: Date, rows: seq<(SubId, Date)>, catalog: Catalog,
                                 provider: Option<Provider>, k: SubId, last: Date)
    requires Inv(s) && IsExtensionQuery(s, today, rows)
    requires k < |s.subs| && s.subs[k].status.Active? && MaxDate(s.events, k) == Some(last)
    ensures MaxDate(ExtendRows(s, rows, catalog, provider).events, k) ==
            Some(if ExtensionProduct(s, k, catalog).Some? then AfterRun(last, today, s.subs[k].frequency) else last)
  {
    var r := ExtendRows(s, rows, catalog, provider);
    ExtensionRowsDistinct(s, today, rows);
    ExtendRowsKeepsInv(s, today, rows, catalog, provider);
    DatesIncrease(s, k);
    DatesIncrease(r, k);
    ExtendedOrNot(s, today, rows, catalog, provider, k, last);
  }

  // ------------------------------------------------------------------- daily runs

  function DailyRun(s: State, due: seq<EventId>, rows: seq<(SubId, Date)>, catalog: Catalog,
                    provider: Option<Provider>): State {
    ExtendRows(SyncCompleted(ProcessRows(s, due)), rows, catalog, provider)
  }

  ghost predicate LegalDailyRun(s: State, today: Date, due: seq<EventId>, rows: seq<(SubId, Date)>) {
    IsDueQuery(s, today, due) && IsExtensionQuery(SyncCompleted(ProcessRows(s, due)), today, rows)
  }

  /** The subscriptions today's run extends. */
  ghost predicate Extendable(s: State, k: SubId, last: Date, today: Date, catalog: Catalog) {
    NeedsHorizon(s, k, last, today) && ExtensionProduct(s, k, catalog).Some?
  }

  /** Every horizon today's run appends starts after today and reaches past the look-ahead window. */
  ghost predicate OneRunSuffices(s: State, today: Date, catalog: Catalog) {
    forall k: SubId, last: Date :: Extendable(s, k, last, today, catalog) ==>
                        var dates := NextDatesAfter(last, s.subs[k].frequency);
                        !OnOrBefore(dates[0], today) && !Near(Last(dates), today)
  }

  lemma NothingDueAfterProcessing(s: State, today: Date, due: seq<EventId>)
    requires Lifecycle(s) && IsDueQuery(s, today, due)
    ensures var p := ProcessRows(s, due);
            && p.subs == s.subs && |p.events| == |s.events|
            && (forall e :: 0 <= e < |s.events| ==>
                  && p.events[e] == s.events[e].(status := p.events[e].status, order := p.events[e].order)
                  && !Due(p, e, today))
  {
    var p := ProcessRows(s, due);
    DueRowsMaterialize(s, today, due);
    ProcessFrame(s, due);
    OrdinalOrders(today, today);
    forall e | 0 <= e < |s.events|
      ensures p.events[e] == s.events[e].(status := p.events[e].status, order := p.events[e].order)
      ensures !Due(p, e, today)
    {
      LaterRow(s, today, due, today, e);
      if e in due {
        var o := ProcessedEvent(s, due, e);
      }
      assert e in due <==> Due(s, e, today);
    }
  }

  /** The first two passes of a run change neither dates nor products, and leave nothing to redo. */
  lemma AfterTwoPasses(s: State, today: Date, due: seq<EventId>)
    requires Inv(s) && IsDueQuery(s, today, due)
    ensures var m := SyncCompleted(ProcessRows(s, due));
            && Inv(m) && m.subs == s.subs && |m.events| == |s.events|
            && (forall e :: 0 <= e < |s.events| ==>
                  && m.events[e] == s.events[e].(status := m.events[e].status, order := m.events[e].order)
                  && !Due(m, e, today) && !SyncDue(m, m.events[e]))
  {
    StepKeepsInv(s, ProcessOp(today, due));
    SyncKeepsInv(ProcessRows(s, due));
    NothingDueAfterProcessing(s, today, due);
    SyncedOnce(ProcessRows(s, due), today);
  }

  lemma SyncedOnce(p: State, today: Date)
    requires forall e :: 0 <= e < |p.events| ==> !Due(p, e, today)
    ensures var m := SyncCompleted(p);
            forall e :: 0 <= e < |p.events| ==>
              && m.events[e] == p.events[e].(status := m.events[e].status)
              && !Due(m, e, today) && !SyncDue(m, m.events[e])
  {
    forall e | 0 <= e < |p.events|
      ensures !Due(SyncCompleted(p), e, today)
    {
      assert !Due(p, e, today);
    }
  }

  lemma SameProducts(s: State, m: State, catalog: Catalog, k: SubId)
    requires |m.events| == |s.events|
    requires forall e :: 0 <= e < |s.events| ==>
                           m.events[e] == s.events[e].(status := m.events[e].status, order := m.events[e].order)
    ensures ExtensionProduct(m, k, catalog) == ExtensionProduct(s, k, catalog)
    ensures MaxDate(m.events, k) == MaxDate(s.events, k)
    ensures DatesOf(m.events, k) == DatesOf(s.events, k)
  {
    SameRowsSameDates(s.events, m.events, k);
  }

  lemma TwoPassesKeepExtendable(s: State, today: Date, due: seq<EventId>, catalog: Catalog)
    requires Inv(s) && IsDueQuery(s, today, due)
    ensures forall k: SubId, last: Date :: Extendable(s, k, last, today, catalog) <==>
                              Extendable(SyncCompleted(ProcessRows(s, due)), k, last, today, catalog)
    ensures OneRunSuffices(s, today, catalog) <==> OneRunSuffices(SyncCompleted(ProcessRows(s, due)), today, catalog)
  {
    AfterTwoPasses(s, today, due);
    forall k: SubId
      ensures ExtensionProduct(SyncCompleted(ProcessRows(s, due)), k, catalog) == ExtensionProduct(s, k, catalog)
      ensures MaxDate(SyncCompleted(ProcessRows(s, due)).events, k) == MaxDate(s.events, k)
    {
      SameProducts(s, SyncCompleted(ProcessRows(s, due)), catalog, k);
    }
  }

  lemma {:induction false} ExtendIdle(s: State, rows: seq<(SubId, Date)>, catalog: Catalog, provider: Option<Provider>)
    requires forall i :: 0 <= i < |rows| ==> ExtensionProduct(s, rows[i].0, catalog).None?
    ensures ExtendRows(s, rows, catalog, provider) == s
  {
    if rows != [] {
      ExtendIdle(s, rows[..|rows| - 1], catalog, provider);
    }
  }

  lemma FirstDateIsFirst(last: Date, f: Cadence, d: Date)
    requires d in NextDatesAfter(last, f)
    ensures Ordinal(last) < Ordinal(NextDatesAfter(last, f)[0]) <= Ordinal(d)
  {
    var dates := NextDatesAfter(last, f);
    var i :| 0 <= i < |dates| && dates[i] == d;
    HorizonGaps(last, f, 0);
    LaterInHorizon(last, f, i);
  }

  lemma {:induction false} LaterInHorizon(last: Date, f: Cadence, i: nat)
    requires i < HorizonSize(f)
    ensures Ordinal(NextDatesAfter(last, f)[0]) <= Ordinal(NextDatesAfter(last, f)[i])
  {
    if i > 0 {
      LaterInHorizon(last, f, i - 1);
      HorizonGaps(last, f, i);
    }
  }

  /** After the extension pass nothing is due, provided its horizons start after today. */
  lemma NothingDueAfter(m: State, today: Date, rows: seq<(SubId, Date)>, catalog: Catalog,
                        provider: Option<Provider>, e: EventId)
    requires Inv(m) && IsExtensionQuery(m, today, rows)
    requires forall d :: 0 <= d < |m.events| ==> !Due(m, d, today) && !SyncDue(m, m.events[d])
    requires OneRunSuffices(m, today, catalog)
    ensures var r := ExtendRows(m, rows, catalog, provider);
            !Due(r, e, today) && (e < |r.events| ==> !SyncDue(r, r.events[e]))
  {
    var r := ExtendRows(m, rows, catalog, provider);
    ExtensionRowsDistinct(m, today, rows);
    ExtendAppends(m, rows, catalog, provider);
    if e < |m.events| {
      assert !Due(m, e, today);
    } else if e < |r.events| {
      assert Appended(m, rows, catalog, r.events[e]);
      var i :| 0 <= i < |rows| && AppendedFor(m, rows[i], catalog, r.events[e]);
      var (k, last) := rows[i];
      assert Extendable(m, k, last, today, catalog);
      var first := NextDatesAfter(last, m.subs[k].frequency)[0];
      FirstDateIsFirst(last, m.subs[k].frequency, r.events[e].date);
      OrdinalOrders(first, today);
      OrdinalOrders(r.events[e].date, today);
    }
  }

  lemma NothingToExtendAfter(m: State, today: Date, rows: seq<(SubId, Date)>, catalog: Catalog,
                             provider: Option<Provider>,
                             k: SubId, last: Date)
    requires Inv(m) && IsExtensionQuery(m, today, rows) && OneRunSuffices(m, today, catalog)
    requires NeedsHorizon(ExtendRows(m, rows, catalog, provider), k, last, today)
    ensures ExtensionProduct(ExtendRows(m, rows, catalog, provider), k, catalog).None?
  {
    ExtensionRowsDistinct(m, today, rows);
    ExtendKeepsProducts(m, rows, catalog, provider, k);
    DatesIncrease(m, k);
    var before := Last(DatesOf(m.events, k));
    ExtensionFollowsSchedule(m, today, rows, catalog, provider, k, before);
    if ExtensionProduct(m, k, catalog).Some? {
      assert Near(before, today) ==> Extendable(m, k, before, today, catalog);
    }
  }

  /** A state in which the scheduler finds nothing to do. */
  lemma QuietRun(r: State, today: Date, catalog: Catalog, due: seq<EventId>, rows: seq<(SubId, Date)>,
                 provider: Option<Provider>)
    requires LegalDailyRun(r, today, due, rows)
    requires forall e: EventId :: !Due(r, e, today)
    requires forall e :: 0 <= e < |r.events| ==> !SyncDue(r, r.events[e])
    requires forall k: SubId, last: Date :: NeedsHorizon(r, k, last, today) ==> ExtensionProduct(r, k, catalog).None?
    ensures DailyRun(r, due, rows, catalog, provider) == r
  {
    forall i | 0 <= i < |due|
      ensures due[i] !in due
    {
      assert !Due(r, due[i], today);
    }
    assert SyncCompleted(r).events == r.events;
    forall i | 0 <= i < |rows|
      ensures ExtensionProduct(r, rows[i].0, catalog).None?
    {
      assert (rows[i].0, rows[i].1) in rows;
      assert NeedsHorizon(r, rows[i].0, rows[i].1, today);
    }
    ExtendIdle(r, rows, catalog, provider);
  }

  /** If one run suffices, a second run the same day changes nothing at all. */
  lemma SecondRunIdle(s: State, today: Date, catalog: Catalog, due: seq<EventId>, rows: seq<(SubId, Date)>,
                      provider: Option<Provider>, due2: seq<EventId>, rows2: seq<(SubId, Date)>, provider2: Option<Provider>)
    requires Inv(s) && OneRunSuffices(s, today, catalog) && LegalDailyRun(s, today, due, rows)
    requires LegalDailyRun(DailyRun(s, due, rows, catalog, provider), today, due2, rows2)
    ensures DailyRun(DailyRun(s, due, rows, catalog, provider), due2, rows2, catalog, provider2) ==
            DailyRun(s, due, rows, catalog, provider)
  {
    var m := SyncCompleted(ProcessRows(s, due));
    var r := ExtendRows(m, rows, catalog, provider);
    AfterTwoPasses(s, today, due);
    TwoPassesKeepExtendable(s, today, due, catalog);
    forall e: EventId
      ensures !Due(r, e, today) && (e < |r.events| ==> !SyncDue(r, r.events[e]))
    {
      NothingDueAfter(m, today, rows, catalog, provider, e);
    }
    forall k: SubId, last: Date | NeedsHorizon(r, k, last, today)
      ensures ExtensionProduct(r, k, catalog).None?
    {
      NothingToExtendAfter(m, today, rows, catalog, provider, k, last);
    }
    QuietRun(r, today, catalog, due2, rows2, provider2);
  }

  lemma NoEventAfterLast(m: State, k: SubId, last: Date)
    requires Schedules(m) && k < |m.subs| && MaxDate(m.events, k) == Some(last)
    ensures forall e :: 0 <= e < |m.events| && m.events[e].sub == k ==> Ordinal(m.events[e].date) <= Ordinal(last)
  {
    DatesIncrease(m, k);
    EventsOfComplete(m.events, k);
    var ids, dates := EventsOf(m.events, k), DatesOf(m.events, k);
    forall e | 0 <= e < |m.events| && m.events[e].sub == k
      ensures Ordinal(m.events[e].date) <= Ordinal(last)
    {
      assert e in ids;
      var j :| 0 <= j < |ids| && ids[j] == e;
      assert dates[j] == m.events[e].date;
      assert j < |dates| - 1 ==> Ordinal(dates[j]) < Ordinal(dates[|dates| - 1]);
    }
  }

  /** An event appended with the first date of `k`'s new horizon. */
  lemma FirstAppended(m: State, today: Date, rows: seq<(SubId, Date)>, catalog: Catalog, provider: Option<Provider>,
                      k: SubId, last: Date) returns (e: EventId)
    requires Inv(m) && IsExtensionQuery(m, today, rows) && Extendable(m, k, last, today, catalog)
    ensures var r := ExtendRows(m, rows, catalog, provider);
            && e < |r.events| && r.events[e].sub == k && r.events[e].date == NextDatesAfter(last, m.subs[k].frequency)[0]
            && r.events[e].status.Pending? && r.events[e].order.None?
  {
    var r := ExtendRows(m, rows, catalog, provider);
    var dates := NextDatesAfter(last, m.subs[k].frequency);
    ExtensionRowsDistinct(m, today, rows);
    assert (k, last) in rows;
    var i :| 0 <= i < |rows| && rows[i] == (k, last);
    ExtendedDates(m, rows, catalog, provider, i);
    var already := |DatesOf(m.events, k)|;
    assert DatesOf(r.events, k)[already] == dates[0];
    e := EventsOf(r.events, k)[already];
    ExtendAppends(m, rows, catalog, provider);
    NoEventAfterLast(m, k, last);
    FirstDateIsFirst(last, m.subs[k].frequency, dates[0]);
    assert e >= |m.events|;
    assert Appended(m, rows, catalog, r.events[e]);
  }

  /** A horizon that starts today or earlier is already due: the second run orders from it. */
  lemma EarlyHorizonIsOrdered(s: State, today: Date, catalog: Catalog, rows: seq<(SubId, Date)>,
                              provider: Option<Provider>,
                              due2: seq<EventId>, rows2: seq<(SubId, Date)>, provider2: Option<Provider>, k: SubId, last: Date)
    requires Inv(s) && IsExtensionQuery(s, today, rows) && Extendable(s, k, last, today, catalog)
    requires OnOrBefore(NextDatesAfter(last, s.subs[k].frequency)[0], today)
    requires Inv(ExtendRows(s, rows, catalog, provider))
    requires LegalDailyRun(ExtendRows(s, rows, catalog, provider), today, due2, rows2)
    ensures DailyRun(ExtendRows(s, rows, catalog, provider), due2, rows2, catalog, provider2) !=
            ExtendRows(s, rows, catalog, provider)
  {
    var r := ExtendRows(s, rows, catalog, provider);
    var e := FirstAppended(s, today, rows, catalog, provider, k, last);
    assert Due(r, e, today);
    assert e in due2;
    DueRowsMaterialize(r, today, due2);
    var o := ProcessedEvent(r, due2, e);
    var m2 := SyncCompleted(ProcessRows(r, due2));
    assert !m2.events[e].status.Pending?;
    ExtensionRowsDistinct(m2, today, rows2);
    ExtendAppends(m2, rows2, catalog, provider2);
  }

  /** A horizon that stays inside the look-ahead window is extended again by the second run. */
  lemma ShortHorizonIsExtended(s: State, today: Date, catalog: Catalog, rows: seq<(SubId, Date)>,
                               provider: Option<Provider>,
                               due2: seq<EventId>, rows2: seq<(SubId, Date)>, provider2: Option<Provider>, k: SubId, last: Date)
    requires Inv(s) && IsExtensionQuery(s, today, rows) && Extendable(s, k, last, today, catalog)
    requires Near(Last(NextDatesAfter(last, s.subs[k].frequency)), today)
    requires Inv(ExtendRows(s, rows, catalog, provider))
    requires LegalDailyRun(ExtendRows(s, rows, catalog, provider), today, due2, rows2)
    ensures DailyRun(ExtendRows(s, rows, catalog, provider), due2, rows2, catalog, provider2) !=
            ExtendRows(s, rows, catalog, provider)
  {
    var r := ExtendRows(s, rows, catalog, provider);
    var m2 := SyncCompleted(ProcessRows(r, due2));
    var next := Last(NextDatesAfter(last, s.subs[k].frequency));
    ExtensionFollowsSchedule(s, today, rows, catalog, provider, k, last);
    ExtensionRowsDistinct(s, today, rows);
    ExtendKeepsProducts(s, rows, catalog, provider, k);
    AfterTwoPasses(r, today, due2);
    SameProducts(r, m2, catalog, k);
    assert NeedsHorizon(m2, k, next, today);
    assert (k, next) in rows2;
    ExtensionRowsDistinct(m2, today, rows2);
    var i :| 0 <= i < |rows2| && rows2[i] == (k, next);
    ExtendedDates(m2, rows2, catalog, provider2, i);
  }

  lemma SecondRunBusy(s: State, today: Date, catalog: Catalog, due: seq<EventId>, rows: seq<(SubId, Date)>,
                      provider: Option<Provider>, due2: seq<EventId>, rows2: seq<(SubId, Date)>, provider2: Option<Provider>)
    requires Inv(s) && !OneRunSuffices(s, today, catalog) && LegalDailyRun(s, today, due, rows)
    requires LegalDailyRun(DailyRun(s, due, rows, catalog, provider), today, due2, rows2)
    ensures DailyRun(DailyRun(s, due, rows, catalog, provider), due2, rows2, catalog, provider2) !=
            DailyRun(s, due, rows, catalog, provider)
  {
    var m := SyncCompleted(ProcessRows(s, due));
    AfterTwoPasses(s, today, due);
    TwoPassesKeepExtendable(s, today, due, catalog);
    StepKeepsInv(m, ExtendOp(today, rows, catalog, provider));
    var k: SubId, last: Date :| Extendable(m, k, last, today, catalog)
                                && (OnOrBefore(NextDatesAfter(last, m.subs[k].frequency)[0], today)
                                    || Near(Last(NextDatesAfter(last, m.subs[k].frequency)), today));
    if OnOrBefore(NextDatesAfter(last, m.subs[k].frequency)[0], today) {
      EarlyHorizonIsOrdered(m, today, catalog, rows, provider, due2, rows2, provider2, k, last);
    } else {
      ShortHorizonIsExtended(m, today, catalog, rows, provider, due2, rows2, provider2, k, last);
    }
  }

  /**
    A second run the same day is a no-op exactly when one run suffices. So the daily pass is not
    idempotent in general: a subscription left behind keeps changing.
   */
  lemma RerunIsNoOpIff(s: State, today: Date, catalog: Catalog, due: seq<EventId>, rows: seq<(SubId, Date)>,
                       provider: Option<Provider>, due2: seq<EventId>, rows2: seq<(SubId, Date)>, provider2: Option<Provider>)
    requires Inv(s) && LegalDailyRun(s, today, due, rows)
    requires LegalDailyRun(DailyRun(s, due, rows, catalog, provider), today, due2, rows2)
    ensures DailyRun(DailyRun(s, due, rows, catalog, provider), due2, rows2, catalog, provider2) ==
            DailyRun(s, due, rows, catalog, provider)
            <==> OneRunSuffices(s, today, catalog)
  {
    if OneRunSuffices(s, today, catalog) {
      SecondRunIdle(s, today, catalog, due, rows, provider, due2, rows2, provider2);
    } else {
      SecondRunBusy(s, today, catalog, due, rows, provider, due2, rows2, provider2);
    }
  }

  /** In particular one run suffices when every active subscription is scheduled up to today. */
  lemma UpToDateSuffices(s: State, today: Date, catalog: Catalog)
    requires forall k: SubId, last :: k < |s.subs| && s.subs[k].status.Active? && MaxDate(s.events, k) == Some(last) ==>
                                        OnOrBefore(today, last)
    ensures OneRunSuffices(s, today, catalog)
  {
    forall k: SubId, last: Date | Extendable(s, k, last, today, catalog)
      ensures !OnOrBefore(NextDatesAfter(last, s.subs[k].frequency)[0], today)
      ensures !Near(Last(NextDatesAfter(last, s.subs[k].frequency)), today)
    {
      var f := s.subs[k].frequency;
      var dates := NextDatesAfter(last, f);
      OrdinalOrders(today, last);
      FirstDateIsFirst(last, f, dates[0]);
      OrdinalOrders(dates[0], today);
      ExtensionAdvances(last, f);
      NearByOrdinal(Last(dates), today);
    }
  }

  /** And it does not suffice once some extendable subscription is a month or more behind. */
  lemma LaggingSubscriptionBreaksIt(s: State, today: Date, catalog: Catalog, k: SubId, last: Date)
    requires Extendable(s, k, last, today, catalog) && Ordinal(last) + 31 <= Ordinal(today)
    ensures !OneRunSuffices(s, today, catalog)
  {
    var f := s.subs[k].frequency;
    HorizonGaps(last, f, 0);
    OrdinalOrders(NextDatesAfter(last, f)[0], today);
  }

  lemma CreatedDates(s: State, user: UserId, id: ProductId, p: Product, f: Cadence, address: Address, today: Date)
    requires Inv(s)
    ensures var r := InsertSubscription(s, user, id, p, f, address, today);
            DatesOf(r.events, |s.subs|) == EventDates(today, f)
  {
    var r := InsertSubscription(s, user, id, p, f, address, today);
    var added := r.events[|s.events|..];
    assert r.events == s.events + added;
    forall e | 0 <= e < |s.events|
      ensures s.events[e].sub != |s.subs|
    {
      assert EventFits(s, s.events[e]);
    }
    NoEventsYet(s.events, |s.subs|);
    DatesOfAppend(s.events, added, |s.subs|, EventDates(today, f), |s.subs|);
  }
}
