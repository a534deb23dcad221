/**
  Which subscriptions an extension pass extends, and with what: said on the tables, for what the
  last event sold and what the catalogue sells today.
 */
module ExtensionOutcomes {
  import opened Wrappers
  import opened Calendar
  import opened Frequency
  import opened Horizons
  import opened OrderStatuses
  import opened Shop
  import opened SubscriptionTables
  import opened SubscriptionSteps
  import opened SubscriptionInvariant
  import opened SubscriptionPreservation
  import opened SubscriptionRuns
  import opened SchedulerRuns

  /** The event the table holds last for `k`. */
  ghost predicate IsLastEvent(events: seq<Event>, k: SubId, e: EventId) {
    && e < |events| && events[e].sub == k
    && forall d :: e < d < |events| ==> events[d].sub != k
  }

  /** What the event delivers is in the catalogue and active. */
  predicate StillSold(ev: Event, catalog: Catalog) {
    && ev.product.Some? && ev.product.value.product in catalog
    && catalog[ev.product.value.product].active
  }

  lemma LastIdIsLastEvent(events: seq<Event>, k: SubId, e: EventId)
    requires IsLastEvent(events, k, e)
    ensures EventsOf(events, k) != [] && Last(EventsOf(events, k)) == e
  {
    var ids := EventsOf(events, k);
    EventsOfComplete(events, k);
    assert e in ids;
    var i :| 0 <= i < |ids| && ids[i] == e;
    assert Last(ids) == ids[|ids| - 1];
  }

  lemma ProductIsTheLastEvents(s: State, k: SubId, catalog: Catalog, e: EventId)
    requires IsLastEvent(s.events, k, e)
    ensures ExtensionProduct(s, k, catalog) ==
            if StillSold(s.events[e], catalog)
            then Some((s.events[e].product.value.product, catalog[s.events[e].product.value.product])) else None
  {
    LastIdIsLastEvent(s.events, k, e);
  }

  /** Every subscription with an event has a last one. */
  lemma {:induction false} LastEventExists(events: seq<Event>, k: SubId) returns (e: EventId)
    requires exists d :: 0 <= d < |events| && events[d].sub == k
    ensures IsLastEvent(events, k, e)
  {
    var n := |events| - 1;
    if events[n].sub == k {
      e := n;
    } else {
      e := LastEventExists(events[..n], k);
    }
  }

  /** A subscription running out of schedule: active, its latest delivery at most 60 days ahead. */
  ghost predicate RunsOut(s: State, k: SubId, e: EventId, today: Date) {
    && k < |s.subs| && s.subs[k].status == SubscriptionStatus.Active
    && IsLastEvent(s.events, k, e) && Ordinal(s.events[e].date) <= Ordinal(today) + 60
  }

  lemma RunsOutIffNeeds(s: State, k: SubId, e: EventId, today: Date)
    requires Schedules(s) && k < |s.subs| && IsLastEvent(s.events, k, e)
    ensures MaxDate(s.events, k) == Some(s.events[e].date)
    ensures RunsOut(s, k, e, today) <==> NeedsHorizon(s, k, s.events[e].date, today)
  {
    DatesIncrease(s, k);
    LastIdIsLastEvent(s.events, k, e);
    NearByOrdinal(s.events[e].date, today);
  }

  /**
    In a reachable state an extension pass gives a further horizon to exactly the subscriptions
    that run out of schedule and whose product is still sold; to the others it gives no date.
   */
  lemma ExtensionOutcome(s: State, today: Date, rows: seq<(SubId, Date)>, catalog: Catalog,
                         provider: Option<Provider>, k: SubId, e: EventId)
    requires Inv(s) && IsExtensionQuery(s, today, rows) && k < |s.subs| && IsLastEvent(s.events, k, e)
    ensures var extended := RunsOut(s, k, e, today) && StillSold(s.events[e], catalog);
            DatesOf(ExtendRows(s, rows, catalog, provider).events, k) ==
            DatesOf(s.events, k) + if extended then NextDatesAfter(s.events[e].date, s.subs[k].frequency) else []
  {
    RunsOutIffNeeds(s, k, e, today);
    ProductIsTheLastEvents(s, k, catalog, e);
    if s.subs[k].status == SubscriptionStatus.Active {
      ExtendedOrNot(s, today, rows, catalog, provider, k, s.events[e].date);
    } else {
      IdleRows(s, today, rows, catalog, provider, k);
    }
  }

  lemma IdleRows(s: State, today: Date, rows: seq<(SubId, Date)>, catalog: Catalog, provider: Option<Provider>, k: SubId)
    requires IsExtensionQuery(s, today, rows) && k < |s.subs| && s.subs[k].status != SubscriptionStatus.Active
    ensures DatesOf(ExtendRows(s, rows, catalog, provider).events, k) == DatesOf(s.events, k)
  {
    forall i | 0 <= i < |rows|
      ensures rows[i].0 < |s.subs| && rows[i].0 != k
    {
      assert (rows[i].0, rows[i].1) in rows;
      assert NeedsHorizon(s, rows[i].0, rows[i].1, today);
    }
    ExtendRowsLeavesOthers(s, rows, catalog, provider, k);
  }

  // ------------------------------------------------------------------- what is appended

  /** An open delivery of a product the catalogue sells, under its name and at its price of today. */
  ghost predicate SoldToday(ev: Event, catalog: Catalog) {
    && ev.status == EventStatus.Pending && ev.order.None?
    && ev.product.Some? && ev.product.value.product in catalog
    && var p := catalog[ev.product.value.product];
       p.active && ev.price == p.price && ev.product.value.name == p.name && ev.product.value.price == p.price
  }

  /** The event repeats the product of the last event its subscription had before. */
  ghost predicate SameProductAs(before: seq<Event>, ev: Event) {
    exists d: EventId :: IsLastEvent(before, ev.sub, d) && before[d].product.Some? && ev.product.Some?
                && before[d].product.value.product == ev.product.value.product
  }

  lemma ExtendOneSells(s: State, k: SubId, last: Date, catalog: Catalog, provider: Option<Provider>)
    requires k < |s.subs|
    ensures var r := ExtendOne(s, k, last, catalog, provider);
            && s.events <= r.events
            && forall e :: |s.events| <= e < |r.events| ==> r.events[e].sub == k && SoldToday(r.events[e], catalog)
  {
    ExtendOneEvents(s, k, last, catalog, provider);
  }

  /** Whatever an extension pass appends is sold today, at today's price, and still open. */
  lemma {:induction false} AppendedIsSold(s: State, rows: seq<(SubId, Date)>, catalog: Catalog, provider: Option<Provider>)
    requires forall i :: 0 <= i < |rows| ==> rows[i].0 < |s.subs|
    ensures var r := ExtendRows(s, rows, catalog, provider);
            && s.events <= r.events
            && forall e :: |s.events| <= e < |r.events| ==> SoldToday(r.events[e], catalog)
  {
    if rows != [] {
      var n := |rows| - 1;
      AppendedIsSold(s, rows[..n], catalog, provider);
      ExtendOneSells(ExtendRows(s, rows[..n], catalog, provider), rows[n].0, rows[n].1, catalog, provider);
    }
  }

  ghost predicate FromProduct(s: State, catalog: Catalog, ev: Event) {
    var found := ExtensionProduct(s, ev.sub, catalog);
    found.Some? && ev.product.Some? && ev.product.value.product == found.value.0
  }

  lemma ExtendOneContinues(s: State, k: SubId, last: Date, catalog: Catalog, provider: Option<Provider>)
    requires k < |s.subs|
    ensures var r := ExtendOne(s, k, last, catalog, provider);
            && s.events <= r.events
            && forall e :: |s.events| <= e < |r.events| ==> FromProduct(s, catalog, r.events[e])
  {
    ExtendOneEvents(s, k, last, catalog, provider);
  }

  lemma {:induction false} AppendedContinues(s: State, rows: seq<(SubId, Date)>, catalog: Catalog,
                                             provider: Option<Provider>)
    requires forall i :: 0 <= i < |rows| ==> rows[i].0 < |s.subs|
    ensures var r := ExtendRows(s, rows, catalog, provider);
            && s.events <= r.events
            && forall e :: |s.events| <= e < |r.events| ==> FromProduct(s, catalog, r.events[e])
  {
    if rows != [] {
      var n := |rows| - 1;
      var m, r := ExtendRows(s, rows[..n], catalog, provider), ExtendRows(s, rows, catalog, provider);
      AppendedContinues(s, rows[..n], catalog, provider);
      ExtendOneContinues(m, rows[n].0, rows[n].1, catalog, provider);
      forall e | |s.events| <= e < |r.events|
        ensures FromProduct(s, catalog, r.events[e])
      {
        assert e < |m.events| ==> r.events[e] == m.events[e];
        ExtendKeepsProducts(s, rows[..n], catalog, provider, r.events[e].sub);
      }
    }
  }

  lemma ContinuesTheLast(s: State, catalog: Catalog, ev: Event)
    requires FromProduct(s, catalog, ev)
    ensures SameProductAs(s.events, ev)
  {
    var ids := EventsOf(s.events, ev.sub);
    assert s.events[ids[0]].sub == ev.sub;
    var d := LastEventExists(s.events, ev.sub);
    ProductIsTheLastEvents(s, ev.sub, catalog, d);
  }

  // ------------------------------------------------------------------- what is charged

  /** The event, its own charge at its price, and the row that records how the charge went. */
  ghost predicate BilledAs(r: State, e: EventId, j: nat, t: TxnId, settles: Provider) {
    && e < |r.events| && j < |r.payments| && t < |r.ledger| && r.events[e].sub < |r.subs|
    && r.ledger[t] == Charge(OffSession(e), r.events[e].price, settles(t), 0)
    && r.payments[j] == Payment(e, r.subs[r.events[e].sub].user, r.events[e].price, Some(t),
                                if settles(t) then PaymentStatus.Completed else PaymentStatus.Failed)
  }

  /** Every appended event is billed once if there is a provider; without one nobody is charged. */
  ghost predicate Billed(s: State, r: State, provider: Option<Provider>) {
    && r.subs == s.subs && s.events <= r.events && s.payments <= r.payments && s.ledger <= r.ledger
    && |r.payments| - |s.payments| == |r.ledger| - |s.ledger|
    && |r.ledger| - |s.ledger| == (if provider.None? then 0 else |r.events| - |s.events|)
    && (provider.Some? ==> forall e: EventId :: |s.events| <= e < |r.events| ==> BilledSince(s, r, e, provider.value))
  }

  /** The i-th appended event has the i-th new row and the i-th new charge. */
  ghost predicate BilledSince(s: State, r: State, e: EventId, settles: Provider) {
    && |s.events| <= e
    && BilledAs(r, e, |s.payments| + (e - |s.events|), |s.ledger| + (e - |s.events|), settles)
  }

  lemma BilledLater(s: State, m: State, r: State, provider: Option<Provider>)
    requires Billed(s, m, provider) && Billed(m, r, provider)
    ensures Billed(s, r, provider)
  {
    if provider.Some? {
      forall e: EventId | |s.events| <= e < |r.events|
        ensures BilledSince(s, r, e, provider.value)
      {
        if e < |m.events| {
          assert BilledSince(s, m, e, provider.value);
        } else {
          assert BilledSince(m, r, e, provider.value);
        }
      }
    }
  }

  lemma {:induction false} HorizonIsBilled(s: State, k: SubId, dates: seq<Date>, id: ProductId, p: Product,
                                           provider: Option<Provider>)
    requires k < |s.subs|
    ensures Billed(s, AppendHorizon(s, k, dates, id, p, provider), provider)
  {
    if dates != [] {
      var n := |dates| - 1;
      var m := AppendHorizon(s, k, dates[..n], id, p, provider);
      HorizonIsBilled(s, k, dates[..n], id, p, provider);
      assert Billed(m, AppendEvent(m, k, dates[n], id, p, provider), provider);
      BilledLater(s, m, AppendEvent(m, k, dates[n], id, p, provider), provider);
    }
  }

  /** An extension pass bills every event it appends, each by itself and once, and touches no other money. */
  lemma {:induction false} AppendedIsBilled(s: State, rows: seq<(SubId, Date)>, catalog: Catalog,
                                            provider: Option<Provider>)
    requires forall i :: 0 <= i < |rows| ==> rows[i].0 < |s.subs|
    ensures Billed(s, ExtendRows(s, rows, catalog, provider), provider)
  {
    if rows != [] {
      var n := |rows| - 1;
      var m := ExtendRows(s, rows[..n], catalog, provider);
      AppendedIsBilled(s, rows[..n], catalog, provider);
      var k, found := rows[n].0, ExtensionProduct(m, rows[n].0, catalog);
      if found.Some? {
        HorizonIsBilled(m, k, NextDatesAfter(rows[n].1, m.subs[k].frequency), found.value.0, found.value.1, provider);
      }
      BilledLater(s, m, ExtendRows(s, rows, catalog, provider), provider);
    }
  }

  /** So whatever an extension pass appends continues its subscription, is sold today, and is billed once. */
  lemma AppendedEvents(s: State, today: Date, rows: seq<(SubId, Date)>, catalog: Catalog, provider: Option<Provider>)
    requires IsExtensionQuery(s, today, rows)
    ensures var r := ExtendRows(s, rows, catalog, provider);
            && s.events <= r.events && Billed(s, r, provider)
            && forall e :: |s.events| <= e < |r.events| ==>
                 SoldToday(r.events[e], catalog) && SameProductAs(s.events, r.events[e])
  {
    ExtensionRowsDistinct(s, today, rows);
    AppendedIsSold(s, rows, catalog, provider);
    AppendedContinues(s, rows, catalog, provider);
    AppendedIsBilled(s, rows, catalog, provider);
    var r := ExtendRows(s, rows, catalog, provider);
    forall e | |s.events| <= e < |r.events|
      ensures SameProductAs(s.events, r.events[e])
    {
      ContinuesTheLast(s, catalog, r.events[e]);
    }
  }
}
