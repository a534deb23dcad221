/** What one daily run does to every event, to the orders and to the money. */
module DailyRuns {
  import opened Wrappers
  import opened Calendar
  import opened OrderStatuses
  import opened Shop
  import opened SubscriptionTables
  import opened SubscriptionSteps
  import opened SubscriptionInvariant
  import opened SubscriptionRuns
  import opened SchedulerRuns
  import opened SubscriptionOutcomes
  import opened ExtensionOutcomes

  /** The event's order has been completed. */
  predicate Delivered(s: State, ev: Event) {
    ev.order.Some? && ev.order.value < |s.orders| && s.orders[ev.order.value].status == OrderStatus.Completed
  }

  /** What becomes of an event that was there before: ordered if it has come up, completed if it was delivered. */
  ghost predicate Advances(s: State, r: State, e: EventId, today: Date) {
    && e < |s.events| && e < |r.events|
    && if HasComeUp(s, e, today) then
         && r.events[e].order.Some? && |s.orders| <= r.events[e].order.value < |r.orders|
         && r.events[e] == s.events[e].(status := EventStatus.Ready, order := r.events[e].order)
         && OrderedFor(s, s.events[e], r.orders[r.events[e].order.value])
       else if Delivered(s, s.events[e]) then r.events[e] == s.events[e].(status := EventStatus.Completed)
       else r.events[e] == s.events[e]
  }

  lemma ProcessedAndSynced(s: State, today: Date, due: seq<EventId>, e: EventId)
    requires Inv(s) && IsDueQuery(s, today, due) && e < |s.events|
    ensures Advances(s, SyncCompleted(ProcessRows(s, due)), e, today)
  {
    DuePassOutcome(s, today, due, e);
    var p := ProcessRows(s, due);
    StepKeepsInv(s, ProcessOp(today, due));
    SyncOutcome(p, e);
    assert EventFits(s, s.events[e]);
  }

  lemma TwoPassesFrame(s: State, today: Date, due: seq<EventId>)
    requires Inv(s) && IsDueQuery(s, today, due)
    ensures var m := SyncCompleted(ProcessRows(s, due));
            && m == s.(events := m.events, orders := m.orders)
            && |m.events| == |s.events| && s.orders <= m.orders
  {
    DueRowsMaterialize(s, today, due);
    ProcessFrame(s, due);
  }

  lemma BilledFromBefore(s: State, m: State, r: State, provider: Option<Provider>)
    requires Billed(m, r, provider)
    requires m.payments == s.payments && m.ledger == s.ledger && |m.events| == |s.events|
    ensures s.payments <= r.payments && s.ledger <= r.ledger && m.events <= r.events && r.subs == m.subs
    ensures |r.payments| - |s.payments| == |r.ledger| - |s.ledger|
            == if provider.None? then 0 else |r.events| - |s.events|
    ensures provider.Some? ==>
              forall e: EventId :: |s.events| <= e < |r.events| ==> BilledSince(s, r, e, provider.value)
  {
    forall e: EventId | |s.events| <= e < |r.events| && provider.Some?
      ensures BilledSince(s, r, e, provider.value)
    {
      assert BilledSince(m, r, e, provider.value);
    }
  }

  lemma OrdersKept(m: State, today: Date, rows: seq<(SubId, Date)>, catalog: Catalog, provider: Option<Provider>)
    requires IsExtensionQuery(m, today, rows)
    ensures ExtendRows(m, rows, catalog, provider).orders == m.orders
  {
    ExtensionRowsDistinct(m, today, rows);
    ExtendAppends(m, rows, catalog, provider);
  }

  /** The extension pass, told from a state whose money is the same and whose events are as many. */
  lemma ExtendedSince(s: State, m: State, today: Date, rows: seq<(SubId, Date)>, catalog: Catalog,
                      provider: Option<Provider>)
    requires IsExtensionQuery(m, today, rows)
    requires m.subs == s.subs && m.payments == s.payments && m.ledger == s.ledger && |m.events| == |s.events|
    ensures var r := ExtendRows(m, rows, catalog, provider);
            && r.subs == s.subs && r.orders == m.orders && m.events <= r.events
            && (forall e: EventId :: |s.events| <= e < |r.events| ==> SoldToday(r.events[e], catalog))
            && (provider.Some? ==>
                  forall e: EventId :: |s.events| <= e < |r.events| ==> BilledSince(s, r, e, provider.value))
            && s.payments <= r.payments && s.ledger <= r.ledger
            && |r.payments| - |s.payments| == |r.ledger| - |s.ledger|
               == if provider.None? then 0 else |r.events| - |s.events|
  {
    AppendedEvents(m, today, rows, catalog, provider);
    OrdersKept(m, today, rows, catalog, provider);
    BilledFromBefore(s, m, ExtendRows(m, rows, catalog, provider), provider);
  }

  lemma AdvancesStill(s: State, m: State, r: State, e: EventId, today: Date)
    requires Advances(s, m, e, today) && m.events <= r.events && r.orders == m.orders
    ensures Advances(s, r, e, today)
  {
  }

  /**
    One daily run: every event that has come up gets its order, every delivered one is completed, the
    other events stay; what is appended is sold today and billed once, or not at all without a
    provider; subscriptions, earlier orders and earlier money are as they were.
   */
  lemma DailyRunOutcome(s: State, today: Date, due: seq<EventId>, rows: seq<(SubId, Date)>, catalog: Catalog,
                        provider: Option<Provider>)
    requires Inv(s) && LegalDailyRun(s, today, due, rows)
    ensures var r := DailyRun(s, due, rows, catalog, provider);
            && r.subs == s.subs && s.orders <= r.orders && |s.events| <= |r.events|
            && (forall e: EventId :: e < |s.events| ==> Advances(s, r, e, today))
            && (forall e: EventId :: |s.events| <= e < |r.events| ==> SoldToday(r.events[e], catalog))
            && (provider.Some? ==>
                  forall e: EventId :: |s.events| <= e < |r.events| ==> BilledSince(s, r, e, provider.value))
            && s.payments <= r.payments && s.ledger <= r.ledger
            && |r.payments| - |s.payments| == |r.ledger| - |s.ledger|
               == if provider.None? then 0 else |r.events| - |s.events|
  {
    var m := SyncCompleted(ProcessRows(s, due));
    TwoPassesFrame(s, today, due);
    ExtendedSince(s, m, today, rows, catalog, provider);
    forall e: EventId | e < |s.events|
      ensures Advances(s, DailyRun(s, due, rows, catalog, provider), e, today)
    {
      ProcessedAndSynced(s, today, due, e);
      AdvancesStill(s, m, DailyRun(s, due, rows, catalog, provider), e, today);
    }
  }
}
