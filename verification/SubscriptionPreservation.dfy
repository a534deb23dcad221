/** Every step of the subscription engine keeps the invariant. */
module SubscriptionPreservation {
  import opened Wrappers
  import opened Calendar
  import opened Frequency
  import opened Horizons
  import opened OrderStatuses
  import opened Shop
  import opened SubscriptionTables
  import opened SubscriptionSteps
  import opened SubscriptionInvariant

  // ---------------------------------------------------------------------- create

  /** New subscriptions and new unordered events leave everything already there in order. */
  lemma GrowthKeepsLifecycleAndMoney(s: State, r: State)
    requires Lifecycle(s) && Money(s)
    requires |s.subs| <= |r.subs| && forall k :: 0 <= k < |s.subs| ==> r.subs[k] == s.subs[k]
    requires |s.events| <= |r.events| && forall e :: 0 <= e < |s.events| ==> r.events[e] == s.events[e]
    requires forall k :: |s.subs| <= k < |r.subs| ==> r.subs[k].delivery.Some? && !r.subs[k].status.Completed?
    requires forall e :: |s.events| <= e < |r.events| ==> EventFits(r, r.events[e]) && r.events[e].order.None?
    requires r.orders == s.orders && r.payments == s.payments && r.ledger == s.ledger
    ensures Lifecycle(r) && Money(r)
  {
    forall e | 0 <= e < |r.events|
      ensures EventFits(r, r.events[e])
    {
      if e < |s.events| {
        assert EventFits(s, s.events[e]);
      }
    }
    forall j | 0 <= j < |r.payments|
      ensures RowFits(r, r.payments[j])
    {
      assert RowFits(s, s.payments[j]);
    }
    forall t | 0 <= t < |r.ledger|
      ensures ChargeFits(r, t)
    {
      assert ChargeFits(s, t);
    }
  }

  lemma InsertKeepsLifecycleAndMoney(s: State, user: UserId, id: ProductId, p: Product, f: Cadence,
                                     address: Address, today: Date)
    requires Inv(s)
    ensures Lifecycle(InsertSubscription(s, user, id, p, f, address, today))
    ensures Money(InsertSubscription(s, user, id, p, f, address, today))
  {
    var r := InsertSubscription(s, user, id, p, f, address, today);
    forall e | |s.events| <= e < |r.events|
      ensures EventFits(r, r.events[e]) && r.events[e].order.None?
    {
      assert r.events[e] == NewEvent(|s.subs|, EventDates(today, f)[e - |s.events|], id, p);
    }
    GrowthKeepsLifecycleAndMoney(s, r);
  }

  lemma InsertKeepsSchedules(s: State, user: UserId, id: ProductId, p: Product, f: Cadence,
                             address: Address, today: Date)
    requires Inv(s)
    ensures Schedules(InsertSubscription(s, user, id, p, f, address, today))
  {
    var r := InsertSubscription(s, user, id, p, f, address, today);
    var added := r.events[|s.events|..];
    var created := |s.subs|;
    assert r.events == s.events + added;
    forall k | 0 <= k < |r.subs|
      ensures OnSchedule(r.subs[k], DatesOf(r.events, k))
    {
      DatesOfAppend(s.events, added, created, EventDates(today, f), k);
      if k < created {
        assert OnSchedule(s.subs[k], DatesOf(s.events, k));
      } else {
        forall e | 0 <= e < |s.events|
          ensures s.events[e].sub != k
        {
          assert EventFits(s, s.events[e]);
        }
        NoEventsYet(s.events, k);
        assert DatesOf(r.events, k) == Schedule(today, f, 0);
      }
    }
  }

  lemma InsertKeepsInv(s: State, user: UserId, id: ProductId, p: Product, f: Cadence, address: Address, today: Date)
    requires Inv(s)
    ensures Inv(InsertSubscription(s, user, id, p, f, address, today))
  {
    InsertKeepsLifecycleAndMoney(s, user, id, p, f, address, today);
    InsertKeepsSchedules(s, user, id, p, f, address, today);
  }

  // --------------------------------------------------------------------- charges

  lemma FreshTxn(s: State)
    requires Money(s)
    ensures SumRows(s.payments, {|s.ledger|}) == 0
  {
    forall j | 0 <= j < |s.payments|
      ensures s.payments[j].txn.Some? ==> s.payments[j].txn.value !in {|s.ledger|}
    {
      assert RowFits(s, s.payments[j]);
    }
    SumRowsUnused(s.payments, {|s.ledger|});
  }

  lemma LifecycleReadsNoMoney(s: State, r: State)
    requires Lifecycle(s) && r.subs == s.subs && r.events == s.events && r.orders == s.orders
    ensures Lifecycle(r)
  {
    forall e | 0 <= e < |r.events|
      ensures EventFits(r, r.events[e])
    {
      assert EventFits(s, s.events[e]);
    }
  }

  lemma DeclinedChargeKeepsMoney(s: State, r: State, c: Charge)
    requires Money(s)
    requires c.purpose.Upfront? && !c.settled && c.refunds == 0
    requires r == s.(ledger := s.ledger + [c])
    ensures Money(r)
  {
    FreshTxn(s);
    forall j | 0 <= j < |r.payments|
      ensures RowFits(r, r.payments[j])
    {
      assert RowFits(s, s.payments[j]);
    }
    forall t | 0 <= t < |r.ledger|
      ensures ChargeFits(r, t)
    {
      if t < |s.ledger| {
        assert ChargeFits(s, t);
      }
    }
  }

  /** A declined upfront charge changes only the provider's books, and those stay in order. */
  lemma DeclinedChargeKeepsInv(s: State, c: Charge)
    requires Inv(s)
    requires c.purpose.Upfront? && !c.settled && c.refunds == 0
    ensures Inv(s.(ledger := s.ledger + [c]))
  {
    var r := s.(ledger := s.ledger + [c]);
    LifecycleReadsNoMoney(s, r);
    DeclinedChargeKeepsMoney(s, r, c);
    SameEventsKeepSchedules(s, r);
  }

  lemma ActivationKeepsLifecycle(s: State, r: State, k: SubId)
    requires Lifecycle(s) && k < |s.subs| && s.subs[k].status.Pending?
    requires r.subs == s.subs[k := s.subs[k].(status := SubscriptionStatus.Active)]
    requires r.events == s.events && r.orders == s.orders
    ensures Lifecycle(r)
  {
    forall e | 0 <= e < |r.events|
      ensures EventFits(r, r.events[e])
    {
      assert EventFits(s, s.events[e]);
    }
  }

  lemma SameEventsKeepSchedules(s: State, r: State)
    requires Schedules(s)
    requires |r.subs| == |s.subs| && |r.events| == |s.events|
    requires forall k :: 0 <= k < |s.subs| ==>
                           r.subs[k].created == s.subs[k].created && r.subs[k].frequency == s.subs[k].frequency
    requires forall e :: 0 <= e < |s.events| ==>
                           r.events[e].sub == s.events[e].sub && r.events[e].date == s.events[e].date
    ensures Schedules(r)
  {
    forall k | 0 <= k < |r.subs|
      ensures OnSchedule(r.subs[k], DatesOf(r.events, k))
    {
      assert OnSchedule(s.subs[k], DatesOf(s.events, k));
      SameRowsSameDates(s.events, r.events, k);
    }
  }

  lemma UpfrontRowsFit(s: State, r: State, k: SubId, settles: Provider)
    requires Lifecycle(s) && Money(s) && k < |s.subs| && s.subs[k].status.Pending?
    requires settles(|s.ledger|) && r == ChargeAndActivate(s, k, settles).0
    ensures forall j :: 0 <= j < |r.payments| ==> RowFits(r, r.payments[j])
  {
    forall j | 0 <= j < |r.payments|
      ensures RowFits(r, r.payments[j])
    {
      if j < |s.payments| {
        assert RowFits(s, s.payments[j]);
      } else {
        assert EventFits(s, s.events[r.payments[j].event]);
      }
    }
  }

  lemma UpfrontRowsDistinct(s: State, r: State, k: SubId, settles: Provider)
    requires Money(s) && k < |s.subs| && s.subs[k].status.Pending?
    requires settles(|s.ledger|) && r == ChargeAndActivate(s, k, settles).0
    ensures forall i, j :: 0 <= i < j < |r.payments| ==> r.payments[i].event != r.payments[j].event
  {
    EventsOfComplete(s.events, k);
    forall i, j | 0 <= i < j < |r.payments|
      ensures r.payments[i].event != r.payments[j].event
    {
      if i < |s.payments| {
        assert RowFits(s, s.payments[i]);
      }
    }
  }

  /** A settled upfront charge with its rows leaves every charge matched by its rows. */
  lemma UpfrontChargesFit(s: State, r: State, k: SubId, ids: seq<EventId>, rows: seq<Payment>)
    requires Money(s) && k < |s.subs| && s.subs[k].status.Pending?
    requires forall i :: 0 <= i < |ids| ==> ids[i] < |s.events|
    requires |rows| == |ids| && SumPrices(s.events, ids) > 0
    requires forall i :: 0 <= i < |ids| ==> rows[i] == UpfrontRow(s, s.subs[k].user, |s.ledger|, ids[i])
    requires r.subs == s.subs[k := s.subs[k].(status := SubscriptionStatus.Active)] && r.events == s.events
    requires r.payments == s.payments + rows
    requires r.ledger == s.ledger + [Charge(Upfront(k), SumPrices(s.events, ids), true, 0)]
    ensures forall t :: 0 <= t < |r.ledger| ==> ChargeFits(r, t)
  {
    var txn := |s.ledger|;
    forall t | 0 <= t < |r.ledger|
      ensures ChargeFits(r, t)
    {
      SumRowsAppend(s.payments, rows, {t});
      if t == txn {
        FreshTxn(s);
        SumRowsUpfront(s, s.subs[k].user, txn, ids, rows);
      } else {
        assert ChargeFits(s, t);
        SumRowsUnused(rows, {t});
      }
    }
  }

  lemma UpfrontAmountPositive(s: State, k: SubId)
    requires Lifecycle(s) && EventsOf(s.events, k) != []
    ensures SumPrices(s.events, EventsOf(s.events, k)) > 0
  {
    var ids := EventsOf(s.events, k);
    forall i | 0 <= i < |ids|
      ensures s.events[ids[i]].price > 0
    {
      assert EventFits(s, s.events[ids[i]]);
    }
    SumPricesPositive(s.events, ids);
  }

  lemma UpfrontChargedOnce(s: State, r: State, k: SubId, settles: Provider)
    requires Money(s) && k < |s.subs| && s.subs[k].status.Pending?
    requires settles(|s.ledger|) && EventsOf(s.events, k) != []
    requires r == ChargeAndActivate(s, k, settles).0
    ensures forall t, u | 0 <= t < u < |r.ledger| ::
              r.ledger[t].settled && r.ledger[u].settled && r.ledger[t].purpose.Upfront?
              ==> r.ledger[t].purpose != r.ledger[u].purpose
  {
    forall t | 0 <= t < |s.ledger| && s.ledger[t].settled
      ensures s.ledger[t].purpose != Upfront(k)
    {
      assert ChargeFits(s, t);
    }
  }

  lemma SettledChargeKeepsMoney(s: State, k: SubId, settles: Provider)
    requires Lifecycle(s) && Money(s) && k < |s.subs| && s.subs[k].status.Pending?
    requires settles(|s.ledger|) && EventsOf(s.events, k) != []
    ensures Money(ChargeAndActivate(s, k, settles).0)
  {
    var r := ChargeAndActivate(s, k, settles).0;
    UpfrontAmountPositive(s, k);
    UpfrontRowsFit(s, r, k, settles);
    UpfrontRowsDistinct(s, r, k, settles);
    UpfrontChargesFit(s, r, k, EventsOf(s.events, k), r.payments[|s.payments|..]);
    UpfrontChargedOnce(s, r, k, settles);
  }

  lemma ChargeAndActivateKeepsInv(s: State, k: SubId, settles: Provider)
    requires Inv(s) && k < |s.subs| && s.subs[k].status.Pending?
    ensures Inv(ChargeAndActivate(s, k, settles).0)
  {
    var ids := EventsOf(s.events, k);
    assert DatesOf(s.events, k) != [] by {
      DatesIncrease(s, k);
    }
    if !settles(|s.ledger|) {
      DeclinedChargeKeepsInv(s, Charge(Upfront(k), SumPrices(s.events, ids), false, 0));
    } else {
      var r := ChargeAndActivate(s, k, settles).0;
      ActivationKeepsLifecycle(s, r, k);
      SameEventsKeepSchedules(s, r);
      SettledChargeKeepsMoney(s, k, settles);
    }
  }

  /** A charge made after `s` became `m`: kept if it settles, rolled back to `s` if it does not. */
  lemma ChargeOrRollBack(s: State, m: State, k: SubId, settles: Provider)
    requires Inv(s) && Inv(m) && m.ledger == s.ledger
    requires k < |m.subs| && m.subs[k].status.Pending?
    ensures Inv(if ChargeAndActivate(m, k, settles).1 then ChargeAndActivate(m, k, settles).0
                else RolledBack(s, ChargeAndActivate(m, k, settles).0))
  {
    ChargeAndActivateKeepsInv(m, k, settles);
    if !ChargeAndActivate(m, k, settles).1 {
      DeclinedChargeKeepsInv(s, Charge(Upfront(k), SumPrices(m.events, EventsOf(m.events, k)), false, 0));
    }
  }

  lemma CreateKeepsInv(s: State, user: UserId, id: ProductId, catalog: Catalog, f: Cadence, address: Address,
                       today: Date, card: Option<MethodId>, saved: set<MethodId>, provider: Option<Provider>)
    requires Inv(s)
    ensures Inv(Create(s, user, id, catalog, f, address, today, card, saved, provider).0)
  {
    if id in catalog && catalog[id].active {
      InsertKeepsInv(s, user, id, catalog[id], f, address, today);
      if card.Some? && provider.Some? {
        ChargeOrRollBack(s, InsertSubscription(s, user, id, catalog[id], f, address, today), |s.subs|, provider.value);
      }
    }
  }

  lemma PayKeepsInv(s: State, k: SubId, user: UserId, card: MethodId, saved: set<MethodId>, provider: Option<Provider>)
    requires Inv(s)
    ensures Inv(Pay(s, k, user, card, saved, provider).0)
  {
    if Owned(s, k, user).Ok? && s.subs[k].status.Pending? && provider.Some? {
      ChargeOrRollBack(s, s, k, provider.value);
    }
  }

  // ------------------------------------------------------------ pause and resume

  /** Bulk event changes and a subscription status change that suit each other keep the money in order. */
  lemma StatusChangeKeepsMoney(s: State, r: State, k: SubId)
    requires Money(s) && k < |s.subs|
    requires |r.subs| == |s.subs| && r.subs == s.subs[k := s.subs[k].(status := r.subs[k].status)]
    requires !r.subs[k].status.Pending?
    requires s.subs[k].status.Cancelled? ==> r.subs[k].status.Cancelled?
    requires |r.events| == |s.events|
    requires forall e :: 0 <= e < |s.events| ==> r.events[e].sub == s.events[e].sub && r.events[e].price == s.events[e].price
    requires r.payments == s.payments && r.ledger == s.ledger
    ensures Money(r)
  {
    forall j | 0 <= j < |r.payments|
      ensures RowFits(r, r.payments[j])
    {
      assert RowFits(s, s.payments[j]);
    }
    forall t | 0 <= t < |r.ledger|
      ensures ChargeFits(r, t)
    {
      assert ChargeFits(s, t);
    }
  }

  /** A subscription status change and the bulk event change that goes with it. */
  ghost predicate SuitedChange(before: SubscriptionStatus, after: SubscriptionStatus,
                               from: set<EventStatus>, to: EventStatus) {
    && after in {SubscriptionStatus.Active, SubscriptionStatus.Paused, SubscriptionStatus.Cancelled}
    && (forall st :: StatusFits(before, st) ==> StatusFits(after, if st in from then to else st))
    && (to.Cancelled? || (to in {EventStatus.Pending, EventStatus.Paused}
                          && from <= {EventStatus.Pending, EventStatus.Paused}))
  }

  lemma BulkKeepsLifecycle(s: State, r: State, k: SubId, after: SubscriptionStatus, from: set<EventStatus>,
                           to: EventStatus)
    requires Lifecycle(s) && k < |s.subs| && SuitedChange(s.subs[k].status, after, from, to)
    requires r.subs == s.subs[k := s.subs[k].(status := after)]
    requires r.events == BulkStatus(s.events, k, from, to) && r.orders == s.orders
    ensures Lifecycle(r)
  {
    forall e | 0 <= e < |r.events|
      ensures EventFits(r, r.events[e])
    {
      assert EventFits(s, s.events[e]);
    }
  }

  /** A change of one subscription's status with the bulk change that suits it. */
  lemma BulkChangeKeepsInv(s: State, r: State, k: SubId, after: SubscriptionStatus, from: set<EventStatus>,
                           to: EventStatus)
    requires Inv(s) && k < |s.subs| && SuitedChange(s.subs[k].status, after, from, to)
    requires s.subs[k].status.Cancelled? ==> after.Cancelled?
    requires r == s.(subs := s.subs[k := s.subs[k].(status := after)], events := BulkStatus(s.events, k, from, to))
    ensures Inv(r)
  {
    BulkKeepsLifecycle(s, r, k, after, from, to);
    StatusChangeKeepsMoney(s, r, k);
    SameEventsKeepSchedules(s, r);
  }

  lemma PauseSuits()
    ensures SuitedChange(SubscriptionStatus.Active, SubscriptionStatus.Paused, {EventStatus.Pending}, EventStatus.Paused)
  {
  }

  lemma ResumeSuits()
    ensures SuitedChange(SubscriptionStatus.Paused, SubscriptionStatus.Active, {EventStatus.Paused}, EventStatus.Pending)
  {
  }

  lemma PauseKeepsInv(s: State, k: SubId, user: UserId)
    requires Inv(s)
    ensures Inv(Pause(s, k, user).0)
  {
    if Pause(s, k, user).1.Ok? {
      PauseSuits();
      BulkChangeKeepsInv(s, Pause(s, k, user).0, k, SubscriptionStatus.Paused, {EventStatus.Pending}, EventStatus.Paused);
    }
  }

  lemma ResumeKeepsInv(s: State, k: SubId, user: UserId)
    requires Inv(s)
    ensures Inv(Resume(s, k, user).0)
  {
    if Resume(s, k, user).1.Ok? {
      ResumeSuits();
      BulkChangeKeepsInv(s, Resume(s, k, user).0, k, SubscriptionStatus.Active, {EventStatus.Paused}, EventStatus.Pending);
    }
  }

  // ---------------------------------------------------------------------- cancel

  lemma TxnsOfUnpaidSub(s: State, k: SubId, t: TxnId)
    requires Money(s) && t in RefundedTxns(s, k)
    ensures t < |s.ledger| && s.ledger[t].settled && PayerOf(s, s.ledger[t]) == k
  {
    var p :| p in s.payments && Refundable(s, k, p) && p.txn.value == t;
    assert RowFits(s, p);
  }

  lemma SumRowsBySameMoney(s: State, r: State)
    requires |s.payments| == |r.payments|
    requires forall j :: 0 <= j < |s.payments| ==>
                           s.payments[j].txn == r.payments[j].txn && s.payments[j].amount == r.payments[j].amount
    ensures forall t :: SumRows(s.payments, {t}) == SumRows(r.payments, {t})
  {
    forall t
      ensures SumRows(s.payments, {t}) == SumRows(r.payments, {t})
    {
      SumRowsByContent(s.payments, r.payments, {t});
    }
  }

  lemma RefundKeepsRows(s: State, k: SubId)
    requires Money(s) && k < |s.subs| && !s.subs[k].status.Cancelled?
    ensures forall j :: 0 <= j < |s.payments| ==> RowFits(RefundUndelivered(s, k), RefundUndelivered(s, k).payments[j])
  {
    var r := RefundUndelivered(s, k);
    forall j | 0 <= j < |r.payments|
      ensures RowFits(r, r.payments[j])
    {
      var p := s.payments[j];
      assert RowFits(s, p);
      assert ChargeFits(s, p.txn.value);
      if Refundable(s, k, p) {
        assert p.txn.value in RefundedTxns(s, k);
      }
      if p.txn.value in RefundedTxns(s, k) {
        TxnsOfUnpaidSub(s, k, p.txn.value);
      }
    }
  }

  lemma RefundKeepsCharge(s: State, k: SubId, t: TxnId)
    requires Money(s) && k < |s.subs| && !s.subs[k].status.Cancelled? && t < |s.ledger|
    ensures var r := RefundUndelivered(s, k);
            r.ledger[t].refunds <= 1 && (r.ledger[t].refunds > s.ledger[t].refunds ==>
                                           s.ledger[t].settled && PayerOf(s, s.ledger[t]) == k)
  {
    assert ChargeFits(s, t);
    if t in RefundedTxns(s, k) {
      TxnsOfUnpaidSub(s, k, t);
    }
  }

  lemma RefundedCancelKeepsMoney(s: State, m: State, r: State, k: SubId)
    requires Money(s) && k < |s.subs| && !s.subs[k].status.Cancelled?
    requires m.subs == s.subs && m.events == s.events && |m.payments| == |s.payments| && |m.ledger| == |s.ledger|
    requires forall j :: 0 <= j < |m.payments| ==>
                           RowFits(m, m.payments[j]) && m.payments[j] == s.payments[j].(status := m.payments[j].status)
    requires forall t :: 0 <= t < |m.ledger| ==>
                           && m.ledger[t] == s.ledger[t].(refunds := m.ledger[t].refunds)
                           && m.ledger[t].refunds <= 1
                           && (m.ledger[t].refunds > s.ledger[t].refunds ==>
                                 s.ledger[t].settled && PayerOf(s, s.ledger[t]) == k)
    requires r.payments == m.payments && r.ledger == m.ledger
    requires r.subs == s.subs[k := s.subs[k].(status := SubscriptionStatus.Cancelled)]
    requires |r.events| == |s.events|
    requires forall e :: 0 <= e < |s.events| ==> r.events[e].sub == s.events[e].sub && r.events[e].price == s.events[e].price
    ensures Money(r)
  {
    SumRowsBySameMoney(s, m);
    forall j | 0 <= j < |r.payments|
      ensures RowFits(r, r.payments[j])
    {
      assert RowFits(m, m.payments[j]);
    }
    forall t | 0 <= t < |r.ledger|
      ensures ChargeFits(r, t)
    {
      assert ChargeFits(s, t);
    }
  }

  lemma RefundKeepsMoney(s: State, r: State, k: SubId)
    requires Money(s) && k < |s.subs| && !s.subs[k].status.Cancelled?
    requires r.payments == RefundUndelivered(s, k).payments && r.ledger == RefundUndelivered(s, k).ledger
    requires r.subs == s.subs[k := s.subs[k].(status := SubscriptionStatus.Cancelled)]
    requires |r.events| == |s.events|
    requires forall e :: 0 <= e < |s.events| ==> r.events[e].sub == s.events[e].sub && r.events[e].price == s.events[e].price
    ensures Money(r)
  {
    var m := RefundUndelivered(s, k);
    RefundKeepsRows(s, k);
    forall t | 0 <= t < |m.ledger|
      ensures m.ledger[t].refunds <= 1
      ensures m.ledger[t].refunds > s.ledger[t].refunds ==> s.ledger[t].settled && PayerOf(s, s.ledger[t]) == k
    {
      RefundKeepsCharge(s, k, t);
    }
    RefundedCancelKeepsMoney(s, m, r, k);
  }

  lemma CancelKeepsMoney(s: State, k: SubId, user: UserId, withProvider: bool)
    requires Money(s) && Cancel(s, k, user, withProvider).1.Ok?
    ensures Money(Cancel(s, k, user, withProvider).0)
  {
    var r := Cancel(s, k, user, withProvider).0;
    if withProvider {
      RefundKeepsMoney(s, r, k);
    } else {
      StatusChangeKeepsMoney(s, r, k);
    }
  }

  lemma CancelKeepsInv(s: State, k: SubId, user: UserId, withProvider: bool)
    requires Inv(s)
    ensures Inv(Cancel(s, k, user, withProvider).0)
  {
    if Cancel(s, k, user, withProvider).1.Ok? {
      CancelKeepsLifecycle(s, k, user, withProvider);
      CancelKeepsMoney(s, k, user, withProvider);
      CancelKeepsSchedules(s, k, user, withProvider);
    }
  }

  lemma CancelKeepsLifecycle(s: State, k: SubId, user: UserId, withProvider: bool)
    requires Lifecycle(s) && Cancel(s, k, user, withProvider).1.Ok?
    ensures Lifecycle(Cancel(s, k, user, withProvider).0)
  {
    BulkKeepsLifecycle(s, Cancel(s, k, user, withProvider).0, k, SubscriptionStatus.Cancelled,
                       {EventStatus.Pending, EventStatus.Paused, EventStatus.Ready}, EventStatus.Cancelled);
  }

  lemma CancelKeepsSchedules(s: State, k: SubId, user: UserId, withProvider: bool)
    requires Schedules(s) && Cancel(s, k, user, withProvider).1.Ok?
    ensures Schedules(Cancel(s, k, user, withProvider).0)
  {
    SameEventsKeepSchedules(s, Cancel(s, k, user, withProvider).0);
  }

  // ------------------------------------------------------------------- scheduler

  /** Money looks at events only through their subscription and price. */
  lemma EventStatusKeepsMoney(s: State, r: State)
    requires Money(s)
    requires r.subs == s.subs && r.payments == s.payments && r.ledger == s.ledger && |r.events| == |s.events|
    requires forall e :: 0 <= e < |s.events| ==> r.events[e].sub == s.events[e].sub && r.events[e].price == s.events[e].price
    ensures Money(r)
  {
    forall j | 0 <= j < |r.payments|
      ensures RowFits(r, r.payments[j])
    {
      assert RowFits(s, s.payments[j]);
    }
    forall t | 0 <= t < |r.ledger|
      ensures ChargeFits(r, t)
    {
      assert ChargeFits(s, t);
    }
  }

  /** A due event in mid-run: still pending, unordered, and its subscription still active. */
  predicate StillDue(s: State, e: EventId) {
    && e < |s.events| && s.events[e].status.Pending? && s.events[e].order.None?
    && s.events[e].sub < |s.subs| && s.subs[s.events[e].sub].status.Active?
  }

  lemma OrderedEventKeepsLifecycle(s: State, r: State, e: EventId, order: Order)
    requires Lifecycle(s) && StillDue(s, e)
    requires r.subs == s.subs && r.orders == s.orders + [order]
    requires r.events == s.events[e := s.events[e].(order := Some(|s.orders|), status := EventStatus.Ready)]
    requires OrderFits(s.subs[s.events[e].sub], s.events[e], order)
    ensures Lifecycle(r)
  {
    forall d | 0 <= d < |r.events|
      ensures EventFits(r, r.events[d])
    {
      assert EventFits(s, s.events[d]);
    }
    forall c, d | 0 <= c < d < |r.events| && r.events[c].order.Some?
      ensures r.events[c].order != r.events[d].order
    {
      assert EventFits(s, s.events[c]) && EventFits(s, s.events[d]);
    }
  }

  lemma ProcessOneKeepsInv(s: State, e: EventId)
    requires Inv(s) && StillDue(s, e)
    ensures Inv(ProcessOne(s, e))
    ensures CanMaterialize(s, e)
  {
    assert EventFits(s, s.events[e]);
    var r := ProcessOne(s, e);
    OrderedEventKeepsLifecycle(s, r, e, BuildOrder(s.subs[s.events[e].sub], s.events[e]));
    EventStatusKeepsMoney(s, r);
    SameEventsKeepSchedules(s, r);
  }

  lemma {:induction false} ProcessRowsKeepsInv(s: State, today: Date, rows: seq<EventId>)
    requires Inv(s)
    requires forall i :: 0 <= i < |rows| ==> StillDue(s, rows[i])
    requires forall i, j :: 0 <= i < j < |rows| ==> rows[i] != rows[j]
    ensures Inv(ProcessRows(s, rows))
    ensures ProcessRows(s, rows).subs == s.subs && |ProcessRows(s, rows).events| == |s.events|
    ensures forall e :: 0 <= e < |s.events| && e !in rows ==> ProcessRows(s, rows).events[e] == s.events[e]
  {
    if rows != [] {
      var n := |rows| - 1;
      ProcessRowsKeepsInv(s, today, rows[..n]);
      assert rows[n] !in rows[..n];
      ProcessOneKeepsInv(ProcessRows(s, rows[..n]), rows[n]);
    }
  }

  lemma SyncKeepsInv(s: State)
    requires Inv(s)
    ensures Inv(SyncCompleted(s))
  {
    var r := SyncCompleted(s);
    forall e | 0 <= e < |r.events|
      ensures EventFits(r, r.events[e])
    {
      assert EventFits(s, s.events[e]);
    }
    EventStatusKeepsMoney(s, r);
    SameEventsKeepSchedules(s, r);
  }

  lemma AppendEventKeepsLifecycle(s: State, k: SubId, date: Date, id: ProductId, p: Product, provider: Option<Provider>)
    requires Lifecycle(s) && k < |s.subs| && s.subs[k].status.Active?
    ensures Lifecycle(AppendEvent(s, k, date, id, p, provider))
  {
    var r := AppendEvent(s, k, date, id, p, provider);
    forall e | 0 <= e < |r.events|
      ensures EventFits(r, r.events[e])
    {
      if e < |s.events| {
        assert EventFits(s, s.events[e]);
      }
    }
  }

  /** One more charge, carried by one more row for an event that had none. */
  lemma RecordedChargeFits(s: State, r: State, p: Payment, c: Charge)
    requires Money(s)
    requires r == s.(payments := s.payments + [p], ledger := s.ledger + [c])
    requires c.purpose.OffSession? && c.refunds == 0 && c.purpose.event < |s.events| && c.amount == p.amount && c.amount > 0
    requires p.txn == Some(|s.ledger|) && RowFits(r, p)
    requires forall j :: 0 <= j < |s.payments| ==> s.payments[j].event != p.event
    ensures forall t :: 0 <= t < |r.ledger| ==> ChargeFits(r, t)
  {
    FreshTxn(s);
    forall t | 0 <= t < |r.ledger|
      ensures ChargeFits(r, t)
    {
      SumRowsAppend(s.payments, [p], {t});
      assert [p][..0] == [];
      if t < |s.ledger| {
        assert ChargeFits(s, t);
      }
    }
  }

  lemma RecordedChargeKeepsMoney(s: State, r: State, p: Payment, c: Charge)
    requires Money(s)
    requires r == s.(payments := s.payments + [p], ledger := s.ledger + [c])
    requires c.purpose.OffSession? && c.refunds == 0 && c.purpose.event < |s.events| && c.amount == p.amount && c.amount > 0
    requires p.txn == Some(|s.ledger|) && RowFits(r, p)
    requires forall j :: 0 <= j < |s.payments| ==> s.payments[j].event != p.event
    ensures Money(r)
  {
    RecordedChargeFits(s, r, p, c);
    forall j | 0 <= j < |r.payments|
      ensures RowFits(r, r.payments[j])
    {
      if j < |s.payments| {
        assert RowFits(s, s.payments[j]);
      }
    }
  }

  lemma OffSessionKeepsMoney(s: State, e: EventId, settles: Provider)
    requires Money(s) && e < |s.events| && s.events[e].sub < |s.subs| && s.subs[s.events[e].sub].status.Active?
    requires s.events[e].price > 0
    requires forall j :: 0 <= j < |s.payments| ==> s.payments[j].event != e
    ensures Money(ChargeOffSession(s, e, s.subs[s.events[e].sub].user, settles))
  {
    var r := ChargeOffSession(s, e, s.subs[s.events[e].sub].user, settles);
    RecordedChargeKeepsMoney(s, r, r.payments[|s.payments|], r.ledger[|s.ledger|]);
  }

  lemma AppendEventKeepsMoney(s: State, k: SubId, date: Date, id: ProductId, p: Product, provider: Option<Provider>)
    requires Lifecycle(s) && Money(s) && k < |s.subs| && s.subs[k].status.Active?
    ensures Money(AppendEvent(s, k, date, id, p, provider))
  {
    var added := AppendEvent(s, k, date, id, p, None);
    GrowthKeepsLifecycleAndMoney(s, added);
    if provider.Some? {
      forall j | 0 <= j < |s.payments|
        ensures s.payments[j].event != |s.events|
      {
        assert RowFits(s, s.payments[j]);
      }
      OffSessionKeepsMoney(added, |s.events|, provider.value);
    }
  }

  lemma {:induction false} AppendHorizonKeeps(s: State, k: SubId, dates: seq<Date>, id: ProductId, p: Product,
                                              provider: Option<Provider>)
    requires Lifecycle(s) && Money(s) && k < |s.subs| && s.subs[k].status.Active?
    ensures Lifecycle(AppendHorizon(s, k, dates, id, p, provider))
    ensures Money(AppendHorizon(s, k, dates, id, p, provider))
  {
    if dates != [] {
      var n := |dates| - 1;
      var before := AppendHorizon(s, k, dates[..n], id, p, provider);
      AppendHorizonKeeps(s, k, dates[..n], id, p, provider);
      AppendEventKeepsLifecycle(before, k, dates[n], id, p, provider);
      AppendEventKeepsMoney(before, k, dates[n], id, p, provider);
    }
  }

  lemma {:induction false} AppendHorizonEvents(s: State, k: SubId, dates: seq<Date>, id: ProductId, p: Product,
                                               provider: Option<Provider>)
    requires k < |s.subs|
    ensures AppendHorizon(s, k, dates, id, p, provider).events ==
            s.events + seq(|dates|, i requires 0 <= i < |dates| => NewEvent(k, dates[i], id, p))
  {
    if dates != [] {
      AppendHorizonEvents(s, k, dates[..|dates| - 1], id, p, provider);
    }
  }

  lemma AppendHorizonDates(s: State, k: SubId, dates: seq<Date>, id: ProductId, p: Product,
                           provider: Option<Provider>, m: SubId)
    requires k < |s.subs|
    ensures DatesOf(AppendHorizon(s, k, dates, id, p, provider).events, m) == DatesOf(s.events, m) + if m == k then dates else []
  {
    AppendHorizonEvents(s, k, dates, id, p, provider);
    DatesOfAppend(s.events, seq(|dates|, i requires 0 <= i < |dates| => NewEvent(k, dates[i], id, p)), k, dates, m);
  }

  lemma LongerSchedule(s: State, k: SubId, last: Date)
    requires Schedules(s) && k < |s.subs| && MaxDate(s.events, k) == Some(last)
    ensures OnSchedule(s.subs[k], DatesOf(s.events, k) + NextDatesAfter(last, s.subs[k].frequency))
  {
    DatesIncrease(s, k);
    var sub := s.subs[k];
    assert OnSchedule(sub, DatesOf(s.events, k));
    var n: nat :| DatesOf(s.events, k) == Schedule(sub.created, sub.frequency, n);
    assert DatesOf(s.events, k) + NextDatesAfter(last, sub.frequency) == Schedule(sub.created, sub.frequency, n + 1);
  }

  /** One extension: the subscription's schedule grows by exactly one horizon, no other changes. */
  lemma ExtendOneDates(s: State, k: SubId, last: Date, catalog: Catalog, provider: Option<Provider>, m: SubId)
    requires k < |s.subs|
    ensures DatesOf(ExtendOne(s, k, last, catalog, provider).events, m) ==
            DatesOf(s.events, m) + if m == k && ExtensionProduct(s, k, catalog).Some?
                                   then NextDatesAfter(last, s.subs[k].frequency) else []
  {
    var found := ExtensionProduct(s, k, catalog);
    if found.Some? {
      AppendHorizonDates(s, k, NextDatesAfter(last, s.subs[k].frequency), found.value.0, found.value.1, provider, m);
    }
  }

  lemma ExtendOneKeepsInv(s: State, k: SubId, last: Date, catalog: Catalog, provider: Option<Provider>)
    requires Inv(s) && k < |s.subs| && s.subs[k].status.Active? && MaxDate(s.events, k) == Some(last)
    ensures Inv(ExtendOne(s, k, last, catalog, provider))
  {
    var found := ExtensionProduct(s, k, catalog);
    var r := ExtendOne(s, k, last, catalog, provider);
    if found.Some? {
      AppendHorizonKeeps(s, k, NextDatesAfter(last, s.subs[k].frequency), found.value.0, found.value.1, provider);
      forall m | 0 <= m < |r.subs|
        ensures OnSchedule(r.subs[m], DatesOf(r.events, m))
      {
        ExtendOneDates(s, k, last, catalog, provider, m);
        assert OnSchedule(s.subs[m], DatesOf(s.events, m));
        if m == k {
          LongerSchedule(s, k, last);
        }
      }
    }
  }

  lemma {:induction false} ExtendRowsLeavesOthers(s: State, rows: seq<(SubId, Date)>, catalog: Catalog,
                                                  provider: Option<Provider>, m: SubId)
    requires forall i :: 0 <= i < |rows| ==> rows[i].0 < |s.subs| && rows[i].0 != m
    ensures DatesOf(ExtendRows(s, rows, catalog, provider).events, m) == DatesOf(s.events, m)
  {
    if rows != [] {
      var n := |rows| - 1;
      ExtendRowsLeavesOthers(s, rows[..n], catalog, provider, m);
      ExtendOneDates(ExtendRows(s, rows[..n], catalog, provider), rows[n].0, rows[n].1, catalog, provider, m);
    }
  }

  /** Extending `k` after others: its own last date is still the one the query saw. */
  lemma LastDateSurvives(s: State, before: State, k: SubId)
    requires Schedules(s) && Schedules(before) && before.subs == s.subs && k < |s.subs|
    requires DatesOf(before.events, k) == DatesOf(s.events, k)
    ensures MaxDate(before.events, k) == MaxDate(s.events, k)
  {
    DatesIncrease(s, k);
    DatesIncrease(before, k);
  }

  lemma {:induction false} ExtendRowsKeepsInv(s: State, today: Date, rows: seq<(SubId, Date)>, catalog: Catalog,
                                              provider: Option<Provider>)
    requires Inv(s)
    requires forall i :: 0 <= i < |rows| ==> NeedsHorizon(s, rows[i].0, rows[i].1, today)
    requires forall i, j :: 0 <= i < j < |rows| ==> rows[i].0 != rows[j].0
    ensures Inv(ExtendRows(s, rows, catalog, provider))
  {
    if rows != [] {
      var n := |rows| - 1;
      var (k, last) := rows[n];
      var before := ExtendRows(s, rows[..n], catalog, provider);
      ExtendRowsKeepsInv(s, today, rows[..n], catalog, provider);
      assert NeedsHorizon(s, k, last, today);
      ExtendRowsLeavesOthers(s, rows[..n], catalog, provider, k);
      LastDateSurvives(s, before, k);
      ExtendOneKeepsInv(before, k, last, catalog, provider);
    }
  }

  // ---------------------------------------------------------------------- orders

  lemma MoveOrderKeepsInv(s: State, o: OrderId, target: OrderStatus, now: Time)
    requires Inv(s)
    ensures Inv(MoveOrder(s, o, target, now))
  {
    var r := MoveOrder(s, o, target, now);
    forall e | 0 <= e < |r.events|
      ensures EventFits(r, r.events[e])
    {
      assert EventFits(s, s.events[e]);
    }
    EventStatusKeepsMoney(s, r);
    SameEventsKeepSchedules(s, r);
  }

  lemma PlaceOrderKeepsInv(s: State, order: Order)
    requires Inv(s)
    ensures Inv(PlaceOrder(s, order))
  {
    var r := PlaceOrder(s, order);
    forall e | 0 <= e < |r.events|
      ensures EventFits(r, r.events[e])
    {
      assert EventFits(s, s.events[e]);
    }
    EventStatusKeepsMoney(s, r);
    SameEventsKeepSchedules(s, r);
  }
}
