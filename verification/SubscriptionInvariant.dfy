/** What holds in every reachable state of the subscription engine. */
module SubscriptionInvariant {
  import opened Wrappers
  import opened Calendar
  import opened Frequency
  import opened Horizons
  import opened OrderStatuses
  import opened Shop
  import opened SubscriptionTables
  import opened SubscriptionSteps

  /** Which event statuses may occur under which subscription status. */
  predicate StatusFits(sub: SubscriptionStatus, ev: EventStatus) {
    match sub
    case Pending => ev == EventStatus.Pending
    case Active => ev in {EventStatus.Pending, EventStatus.Ready, EventStatus.Completed}
    case Paused => ev in {EventStatus.Paused, EventStatus.Ready, EventStatus.Completed}
    case Cancelled => ev in {EventStatus.Cancelled, EventStatus.Completed}
    case Completed => false
  }

  /** The delivery order of an event: its price, its one line, the subscriber's address. */
  predicate OrderFits(sub: Subscription, ev: Event, order: Order) {
    && ev.product.Some?
    && order.user == sub.user
    && order.total == ev.price
    && order.lines == [Line(ev.product.value.product, ev.product.value.name, ev.price, 1)]
    && order.fulfilment.Delivery? && sub.delivery == Some(order.fulfilment.address)
  }

  predicate EventFits(s: State, ev: Event) {
    && ev.sub < |s.subs|
    && StatusFits(s.subs[ev.sub].status, ev.status)
    && ev.price > 0
    && ev.product.Some? && ev.product.value.price == ev.price
    && (ev.status in {EventStatus.Pending, EventStatus.Paused} ==> ev.order.None?)
    && (ev.status in {EventStatus.Ready, EventStatus.Completed} ==> ev.order.Some?)
    && (ev.order.Some? ==>
          && ev.order.value < |s.orders|
          && OrderFits(s.subs[ev.sub], ev, s.orders[ev.order.value])
          && (ev.status == EventStatus.Completed ==>
                s.orders[ev.order.value].status in {OrderStatus.Completed, OrderStatus.Refunded}))
  }

  ghost predicate Lifecycle(s: State) {
    && (forall k :: 0 <= k < |s.subs| ==> s.subs[k].delivery.Some? && !s.subs[k].status.Completed?)
    && (forall e :: 0 <= e < |s.events| ==> EventFits(s, s.events[e]))
    && (forall d, e :: 0 <= d < e < |s.events| && s.events[d].order.Some? ==>
                         s.events[d].order != s.events[e].order)
  }

  // ----------------------------------------------------------------------- money

  /** The subscription a charge belongs to. */
  function PayerOf(s: State, c: Charge): int {
    match c.purpose
    case Upfront(k) => k
    case OffSession(e) => if e < |s.events| then s.events[e].sub else -1
  }

  predicate RowFits(s: State, p: Payment) {
    && p.event < |s.events|
    && s.events[p.event].sub < |s.subs|
    && p.amount == s.events[p.event].price
    && p.user == s.subs[s.events[p.event].sub].user
    && !s.subs[s.events[p.event].sub].status.Pending?
    && p.txn.Some? && p.txn.value < |s.ledger|
    && var c := s.ledger[p.txn.value];
       && PayerOf(s, c) == s.events[p.event].sub
       && (c.purpose.OffSession? ==> c.purpose.event == p.event)
       && (c.purpose.Upfront? ==> c.settled)
       && (p.status == if !c.settled then PaymentStatus.Failed
                       else if p.status.Refunded? then PaymentStatus.Refunded
                       else PaymentStatus.Completed)
       && (p.status.Refunded? ==> c.refunds == 1)
  }

  /** What the rows of a charge must add up to: a declined upfront charge leaves no row. */
  function RecordedAmount(c: Charge): int {
    if c.purpose.Upfront? && !c.settled then 0 else c.amount
  }

  predicate ChargeFits(s: State, t: TxnId)
    requires t < |s.ledger|
  {
    var c := s.ledger[t];
    && SumRows(s.payments, {t}) == RecordedAmount(c)
    && c.refunds <= 1
    && (c.purpose.OffSession? ==> c.purpose.event < |s.events|)
    && (c.settled ==> c.amount > 0)
    && (c.settled ==> 0 <= PayerOf(s, c) < |s.subs| && !s.subs[PayerOf(s, c)].status.Pending?)
    && (c.refunds > 0 ==> c.settled && s.subs[PayerOf(s, c)].status.Cancelled?)
  }

  ghost predicate Money(s: State) {
    && (forall j :: 0 <= j < |s.payments| ==> RowFits(s, s.payments[j]))
    && (forall i, j :: 0 <= i < j < |s.payments| ==> s.payments[i].event != s.payments[j].event)
    && (forall t :: 0 <= t < |s.ledger| ==> ChargeFits(s, t))
    && (forall t, u | 0 <= t < u < |s.ledger| ::
          s.ledger[t].settled && s.ledger[u].settled && s.ledger[t].purpose.Upfront?
          ==> s.ledger[t].purpose != s.ledger[u].purpose)
  }

  // ------------------------------------------------------------------- schedules

  /** The dates of a subscription are its schedule after some number of extensions. */
  ghost predicate OnSchedule(sub: Subscription, dates: seq<Date>) {
    exists n: nat :: dates == Schedule(sub.created, sub.frequency, n)
  }

  ghost predicate Schedules(s: State) {
    forall k :: 0 <= k < |s.subs| ==> OnSchedule(s.subs[k], DatesOf(s.events, k))
  }

  ghost predicate Inv(s: State) {
    Lifecycle(s) && Money(s) && Schedules(s)
  }

  lemma EmptyStateInv()
    ensures Inv(EMPTY_STATE)
  {
  }

  // ------------------------------------------------------------ sums of rows

  lemma {:induction false} SumRowsAppend(a: seq<Payment>, b: seq<Payment>, txns: set<TxnId>)
    ensures SumRows(a + b, txns) == SumRows(a, txns) + SumRows(b, txns)
  {
    if b == [] {
      assert a + b == a;
    } else {
      assert (a + b)[..|a + b| - 1] == a + b[..|b| - 1];
      SumRowsAppend(a, b[..|b| - 1], txns);
    }
  }

  lemma {:induction false} SumRowsByContent(a: seq<Payment>, b: seq<Payment>, txns: set<TxnId>)
    requires |a| == |b|
    requires forall j :: 0 <= j < |a| ==> a[j].txn == b[j].txn && a[j].amount == b[j].amount
    ensures SumRows(a, txns) == SumRows(b, txns)
  {
    if a != [] {
      SumRowsByContent(a[..|a| - 1], b[..|b| - 1], txns);
    }
  }

  lemma {:induction false} SumRowsUnused(a: seq<Payment>, txns: set<TxnId>)
    requires forall j :: 0 <= j < |a| ==> a[j].txn.Some? ==> a[j].txn.value !in txns
    ensures SumRows(a, txns) == 0
  {
    if a != [] {
      SumRowsUnused(a[..|a| - 1], txns);
    }
  }

  lemma {:induction false} SumRowsDisjoint(a: seq<Payment>, t: set<TxnId>, u: set<TxnId>)
    requires t !! u
    ensures SumRows(a, t + u) == SumRows(a, t) + SumRows(a, u)
  {
    if a != [] {
      SumRowsDisjoint(a[..|a| - 1], t, u);
    }
  }

  /** The rows of one upfront charge add up to exactly what was charged. */
  lemma {:induction false} SumRowsUpfront(s: State, user: UserId, txn: TxnId, ids: seq<EventId>, rows: seq<Payment>)
    requires forall i :: 0 <= i < |ids| ==> ids[i] < |s.events|
    requires |rows| == |ids| && forall i :: 0 <= i < |ids| ==> rows[i] == UpfrontRow(s, user, txn, ids[i])
    ensures SumRows(rows, {txn}) == SumPrices(s.events, ids)
  {
    if ids != [] {
      SumRowsUpfront(s, user, txn, ids[..|ids| - 1], rows[..|rows| - 1]);
    }
  }

  lemma {:induction false} SumPricesStable(a: seq<Event>, b: seq<Event>, ids: seq<EventId>)
    requires forall i :: 0 <= i < |ids| ==> ids[i] < |a| && ids[i] < |b| && a[ids[i]].price == b[ids[i]].price
    ensures SumPrices(a, ids) == SumPrices(b, ids)
  {
    if ids != [] {
      SumPricesStable(a, b, ids[..|ids| - 1]);
    }
  }

  lemma {:induction false} SumPricesPositive(events: seq<Event>, ids: seq<EventId>)
    requires forall i :: 0 <= i < |ids| ==> ids[i] < |events| && events[ids[i]].price > 0
    ensures SumPrices(events, ids) >= |ids|
  {
    if ids != [] {
      SumPricesPositive(events, ids[..|ids| - 1]);
    }
  }

  // ------------------------------------------------------------ events of one subscription

  lemma {:induction false} SameRowsSameDates(a: seq<Event>, b: seq<Event>, k: SubId)
    requires |a| == |b|
    requires forall e :: 0 <= e < |a| ==> a[e].sub == b[e].sub && a[e].date == b[e].date
    ensures EventsOf(a, k) == EventsOf(b, k)
    ensures DatesOf(a, k) == DatesOf(b, k)
    ensures MaxDate(a, k) == MaxDate(b, k)
  {
    if a != [] {
      SameRowsSameDates(a[..|a| - 1], b[..|b| - 1], k);
    }
  }

  lemma EventsOfAppend(events: seq<Event>, ev: Event, k: SubId)
    ensures EventsOf(events + [ev], k) == EventsOf(events, k) + if ev.sub == k then [|events|] else []
    ensures DatesOf(events + [ev], k) == DatesOf(events, k) + if ev.sub == k then [ev.date] else []
    ensures MaxDate(events + [ev], k) ==
            if ev.sub == k && !(MaxDate(events, k).Some? && OnOrBefore(ev.date, MaxDate(events, k).value))
            then Some(ev.date) else MaxDate(events, k)
  {
    assert (events + [ev])[..|events|] == events;
  }

  lemma {:induction false} DatesOfAppend(events: seq<Event>, added: seq<Event>, owner: SubId,
                                         dates: seq<Date>, k: SubId)
    requires |added| == |dates|
    requires forall i :: 0 <= i < |added| ==> added[i].sub == owner && added[i].date == dates[i]
    ensures DatesOf(events + added, k) == DatesOf(events, k) + if k == owner then dates else []
  {
    if added == [] {
      assert events + added == events;
    } else {
      var n := |added| - 1;
      var before := events + added[..n];
      assert events + added == before + [added[n]];
      DatesOfAppend(events, added[..n], owner, dates[..n], k);
      EventsOfAppend(before, added[n], k);
      if k == owner {
        assert DatesOf(events, k) + dates[..n] + [dates[n]] == DatesOf(events, k) + dates;
      }
    }
  }

  lemma {:induction false} NoEventsYet(events: seq<Event>, k: SubId)
    requires forall e :: 0 <= e < |events| ==> events[e].sub != k
    ensures EventsOf(events, k) == [] && DatesOf(events, k) == []
  {
    if events != [] {
      NoEventsYet(events[..|events| - 1], k);
    }
  }

  /** The maximum date is the date of the last event: id order and date order agree. */
  lemma {:induction false} MaxDateIsLast(events: seq<Event>, k: SubId)
    requires forall i, j :: 0 <= i < j < |DatesOf(events, k)| ==>
                              Ordinal(DatesOf(events, k)[i]) < Ordinal(DatesOf(events, k)[j])
    ensures MaxDate(events, k) == if DatesOf(events, k) == [] then None else Some(Last(DatesOf(events, k)))
  {
    if events != [] {
      var n := |events| - 1;
      assert events == events[..n] + [events[n]];
      EventsOfAppend(events[..n], events[n], k);
      var before, dates := DatesOf(events[..n], k), DatesOf(events, k);
      assert forall i :: 0 <= i < |before| ==> before[i] == dates[i];
      MaxDateIsLast(events[..n], k);
      if events[n].sub == k && before != [] {
        assert Ordinal(dates[|before| - 1]) < Ordinal(dates[|before|]);
        OrdinalOrders(events[n].date, Last(before));
      }
    }
  }

  /** In a reachable state: dates strictly increase with id, so they are distinct and sorted. */
  lemma DatesIncrease(s: State, k: SubId)
    requires Schedules(s) && k < |s.subs|
    ensures forall i, j :: 0 <= i < j < |DatesOf(s.events, k)| ==>
                             Ordinal(DatesOf(s.events, k)[i]) < Ordinal(DatesOf(s.events, k)[j])
    ensures DatesOf(s.events, k) != []
    ensures MaxDate(s.events, k) == Some(Last(DatesOf(s.events, k)))
  {
    var sub := s.subs[k];
    assert OnSchedule(sub, DatesOf(s.events, k));
    var n: nat :| DatesOf(s.events, k) == Schedule(sub.created, sub.frequency, n);
    forall i, j | 0 <= i < j < |DatesOf(s.events, k)|
      ensures Ordinal(DatesOf(s.events, k)[i]) < Ordinal(DatesOf(s.events, k)[j])
    {
      ScheduleIncreases(sub.created, sub.frequency, n, i, j);
    }
    MaxDateIsLast(s.events, k);
  }
}
