/**
  What each subscription operation answers and leaves behind, said on the tables alone: who may
  do it and when, and what becomes of every row.
 */
module SubscriptionOutcomes {
  import opened Wrappers
  import opened Calendar
  import opened Frequency
  import opened Horizons
  import opened OrderStatuses
  import opened Shop
  import opened SubscriptionTables
  import opened SubscriptionSteps
  import opened SubscriptionInvariant
  import opened SubscriptionPreservation
  import opened SubscriptionRuns
  import opened SchedulerRuns

  // ------------------------------------------------------------------- who may act

  /** An operation a customer applies to a subscription that exists already. */
  predicate ByCustomer(op: Op) {
    op.PayOp? || op.PauseOp? || op.ResumeOp? || op.CancelOp?
  }

  /** Nothing of subscription `k` has changed: not its row, its events, its payments or its charges. */
  ghost predicate Untouched(s: State, r: State, k: SubId) {
    && k < |s.subs| && k < |r.subs| && r.subs[k] == s.subs[k]
    && |r.events| == |s.events|
    && (forall e :: 0 <= e < |s.events| && s.events[e].sub == k ==> r.events[e] == s.events[e])
    && |s.payments| <= |r.payments|
    && (forall j :: 0 <= j < |s.payments| && PaysFor(s, s.payments[j], k) ==> r.payments[j] == s.payments[j])
    && (forall j :: |s.payments| <= j < |r.payments| ==> !PaysFor(s, r.payments[j], k))
    && |s.ledger| <= |r.ledger|
    && (forall t :: 0 <= t < |s.ledger| && PayerOf(s, s.ledger[t]) == k ==> r.ledger[t] == s.ledger[t])
    && (forall t :: |s.ledger| <= t < |r.ledger| ==> PayerOf(s, r.ledger[t]) != k)
  }

  predicate PaysFor(s: State, p: Payment, k: SubId) {
    p.event < |s.events| && s.events[p.event].sub == k
  }

  /** To anyone but its owner a subscription is closed: the whole state stays as it is. */
  lemma StrangersChangeNothing(s: State, op: Op)
    requires ByCustomer(op) && (op.k >= |s.subs| || s.subs[op.k].user != op.user)
    ensures Step(s, op) == s
  {
  }

  lemma PayTouchesOne(s: State, op: Op, k: SubId)
    requires op.PayOp? && op.k < |s.subs| && k < |s.subs| && k != op.k
    ensures Untouched(s, Step(s, op), k)
  {
    if op.provider.Some? {
      ChargeShape(s, op.k, op.provider.value);
    }
  }

  lemma CancelTouchesOne(s: State, op: Op, k: SubId)
    requires Money(s) && op.CancelOp? && op.k < |s.subs| && k < |s.subs| && k != op.k
    ensures Untouched(s, Step(s, op), k)
  {
    forall p | p in s.payments && Refundable(s, op.k, p)
      ensures p.txn.value < |s.ledger| && PayerOf(s, s.ledger[p.txn.value]) == op.k
    {
      assert RowFits(s, p);
    }
  }

  /** In a reachable state, whatever changes in a subscription through these operations, its owner asked for it. */
  lemma OnlyTheOwnerActs(s: State, op: Op, k: SubId)
    requires Inv(s) && ByCustomer(op) && k < |s.subs| && !Untouched(s, Step(s, op), k)
    ensures op.k == k && op.user == s.subs[k].user
  {
    if op.k >= |s.subs| || s.subs[op.k].user != op.user {
      StrangersChangeNothing(s, op);
    } else if op.k != k {
      if op.PayOp? {
        PayTouchesOne(s, op, k);
      } else if op.CancelOp? {
        CancelTouchesOne(s, op, k);
      }
    }
  }

  /** Exactly the owner is let through, and only from these statuses; each refusal names its reason. */
  ghost predicate Admits(s: State, k: SubId, user: UserId, statuses: set<SubscriptionStatus>,
                         result: Result<SubId, Error>) {
    && (result.Ok? <==> k < |s.subs| && s.subs[k].user == user && s.subs[k].status in statuses)
    && (result.Ok? ==> result.value == k)
    && (result == Err(SubscriptionNotFound) <==> |s.subs| <= k)
    && (result == Err(AccessDenied) <==> k < |s.subs| && s.subs[k].user != user)
    && (k < |s.subs| && s.subs[k].user == user && result.Err? ==> result == Err(InvalidState(s.subs[k].status)))
  }

  // ------------------------------------------------------------------- pause, resume, cancel

  /** Only `k`'s status and its events' statuses differ, and those as `becomes` says. */
  ghost predicate Rewrites(s: State, r: State, k: SubId, status: SubscriptionStatus,
                           becomes: map<EventStatus, EventStatus>) {
    && k < |s.subs| && r.subs == s.subs[k := s.subs[k].(status := status)]
    && |r.events| == |s.events|
    && (forall e :: 0 <= e < |s.events| ==>
          var ev := s.events[e];
          r.events[e] == if ev.sub == k && ev.status in becomes then ev.(status := becomes[ev.status]) else ev)
    && r.orders == s.orders
  }

  lemma PauseOutcome(s: State, k: SubId, user: UserId)
    ensures var (r, result) := Pause(s, k, user);
            && Admits(s, k, user, {SubscriptionStatus.Active}, result)
            && (result.Err? ==> r == s)
            && (result.Ok? ==>
                  && Rewrites(s, r, k, SubscriptionStatus.Paused, map[EventStatus.Pending := EventStatus.Paused])
                  && r.payments == s.payments && r.ledger == s.ledger)
  {
  }

  lemma ResumeOutcome(s: State, k: SubId, user: UserId)
    ensures var (r, result) := Resume(s, k, user);
            && Admits(s, k, user, {SubscriptionStatus.Paused}, result)
            && (result.Err? ==> r == s)
            && (result.Ok? ==>
                  && Rewrites(s, r, k, SubscriptionStatus.Active, map[EventStatus.Paused := EventStatus.Pending])
                  && r.payments == s.payments && r.ledger == s.ledger)
  {
  }

  /** The rows a cancellation pays back: settled ones of events not delivered yet. */
  predicate PaidInVain(s: State, p: Payment, k: SubId) {
    && PaysFor(s, p, k) && p.status == PaymentStatus.Completed
    && s.events[p.event].status in {EventStatus.Pending, EventStatus.Paused, EventStatus.Ready}
  }

  lemma RefundOutcome(s: State, k: SubId, j: nat)
    requires Money(s) && j < |s.payments|
    ensures var r := RefundUndelivered(s, k);
            && |r.payments| == |s.payments|
            && r.payments[j] == if PaidInVain(s, s.payments[j], k)
                                then s.payments[j].(status := PaymentStatus.Refunded) else s.payments[j]
  {
    assert RowFits(s, s.payments[j]);
  }

  /** Cancelling ends the subscription and every event not delivered, and pays back what was paid for them. */
  lemma CancelOutcome(s: State, k: SubId, user: UserId, withProvider: bool)
    ensures var (r, result) := Cancel(s, k, user, withProvider);
            && Admits(s, k, user, {SubscriptionStatus.Pending, SubscriptionStatus.Active, SubscriptionStatus.Paused}, result)
            && (result.Err? ==> r == s)
            && (result.Ok? ==>
                  Rewrites(s, r, k, SubscriptionStatus.Cancelled,
                           map[EventStatus.Pending := EventStatus.Cancelled,
                               EventStatus.Paused := EventStatus.Cancelled,
                               EventStatus.Ready := EventStatus.Cancelled]))
  {
    if k < |s.subs| && !s.subs[k].status.Cancelled? && !s.subs[k].status.Completed? {
      assert s.subs[k].status.Pending? || s.subs[k].status.Active? || s.subs[k].status.Paused?;
    }
  }

  lemma CancelMarks(s: State, k: SubId, user: UserId, withProvider: bool, j: nat)
    requires Inv(s) && Cancel(s, k, user, withProvider).1.Ok? && j < |s.payments|
    ensures var r := Cancel(s, k, user, withProvider).0;
            && |r.payments| == |s.payments|
            && r.payments[j] == if withProvider && PaidInVain(s, s.payments[j], k)
                                then s.payments[j].(status := PaymentStatus.Refunded) else s.payments[j]
  {
    RefundOutcome(s, k, j);
  }

  /** The provider is asked to pay back a charge exactly when a row of it was paid in vain, and asked once. */
  lemma CancelRefunds(s: State, k: SubId, user: UserId, withProvider: bool, t: TxnId)
    requires Inv(s) && Cancel(s, k, user, withProvider).1.Ok? && t < |s.ledger|
    ensures var r := Cancel(s, k, user, withProvider).0;
            && t < |r.ledger| && r.ledger[t] == s.ledger[t].(refunds := r.ledger[t].refunds)
            && r.ledger[t].refunds == s.ledger[t].refunds +
                 if withProvider && exists p :: p in s.payments && PaidInVain(s, p, k) && p.txn == Some(t) then 1 else 0
  {
    forall p | p in s.payments && p.txn == Some(t)
      ensures PaidInVain(s, p, k) <==> Refundable(s, k, p)
    {
    }
    if t in RefundedTxns(s, k) {
      var p :| p in s.payments && Refundable(s, k, p) && p.txn.value == t;
      assert PaidInVain(s, p, k) && p.txn == Some(t);
    }
  }

  // ------------------------------------------------------------------- creation and payment

  /** Deliveries in the three months a subscription is created for. */
  function FirstDeliveries(f: Cadence): nat {
    match f
    case Weekly => 12
    case Biweekly => 6
    case Monthly => 3
  }

  /** Nothing has happened to the event yet; it carries the product's name and price of the day. */
  predicate IsOpenEvent(ev: Event, k: SubId, id: ProductId, p: Product) {
    ev == Event(k, ev.date, p.price, EventStatus.Pending, None, Some(Snapshot(id, p.name, p.price)))
  }

  /** A new subscription's first period: one product at its price of the day, a delivery per interval. */
  ghost predicate IsFirstPeriod(added: seq<Event>, k: SubId, f: Cadence, today: Date, id: ProductId, p: Product) {
    && |added| == FirstDeliveries(f)
    && (forall i :: 0 <= i < |added| ==> IsOpenEvent(added[i], k, id, p))
    && (forall i :: 0 <= i < |added| ==> InGap(if i == 0 then today else added[i - 1].date, added[i].date, f))
  }

  /** The new subscription `k` and its first period have been added to these tables. */
  ghost predicate Scheduled(before: seq<Event>, after: seq<Event>, k: SubId, f: Cadence, today: Date,
                            id: ProductId, p: Product) {
    before <= after && IsFirstPeriod(after[|before|..], k, f, today, id, p)
  }

  /** One settled charge of `amount` for `k`, and one completed row for each of its events and no other. */
  ghost predicate ChargedOnce(ledger: seq<Charge>, payments: seq<Payment>, r: State, k: SubId, amount: int, user: UserId) {
    && r.ledger == ledger + [Charge(Upfront(k), amount, true, 0)]
    && payments <= r.payments
    && (forall j :: |payments| <= j < |r.payments| ==>
          && r.payments[j].event < |r.events| && r.events[r.payments[j].event].sub == k
          && r.payments[j] == Payment(r.payments[j].event, user, r.events[r.payments[j].event].price,
                                      Some(|ledger|), PaymentStatus.Completed))
    && (forall e :: 0 <= e < |r.events| && r.events[e].sub == k ==> HasRow(r, |payments|, e))
  }

  ghost predicate HasRow(r: State, from: nat, e: EventId) {
    exists j :: from <= j < |r.payments| && r.payments[j].event == e
  }

  lemma {:induction false} EqualPrices(events: seq<Event>, ids: seq<EventId>, price: int)
    requires forall i :: 0 <= i < |ids| ==> ids[i] < |events| && events[ids[i]].price == price
    ensures SumPrices(events, ids) == |ids| * price
  {
    if ids != [] {
      EqualPrices(events, ids[..|ids| - 1], price);
      assert (|ids| - 1) * price + price == |ids| * price;
    }
  }

  lemma RowFor(s: State, k: SubId, settles: Provider, e: EventId)
    requires k < |s.subs| && settles(|s.ledger|) && e < |s.events| && s.events[e].sub == k
    ensures HasRow(ChargeAndActivate(s, k, settles).0, |s.payments|, e)
  {
    var ids := EventsOf(s.events, k);
    EventsOfComplete(s.events, k);
    var i :| 0 <= i < |ids| && ids[i] == e;
    assert ChargeAndActivate(s, k, settles).0.payments[|s.payments| + i].event == e;
  }

  /** A settled upfront charge. */
  lemma SettledOutcome(s: State, k: SubId, settles: Provider)
    requires k < |s.subs| && EventsOf(s.events, k) != [] && settles(|s.ledger|)
    ensures var (r, ok) := ChargeAndActivate(s, k, settles);
            && ok && r.events == s.events && r.orders == s.orders
            && r.subs == s.subs[k := s.subs[k].(status := SubscriptionStatus.Active)]
            && ChargedOnce(s.ledger, s.payments, r, k, SumPrices(s.events, EventsOf(s.events, k)), s.subs[k].user)
  {
    var r := ChargeAndActivate(s, k, settles).0;
    forall e | 0 <= e < |r.events| && r.events[e].sub == k
      ensures HasRow(r, |s.payments|, e)
    {
      RowFor(s, k, settles, e);
    }
  }

  lemma DeclinedOutcome(s: State, k: SubId, settles: Provider)
    requires k < |s.subs| && EventsOf(s.events, k) != [] && !settles(|s.ledger|)
    ensures ChargeAndActivate(s, k, settles) ==
            (s.(ledger := s.ledger + [Charge(Upfront(k), SumPrices(s.events, EventsOf(s.events, k)), false, 0)]), false)
  {
  }

  /** What a payment asks for before the provider is asked. */
  predicate MayPay(s: State, k: SubId, user: UserId, card: MethodId, saved: set<MethodId>) {
    && k < |s.subs| && s.subs[k].user == user && s.subs[k].status == SubscriptionStatus.Pending
    && card in saved
  }

  lemma PayAnswer(s: State, k: SubId, user: UserId, card: MethodId, saved: set<MethodId>, provider: Option<Provider>)
    requires k < |s.subs| ==> EventsOf(s.events, k) != []
    ensures var (r, result) := Pay(s, k, user, card, saved, provider);
            var asked := provider.Some? && MayPay(s, k, user, card, saved);
            && (result.Ok? <==> asked && provider.value(|s.ledger|))
            && (result == Err(ChargeFailed) <==> asked && !provider.value(|s.ledger|))
            && (result.Err? ==> r == s.(ledger := r.ledger) && s.ledger <= r.ledger
                                && |r.ledger| == |s.ledger| + if asked then 1 else 0)
            && (result.Ok? ==>
                  && r.subs == s.subs[k := s.subs[k].(status := SubscriptionStatus.Active)]
                  && r.events == s.events && r.orders == s.orders
                  && |r.ledger| > 0 && ChargedOnce(s.ledger, s.payments, r, k, r.ledger[|s.ledger|].amount, user))
  {
    if provider.Some? && MayPay(s, k, user, card, saved) {
      if provider.value(|s.ledger|) {
        SettledOutcome(s, k, provider.value);
      } else {
        DeclinedOutcome(s, k, provider.value);
      }
    }
  }

  /**
    A payment goes through exactly when the owner of a pending subscription uses a saved card and
    the provider settles; a refused one leaves at most a declined charge in the provider's books.
   */
  lemma PayOutcome(s: State, k: SubId, user: UserId, card: MethodId, saved: set<MethodId>, provider: Option<Provider>)
    requires Inv(s)
    ensures var (r, result) := Pay(s, k, user, card, saved, provider);
            var asked := provider.Some? && MayPay(s, k, user, card, saved);
            && (result.Ok? <==> asked && provider.value(|s.ledger|))
            && (result == Err(ChargeFailed) <==> asked && !provider.value(|s.ledger|))
            && (result.Err? ==> r == s.(ledger := r.ledger) && s.ledger <= r.ledger
                                && |r.ledger| == |s.ledger| + if asked then 1 else 0)
            && (result.Ok? ==>
                  && r.subs == s.subs[k := s.subs[k].(status := SubscriptionStatus.Active)]
                  && r.events == s.events && r.orders == s.orders
                  && |r.ledger| > 0 && ChargedOnce(s.ledger, s.payments, r, k, r.ledger[|s.ledger|].amount, user))
  {
    if k < |s.subs| {
      DatesIncrease(s, k);
    }
    PayAnswer(s, k, user, card, saved, provider);
  }

  /** Why a payment is turned away before the provider is asked. */
  lemma PayRefusals(s: State, k: SubId, user: UserId, card: MethodId, saved: set<MethodId>, provider: Option<Provider>)
    ensures var result := Pay(s, k, user, card, saved, provider).1;
            && (result == Err(ProviderMissing) <==> provider.None?)
            && (provider.Some? ==>
                  && (result == Err(SubscriptionNotFound) <==> |s.subs| <= k)
                  && (result == Err(AccessDenied) <==> k < |s.subs| && s.subs[k].user != user)
                  && (k < |s.subs| && s.subs[k].user == user ==>
                        && (result == Err(InvalidState(s.subs[k].status)) <==> s.subs[k].status != SubscriptionStatus.Pending)
                        && (result == Err(PaymentMethodNotFound) <==>
                            s.subs[k].status == SubscriptionStatus.Pending && card !in saved)))
  {
  }

  lemma FirstGaps(today: Date, f: Cadence, i: nat)
    requires i < FirstDeliveries(f)
    ensures InGap(if i == 0 then today else EventDates(today, f)[i - 1], EventDates(today, f)[i], f)
  {
    var dates := EventDates(today, f);
    FirstHorizonIsAnExtension(today, f);
    assert dates == NextDatesAfter(today, f);
    HorizonGaps(today, f, i);
  }

  lemma FirstPeriod(added: seq<Event>, k: SubId, f: Cadence, today: Date, id: ProductId, p: Product)
    requires |added| == |EventDates(today, f)|
    requires forall i :: 0 <= i < |added| ==> added[i] == NewEvent(k, EventDates(today, f)[i], id, p)
    ensures IsFirstPeriod(added, k, f, today, id, p)
  {
    forall i | 0 <= i < |added|
      ensures InGap(if i == 0 then today else added[i - 1].date, added[i].date, f)
    {
      FirstGaps(today, f, i);
    }
  }

  lemma InsertedEvents(s: State, user: UserId, id: ProductId, p: Product, f: Cadence, address: Address, today: Date)
    ensures var m := InsertSubscription(s, user, id, p, f, address, today);
            Scheduled(s.events, m.events, |s.subs|, f, today, id, p)
  {
    var dates := EventDates(today, f);
    var added := InsertSubscription(s, user, id, p, f, address, today).events[|s.events|..];
    assert added == seq(|dates|, i requires 0 <= i < |dates| => NewEvent(|s.subs|, dates[i], id, p));
    FirstPeriod(added, |s.subs|, f, today, id, p);
  }

  lemma InsertedTotal(s: State, user: UserId, id: ProductId, p: Product, f: Cadence, address: Address, today: Date)
    requires Inv(s)
    ensures var m := InsertSubscription(s, user, id, p, f, address, today);
            && EventsOf(m.events, |s.subs|) != []
            && SumPrices(m.events, EventsOf(m.events, |s.subs|)) == FirstDeliveries(f) * p.price
  {
    var m := InsertSubscription(s, user, id, p, f, address, today);
    var ids := EventsOf(m.events, |s.subs|);
    CreatedDates(s, user, id, p, f, address, today);
    assert |ids| == |DatesOf(m.events, |s.subs|)| == FirstDeliveries(f);
    forall e | 0 <= e < |s.events|
      ensures m.events[e].sub != |s.subs|
    {
      assert EventFits(s, s.events[e]);
    }
    EqualPrices(m.events, ids, p.price);
  }

  /** What a creation asks for before anything is charged. */
  predicate MayCreate(id: ProductId, catalog: Catalog) {
    id in catalog && catalog[id].active
  }

  /** Why a creation is turned away before the provider is asked. */
  lemma CreateRefusals(s: State, user: UserId, id: ProductId, catalog: Catalog, f: Cadence, address: Address,
                       today: Date, card: Option<MethodId>, saved: set<MethodId>, provider: Option<Provider>)
    ensures var result := Create(s, user, id, catalog, f, address, today, card, saved, provider).1;
            && (result == Err(ProductNotFound) <==> id !in catalog)
            && (result == Err(ProductInactive) <==> id in catalog && !catalog[id].active)
            && (MayCreate(id, catalog) && card.Some? ==>
                  && (result == Err(ProviderMissing) <==> provider.None?)
                  && (result == Err(PaymentMethodNotFound) <==> provider.Some? && card.value !in saved))
  {
  }

  /** Without a card the subscription is made and waits: unpaid, pending, its first period scheduled. */
  lemma CreateUnpaidOutcome(s: State, user: UserId, id: ProductId, catalog: Catalog, f: Cadence, address: Address,
                            today: Date, saved: set<MethodId>, provider: Option<Provider>)
    ensures var (r, result) := Create(s, user, id, catalog, f, address, today, None, saved, provider);
            && (result.Ok? <==> MayCreate(id, catalog))
            && (result.Err? ==> r == s)
            && (result.Ok? ==>
                  && result.value == |s.subs|
                  && r.subs == s.subs + [Subscription(user, today, f, SubscriptionStatus.Pending, Some(address))]
                  && Scheduled(s.events, r.events, |s.subs|, f, today, id, catalog[id])
                  && r.orders == s.orders && r.payments == s.payments && r.ledger == s.ledger)
  {
    if MayCreate(id, catalog) {
      InsertedEvents(s, user, id, catalog[id], f, address, today);
    }
  }

  lemma LastReplaced<T>(before: seq<T>, last: T, other: T)
    ensures (before + [last])[|before| := other] == before + [other]
  {
  }

  /** Charging a subscription that has just been inserted. */
  lemma InsertedSettles(s: State, m: State, user: UserId, f: Cadence, address: Address, today: Date, total: int,
                        settles: Provider)
    requires m.subs == s.subs + [Subscription(user, today, f, SubscriptionStatus.Pending, Some(address))]
    requires m.orders == s.orders && m.payments == s.payments && m.ledger == s.ledger
    requires EventsOf(m.events, |s.subs|) != [] && SumPrices(m.events, EventsOf(m.events, |s.subs|)) == total
    requires settles(|s.ledger|)
    ensures var (r, ok) := ChargeAndActivate(m, |s.subs|, settles);
            && ok && r.events == m.events && r.orders == s.orders
            && r.subs == s.subs + [Subscription(user, today, f, SubscriptionStatus.Active, Some(address))]
            && ChargedOnce(s.ledger, s.payments, r, |s.subs|, total, user)
  {
    SettledOutcome(m, |s.subs|, settles);
    LastReplaced(s.subs, m.subs[|s.subs|], m.subs[|s.subs|].(status := SubscriptionStatus.Active));
  }

  lemma CreationSettles(s: State, user: UserId, id: ProductId, p: Product, f: Cadence, address: Address, today: Date,
                        settles: Provider)
    requires Inv(s) && settles(|s.ledger|)
    ensures var (r, ok) := ChargeAndActivate(InsertSubscription(s, user, id, p, f, address, today), |s.subs|, settles);
            && ok
            && r.subs == s.subs + [Subscription(user, today, f, SubscriptionStatus.Active, Some(address))]
            && Scheduled(s.events, r.events, |s.subs|, f, today, id, p)
            && r.orders == s.orders
            && ChargedOnce(s.ledger, s.payments, r, |s.subs|, FirstDeliveries(f) * p.price, user)
  {
    var m := InsertSubscription(s, user, id, p, f, address, today);
    InsertedEvents(s, user, id, p, f, address, today);
    InsertedTotal(s, user, id, p, f, address, today);
    InsertedSettles(s, m, user, f, address, today, FirstDeliveries(f) * p.price, settles);
  }

  lemma CreationDeclines(s: State, user: UserId, id: ProductId, p: Product, f: Cadence, address: Address, today: Date,
                         settles: Provider)
    requires Inv(s) && !settles(|s.ledger|)
    ensures var (r, ok) := ChargeAndActivate(InsertSubscription(s, user, id, p, f, address, today), |s.subs|, settles);
            !ok && s.ledger <= r.ledger && |r.ledger| == |s.ledger| + 1
  {
    InsertedTotal(s, user, id, p, f, address, today);
    DeclinedOutcome(InsertSubscription(s, user, id, p, f, address, today), |s.subs|, settles);
  }

  predicate MayCreatePaid(id: ProductId, catalog: Catalog, card: MethodId, saved: set<MethodId>) {
    MayCreate(id, catalog) && card in saved
  }

  /**
    With a card it is made active and charged for all its deliveries at once, or not made at all;
    then at most a declined charge is left in the provider's books.
   */
  lemma CreatePaidOutcome(s: State, user: UserId, id: ProductId, catalog: Catalog, f: Cadence, address: Address,
                          today: Date, card: MethodId, saved: set<MethodId>, provider: Option<Provider>)
    requires Inv(s)
    ensures var (r, result) := Create(s, user, id, catalog, f, address, today, Some(card), saved, provider);
            var asked := provider.Some? && MayCreatePaid(id, catalog, card, saved);
            && (result.Ok? <==> asked && provider.value(|s.ledger|))
            && (result == Err(ChargeFailed) <==> asked && !provider.value(|s.ledger|))
            && (result.Err? ==> r == s.(ledger := r.ledger) && s.ledger <= r.ledger
                                && |r.ledger| == |s.ledger| + if asked then 1 else 0)
            && (result.Ok? ==>
                  && result.value == |s.subs|
                  && r.subs == s.subs + [Subscription(user, today, f, SubscriptionStatus.Active, Some(address))]
                  && Scheduled(s.events, r.events, |s.subs|, f, today, id, catalog[id])
                  && r.orders == s.orders
                  && ChargedOnce(s.ledger, s.payments, r, |s.subs|, FirstDeliveries(f) * catalog[id].price, user))
  {
    if provider.Some? && MayCreatePaid(id, catalog, card, saved) {
      if provider.value(|s.ledger|) {
        CreationSettles(s, user, id, catalog[id], f, address, today, provider.value);
      } else {
        CreationDeclines(s, user, id, catalog[id], f, address, today, provider.value);
      }
    }
  }

  // ------------------------------------------------------------------- the scheduler's passes

  /** An event that has come up: still open, of a running subscription, and on or before today. */
  predicate HasComeUp(s: State, e: EventId, today: Date) {
    && e < |s.events| && s.events[e].status == EventStatus.Pending
    && s.events[e].sub < |s.subs| && s.subs[s.events[e].sub].status == SubscriptionStatus.Active
    && Ordinal(s.events[e].date) <= Ordinal(today)
  }

  /** The event's order: one unit of its product at the price it was scheduled at, for its subscriber. */
  ghost predicate OrderedFor(s: State, ev: Event, order: Order) {
    && ev.sub < |s.subs| && ev.product.Some? && s.subs[ev.sub].delivery.Some?
    && order == Order(s.subs[ev.sub].user, ev.price, OrderStatus.Created,
                      [Line(ev.product.value.product, ev.product.value.name, ev.price, 1)],
                      Delivery(s.subs[ev.sub].delivery.value, None, None))
  }

  lemma ComesUp(s: State, today: Date, due: seq<EventId>, e: EventId)
    requires Lifecycle(s) && IsDueQuery(s, today, due) && e < |s.events|
    ensures e in due <==> HasComeUp(s, e, today)
  {
    assert EventFits(s, s.events[e]);
    OrdinalOrders(s.events[e].date, today);
    assert e in due <==> Due(s, e, today);
  }

  lemma OrderedAsMeans(s: State, r: State, e: EventId, o: OrderId)
    requires OrderedAs(s, r, e, o) && EventFits(s, s.events[e])
    ensures OrderedFor(s, s.events[e], r.orders[o])
    ensures r.events[e] == s.events[e].(status := EventStatus.Ready, order := Some(o))
  {
  }

  lemma RowOrdered(s: State, due: seq<EventId>, e: EventId)
    requires Materializable(s, due) && e in due && e < |s.events| && Lifecycle(s)
    ensures var r := ProcessRows(s, due);
            && |r.events| == |s.events|
            && r.events[e].order.Some? && |s.orders| <= r.events[e].order.value < |r.orders|
            && r.events[e] == s.events[e].(status := EventStatus.Ready, order := r.events[e].order)
            && OrderedFor(s, s.events[e], r.orders[r.events[e].order.value])
  {
    var i :| 0 <= i < |due| && due[i] == e;
    ProcessFrame(s, due);
    ProcessedRow(s, due, i);
    assert EventFits(s, s.events[e]);
    OrderedAsMeans(s, ProcessRows(s, due), e, |s.orders| + i);
  }

  /** In a reachable state the due pass orders exactly the events that have come up, and nothing else happens. */
  lemma DuePassOutcome(s: State, today: Date, due: seq<EventId>, e: EventId)
    requires Lifecycle(s) && IsDueQuery(s, today, due) && e < |s.events|
    ensures var r := ProcessRows(s, due);
            && r == s.(events := r.events, orders := r.orders)
            && |r.events| == |s.events| && s.orders <= r.orders
            && if HasComeUp(s, e, today) then
                 && r.events[e].order.Some? && |s.orders| <= r.events[e].order.value < |r.orders|
                 && r.events[e] == s.events[e].(status := EventStatus.Ready, order := r.events[e].order)
                 && OrderedFor(s, s.events[e], r.orders[r.events[e].order.value])
               else r.events[e] == s.events[e]
  {
    ComesUp(s, today, due, e);
    DueRowsMaterialize(s, today, due);
    ProcessFrame(s, due);
    if e in due {
      RowOrdered(s, due, e);
    }
  }

  /** After the sync an event is completed if and only if it was, or its order is. */
  lemma SyncOutcome(s: State, e: EventId)
    requires Inv(s) && e < |s.events|
    ensures var r := SyncCompleted(s);
            var delivered := s.events[e].order.Some? && s.events[e].order.value < |s.orders|
                             && s.orders[s.events[e].order.value].status == OrderStatus.Completed;
            && r == s.(events := r.events) && |r.events| == |s.events|
            && r.events[e] == if delivered then s.events[e].(status := EventStatus.Completed) else s.events[e]
  {
  }
}
