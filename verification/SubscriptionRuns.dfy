/** Whole runs of the subscription engine: any interleaving of its operations, from empty tables. */
module SubscriptionRuns {
  import opened Wrappers
  import opened Calendar
  import opened Frequency
  import opened Horizons
  import opened OrderStatuses
  import opened Shop
  import opened SubscriptionTables
  import opened SubscriptionSteps
  import opened SubscriptionInvariant
  import opened SubscriptionPreservation

  datatype Op =
    | CreateOp(user: UserId, id: ProductId, catalog: Catalog, cadence: Cadence, address: Address, today: Date,
               card: Option<MethodId>, saved: set<MethodId>, provider: Option<Provider>)
    | PayOp(k: SubId, user: UserId, savedCard: MethodId, saved: set<MethodId>, provider: Option<Provider>)
    | PauseOp(k: SubId, user: UserId)
    | ResumeOp(k: SubId, user: UserId)
    | CancelOp(k: SubId, user: UserId, withProvider: bool)
    | ProcessOp(today: Date, due: seq<EventId>)
    | SyncOp
    | ExtendOp(today: Date, rows: seq<(SubId, Date)>, catalog: Catalog, provider: Option<Provider>)
    | MoveOrderOp(o: OrderId, target: OrderStatus, now: Time)
    | PlaceOrderOp(order: Order)

  /** The scheduler's operations act on what their queries return. */
  ghost predicate Legal(s: State, op: Op) {
    match op
    case ProcessOp(today, due) => IsDueQuery(s, today, due)
    case ExtendOp(today, rows, _, _) => IsExtensionQuery(s, today, rows)
    case _ => true
  }

  function Step(s: State, op: Op): State {
    match op
    case CreateOp(user, id, catalog, f, address, today, card, saved, provider) =>
      Create(s, user, id, catalog, f, address, today, card, saved, provider).0
    case PayOp(k, user, card, saved, provider) => Pay(s, k, user, card, saved, provider).0
    case PauseOp(k, user) => Pause(s, k, user).0
    case ResumeOp(k, user) => Resume(s, k, user).0
    case CancelOp(k, user, withProvider) => Cancel(s, k, user, withProvider).0
    case ProcessOp(_, due) => ProcessRows(s, due)
    case SyncOp => SyncCompleted(s)
    case ExtendOp(_, rows, catalog, provider) => ExtendRows(s, rows, catalog, provider)
    case MoveOrderOp(o, target, now) => MoveOrder(s, o, target, now)
    case PlaceOrderOp(order) => PlaceOrder(s, order)
  }

  function Run(s: State, ops: seq<Op>): State {
    if ops == [] then s else Step(Run(s, ops[..|ops| - 1]), ops[|ops| - 1])
  }

  ghost predicate LegalRun(s: State, ops: seq<Op>) {
    ops == [] || (LegalRun(s, ops[..|ops| - 1]) && Legal(Run(s, ops[..|ops| - 1]), ops[|ops| - 1]))
  }

  lemma DueRowsAreDue(s: State, today: Date, due: seq<EventId>)
    requires IsDueQuery(s, today, due)
    ensures forall i :: 0 <= i < |due| ==> StillDue(s, due[i])
  {
    forall i | 0 <= i < |due|
      ensures StillDue(s, due[i])
    {
      assert due[i] in due;
      assert Due(s, due[i], today);
    }
  }

  /** Each subscription has one maximum date, so the extension query names it once. */
  lemma ExtensionRowsDistinct(s: State, today: Date, rows: seq<(SubId, Date)>)
    requires IsExtensionQuery(s, today, rows)
    ensures forall i :: 0 <= i < |rows| ==> NeedsHorizon(s, rows[i].0, rows[i].1, today)
    ensures forall i, j :: 0 <= i < j < |rows| ==> rows[i].0 != rows[j].0
  {
    forall i | 0 <= i < |rows|
      ensures NeedsHorizon(s, rows[i].0, rows[i].1, today)
    {
      assert (rows[i].0, rows[i].1) in rows;
    }
    forall i, j | 0 <= i < j < |rows|
      ensures rows[i].0 != rows[j].0
    {
      assert NeedsHorizon(s, rows[i].0, rows[i].1, today) && NeedsHorizon(s, rows[j].0, rows[j].1, today);
      assert rows[i] != rows[j];
    }
  }

  lemma StepKeepsInv(s: State, op: Op)
    requires Inv(s) && Legal(s, op)
    ensures Inv(Step(s, op))
  {
    match op
    case CreateOp(user, id, catalog, f, address, today, card, saved, provider) =>
      CreateKeepsInv(s, user, id, catalog, f, address, today, card, saved, provider);
    case PayOp(k, user, card, saved, provider) => PayKeepsInv(s, k, user, card, saved, provider);
    case PauseOp(k, user) => PauseKeepsInv(s, k, user);
    case ResumeOp(k, user) => ResumeKeepsInv(s, k, user);
    case CancelOp(k, user, withProvider) => CancelKeepsInv(s, k, user, withProvider);
    case ProcessOp(today, due) =>
      DueRowsAreDue(s, today, due);
      ProcessRowsKeepsInv(s, today, due);
    case SyncOp => SyncKeepsInv(s);
    case ExtendOp(today, rows, catalog, provider) =>
      ExtensionRowsDistinct(s, today, rows);
      ExtendRowsKeepsInv(s, today, rows, catalog, provider);
    case MoveOrderOp(o, target, now) => MoveOrderKeepsInv(s, o, target, now);
    case PlaceOrderOp(order) => PlaceOrderKeepsInv(s, order);
  }

  /** The invariant holds in every state reachable by any interleaving. */
  lemma {:induction false} RunKeepsInv(s: State, ops: seq<Op>)
    requires Inv(s) && LegalRun(s, ops)
    ensures Inv(Run(s, ops))
  {
    if ops != [] {
      RunKeepsInv(s, ops[..|ops| - 1]);
      StepKeepsInv(Run(s, ops[..|ops| - 1]), ops[|ops| - 1]);
    }
  }

  // ------------------------------------------------------------ what the invariant says

  /** Statuses, orders and dates of a subscription's events in any reachable state. */
  lemma ReachableEvents(ops: seq<Op>, e: EventId)
    requires LegalRun(EMPTY_STATE, ops) && e < |Run(EMPTY_STATE, ops).events|
    ensures var s := Run(EMPTY_STATE, ops);
            var ev := s.events[e];
            && ev.sub < |s.subs|
            && StatusFits(s.subs[ev.sub].status, ev.status)
            && (ev.status in {EventStatus.Pending, EventStatus.Paused} ==> ev.order.None?)
            && (ev.status in {EventStatus.Ready, EventStatus.Completed} ==> ev.order.Some?)
            && (ev.order.Some? ==>
                  && ev.order.value < |s.orders|
                  && s.orders[ev.order.value].total == ev.price
                  && |s.orders[ev.order.value].lines| == 1
                  && s.orders[ev.order.value].lines[0].price * s.orders[ev.order.value].lines[0].quantity == ev.price
                  && (ev.status.Completed? ==>
                        s.orders[ev.order.value].status in {OrderStatus.Completed, OrderStatus.Refunded}))
            && (forall d :: 0 <= d < |s.events| && d != e ==>
                              && (s.events[d].order.Some? ==> s.events[d].order != ev.order)
                              && (s.events[d].sub == ev.sub ==> s.events[d].date != ev.date))
  {
    EmptyStateInv();
    RunKeepsInv(EMPTY_STATE, ops);
    var s := Run(EMPTY_STATE, ops);
    var ev := s.events[e];
    assert EventFits(s, ev);
    forall d | 0 <= d < |s.events| && d != e && s.events[d].sub == ev.sub
      ensures s.events[d].date != ev.date
    {
      DatesDistinct(s, ev.sub, d, e);
    }
  }

  /** Where an event stands among its subscription's dates. */
  lemma DateAt(s: State, k: SubId, e: EventId) returns (i: nat)
    requires e < |s.events| && s.events[e].sub == k
    ensures i < |EventsOf(s.events, k)| && EventsOf(s.events, k)[i] == e && DatesOf(s.events, k)[i] == s.events[e].date
  {
    EventsOfComplete(s.events, k);
    assert e in EventsOf(s.events, k);
    i :| 0 <= i < |EventsOf(s.events, k)| && EventsOf(s.events, k)[i] == e;
  }

  lemma DatesDistinct(s: State, k: SubId, d: EventId, e: EventId)
    requires Schedules(s) && k < |s.subs|
    requires d < |s.events| && e < |s.events| && d != e && s.events[d].sub == k && s.events[e].sub == k
    ensures s.events[d].date != s.events[e].date
  {
    DatesIncrease(s, k);
    var i := DateAt(s, k, d);
    var j := DateAt(s, k, e);
    assert Ordinal(DatesOf(s.events, k)[i]) != Ordinal(DatesOf(s.events, k)[j]);
  }

  /**
    Charge conservation: the rows of every provider transaction add up to exactly what was
    charged (a declined upfront charge, rolled back, has none), and a settled charge has rows.
   */
  lemma ChargesAreRecorded(ops: seq<Op>, t: TxnId)
    requires LegalRun(EMPTY_STATE, ops) && t < |Run(EMPTY_STATE, ops).ledger|
    ensures var s := Run(EMPTY_STATE, ops);
            && SumRows(s.payments, {t}) == (if s.ledger[t].purpose.Upfront? && !s.ledger[t].settled then 0
                                            else s.ledger[t].amount)
            && s.ledger[t].refunds <= 1
            && (s.ledger[t].refunds == 1 ==> s.ledger[t].settled)
            && (s.ledger[t].settled ==> exists j :: 0 <= j < |s.payments| && s.payments[j].txn == Some(t))
  {
    EmptyStateInv();
    RunKeepsInv(EMPTY_STATE, ops);
    var s := Run(EMPTY_STATE, ops);
    assert ChargeFits(s, t);
    if forall j :: 0 <= j < |s.payments| ==> s.payments[j].txn != Some(t) {
      SumRowsUnused(s.payments, {t});
    }
  }

  /** Each event has at most one payment row, and a subscription settles at most one upfront charge. */
  lemma NothingIsChargedTwice(ops: seq<Op>)
    requires LegalRun(EMPTY_STATE, ops)
    ensures var s := Run(EMPTY_STATE, ops);
            && (forall i, j :: 0 <= i < j < |s.payments| ==> s.payments[i].event != s.payments[j].event)
            && (forall t, u | 0 <= t < u < |s.ledger| ::
                  s.ledger[t].settled && s.ledger[u].settled && s.ledger[t].purpose.Upfront?
                  ==> s.ledger[t].purpose != s.ledger[u].purpose)
            && (forall j :: 0 <= j < |s.payments| ==> RowFits(s, s.payments[j]))
  {
    EmptyStateInv();
    RunKeepsInv(EMPTY_STATE, ops);
  }

  lemma BulkUndone(events: seq<Event>, k: SubId)
    requires forall e :: 0 <= e < |events| && events[e].sub == k ==> !events[e].status.Paused?
    ensures BulkStatus(BulkStatus(events, k, {EventStatus.Pending}, EventStatus.Paused),
                       k, {EventStatus.Paused}, EventStatus.Pending) == events
  {
  }

  /** Pausing and resuming gives back exactly the state before. */
  lemma ResumeUndoesPause(s: State, k: SubId, user: UserId)
    requires Inv(s) && Pause(s, k, user).1.Ok?
    ensures Resume(Pause(s, k, user).0, k, user) == (s, Ok(k))
  {
    forall e | 0 <= e < |s.events| && s.events[e].sub == k
      ensures !s.events[e].status.Paused?
    {
      assert EventFits(s, s.events[e]);
    }
    BulkUndone(s.events, k);
    assert Resume(Pause(s, k, user).0, k, user).0.subs == s.subs;
  }

  // ------------------------------------------------------------ history is never rewritten

  ghost predicate SubsEvolve(a: seq<Subscription>, b: seq<Subscription>) {
    && |a| <= |b|
    && forall k :: 0 <= k < |a| ==>
         && b[k] == a[k].(status := b[k].status)
         && (a[k].status.Cancelled? ==> b[k].status.Cancelled?)
         && (b[k].status.Pending? ==> a[k].status.Pending?)
  }

  ghost predicate EventsEvolve(a: seq<Event>, b: seq<Event>) {
    && |a| <= |b|
    && forall e :: 0 <= e < |a| ==>
         && b[e] == a[e].(status := b[e].status, order := b[e].order)
         && (a[e].order.Some? ==> b[e].order == a[e].order)
         && (a[e].status.Completed? ==> b[e].status.Completed?)
  }

  ghost predicate OrdersEvolve(a: seq<Order>, b: seq<Order>) {
    && |a| <= |b|
    && forall o :: 0 <= o < |a| ==>
         && b[o] == a[o].(status := b[o].status, fulfilment := b[o].fulfilment)
         && SameDestination(a[o].fulfilment, b[o].fulfilment)
         && (b[o].status == a[o].status || Rank(a[o].status) < Rank(b[o].status))
  }

  ghost predicate PaymentsEvolve(a: seq<Payment>, b: seq<Payment>) {
    && |a| <= |b|
    && forall j :: 0 <= j < |a| ==>
         && b[j] == a[j].(status := b[j].status)
         && (b[j].status == a[j].status || (a[j].status.Completed? && b[j].status.Refunded?))
  }

  ghost predicate LedgerEvolves(a: seq<Charge>, b: seq<Charge>) {
    && |a| <= |b|
    && forall t :: 0 <= t < |a| ==> b[t] == a[t].(refunds := b[t].refunds) && a[t].refunds <= b[t].refunds
  }

  /** What no later step takes back. */
  ghost predicate Evolves(s: State, r: State) {
    && SubsEvolve(s.subs, r.subs)
    && EventsEvolve(s.events, r.events)
    && OrdersEvolve(s.orders, r.orders)
    && PaymentsEvolve(s.payments, r.payments)
    && LedgerEvolves(s.ledger, r.ledger)
  }

  lemma EvolvesTransitively(a: State, b: State, c: State)
    requires Evolves(a, b) && Evolves(b, c)
    ensures Evolves(a, c)
  {
  }

  /** Tables that only grow. */
  predicate Grows(s: State, r: State) {
    s.subs <= r.subs && s.events <= r.events && s.orders <= r.orders && s.payments <= r.payments && s.ledger <= r.ledger
  }

  lemma GrowthEvolves(s: State, r: State)
    requires Grows(s, r)
    ensures Evolves(s, r)
  {
  }

  lemma SubsEvolveStatus(a: seq<Subscription>, k: SubId, status: SubscriptionStatus)
    requires k < |a| && (a[k].status.Cancelled? ==> status.Cancelled?) && (status.Pending? ==> a[k].status.Pending?)
    ensures SubsEvolve(a, a[k := a[k].(status := status)])
  {
  }

  lemma BulkEvolves(a: seq<Event>, k: SubId, from: set<EventStatus>, to: EventStatus)
    requires EventStatus.Completed !in from
    ensures EventsEvolve(a, BulkStatus(a, k, from, to))
  {
  }

  /** An event without an order is given one. */
  lemma OneOrderEvolves(s: State, e: EventId)
    requires e < |s.events| && s.events[e].order.None? && !s.events[e].status.Completed?
    ensures Evolves(s, ProcessOne(s, e))
  {
  }

  lemma {:induction false} ProcessEvolves(s: State, rows: seq<EventId>)
    requires Lifecycle(s)
    requires forall i :: 0 <= i < |rows| ==> StillDue(s, rows[i])
    requires forall i, j :: 0 <= i < j < |rows| ==> rows[i] != rows[j]
    ensures Evolves(s, ProcessRows(s, rows))
    ensures ProcessRows(s, rows).subs == s.subs && |ProcessRows(s, rows).events| == |s.events|
    ensures forall e :: 0 <= e < |s.events| && e !in rows ==> ProcessRows(s, rows).events[e] == s.events[e]
  {
    if rows != [] {
      var n := |rows| - 1;
      var before := ProcessRows(s, rows[..n]);
      ProcessEvolves(s, rows[..n]);
      assert rows[n] !in rows[..n];
      assert before.events[rows[n]] == s.events[rows[n]];
      OneOrderEvolves(before, rows[n]);
      EvolvesTransitively(s, before, ProcessOne(before, rows[n]));
    }
  }

  lemma {:induction false} AppendGrows(s: State, k: SubId, dates: seq<Date>, id: ProductId, p: Product,
                                       provider: Option<Provider>)
    requires k < |s.subs|
    ensures Grows(s, AppendHorizon(s, k, dates, id, p, provider))
  {
    if dates != [] {
      AppendGrows(s, k, dates[..|dates| - 1], id, p, provider);
    }
  }

  lemma {:induction false} ExtendGrows(s: State, rows: seq<(SubId, Date)>, catalog: Catalog, provider: Option<Provider>)
    ensures Grows(s, ExtendRows(s, rows, catalog, provider))
  {
    if rows != [] {
      var n := |rows| - 1;
      var (k, last) := rows[n];
      var before := ExtendRows(s, rows[..n], catalog, provider);
      ExtendGrows(s, rows[..n], catalog, provider);
      var found := ExtensionProduct(before, k, catalog);
      if k < |before.subs| && found.Some? {
        AppendGrows(before, k, NextDatesAfter(last, before.subs[k].frequency), found.value.0, found.value.1, provider);
      }
    }
  }

  /** A charge adds to the books and, if it settles, adds rows and activates. */
  lemma ChargeShape(s: State, k: SubId, settles: Provider)
    requires k < |s.subs|
    ensures var (r, ok) := ChargeAndActivate(s, k, settles);
            && r.events == s.events && r.orders == s.orders && s.payments <= r.payments && s.ledger <= r.ledger
            && r.subs == if ok then s.subs[k := s.subs[k].(status := SubscriptionStatus.Active)] else s.subs
  {
  }

  lemma PayEvolves(s: State, k: SubId, settles: Provider)
    requires k < |s.subs| && s.subs[k].status.Pending?
    ensures Evolves(s, ChargeAndActivate(s, k, settles).0)
  {
    var (r, ok) := ChargeAndActivate(s, k, settles);
    ChargeShape(s, k, settles);
    SubsEvolveStatus(s.subs, k, SubscriptionStatus.Active);
    GrowthEvolves(s, r.(subs := s.subs));
  }

  lemma PauseEvolves(s: State, k: SubId, user: UserId)
    ensures Evolves(s, Pause(s, k, user).0)
  {
    GrowthEvolves(s, s);
    BulkEvolves(s.events, k, {EventStatus.Pending}, EventStatus.Paused);
    if Pause(s, k, user).1.Ok? {
      SubsEvolveStatus(s.subs, k, SubscriptionStatus.Paused);
    }
  }

  lemma ResumeEvolves(s: State, k: SubId, user: UserId)
    ensures Evolves(s, Resume(s, k, user).0)
  {
    GrowthEvolves(s, s);
    BulkEvolves(s.events, k, {EventStatus.Paused}, EventStatus.Pending);
    if Resume(s, k, user).1.Ok? {
      SubsEvolveStatus(s.subs, k, SubscriptionStatus.Active);
    }
  }

  lemma SyncEvolves(s: State)
    ensures Evolves(s, SyncCompleted(s))
  {
    GrowthEvolves(s, s);
  }

  lemma StepEvolves(s: State, op: Op)
    requires Inv(s) && Legal(s, op)
    ensures Evolves(s, Step(s, op))
  {
    match op
    case CreateOp(user, id, catalog, f, address, today, card, saved, provider) => CreateEvolves(s, op);
    case PayOp(k, user, card, saved, provider) => PayOpEvolves(s, op);
    case PauseOp(k, user) => PauseEvolves(s, k, user);
    case ResumeOp(k, user) => ResumeEvolves(s, k, user);
    case CancelOp(k, user, withProvider) => CancelEvolves(s, k, user, withProvider);
    case ProcessOp(today, due) =>
      DueRowsAreDue(s, today, due);
      ProcessEvolves(s, due);
    case SyncOp => SyncEvolves(s);
    case ExtendOp(today, rows, catalog, provider) =>
      ExtendGrows(s, rows, catalog, provider);
      GrowthEvolves(s, ExtendRows(s, rows, catalog, provider));
    case MoveOrderOp(o, target, now) => MoveOrderEvolves(s, o, target, now);
    case PlaceOrderOp(order) => GrowthEvolves(s, PlaceOrder(s, order));
  }

  /** A declined charge leaves only its entry in the books. */
  lemma RollbackGrows(s: State, m: State, k: SubId, settles: Provider)
    requires k < |m.subs| && m.ledger == s.ledger && !ChargeAndActivate(m, k, settles).1
    ensures Grows(s, RolledBack(s, ChargeAndActivate(m, k, settles).0))
  {
    ChargeShape(m, k, settles);
  }

  lemma PayOpEvolves(s: State, op: Op)
    requires op.PayOp?
    ensures Evolves(s, Step(s, op))
  {
    GrowthEvolves(s, s);
    if Owned(s, op.k, op.user).Ok? && s.subs[op.k].status.Pending? && op.provider.Some? && op.savedCard in op.saved {
      if ChargeAndActivate(s, op.k, op.provider.value).1 {
        PayEvolves(s, op.k, op.provider.value);
      } else {
        RollbackGrows(s, s, op.k, op.provider.value);
        GrowthEvolves(s, Step(s, op));
      }
    }
  }

  /** A creation that goes through has the new rows and, if paid for, the charge; everything else stays. */
  lemma PaidInsertGrows(s: State, op: Op)
    requires op.CreateOp? && op.id in op.catalog && op.provider.Some?
    ensures var m := InsertSubscription(s, op.user, op.id, op.catalog[op.id], op.cadence, op.address, op.today);
            Grows(s, m) && m.ledger == s.ledger && |s.subs| < |m.subs|
            && Grows(s, ChargeAndActivate(m, |s.subs|, op.provider.value).0)
  {
    var m := InsertSubscription(s, op.user, op.id, op.catalog[op.id], op.cadence, op.address, op.today);
    ChargeShape(m, |s.subs|, op.provider.value);
  }

  lemma CreateEvolves(s: State, op: Op)
    requires op.CreateOp?
    ensures Evolves(s, Step(s, op))
  {
    if op.id in op.catalog && op.catalog[op.id].active && op.card.Some? && op.provider.Some? {
      var m := InsertSubscription(s, op.user, op.id, op.catalog[op.id], op.cadence, op.address, op.today);
      PaidInsertGrows(s, op);
      if !ChargeAndActivate(m, |s.subs|, op.provider.value).1 {
        RollbackGrows(s, m, |s.subs|, op.provider.value);
      }
    }
    GrowthEvolves(s, Step(s, op));
  }

  lemma RefundEvolves(s: State, k: SubId)
    ensures PaymentsEvolve(s.payments, RefundUndelivered(s, k).payments)
    ensures LedgerEvolves(s.ledger, RefundUndelivered(s, k).ledger)
  {
  }

  lemma CancelEvolves(s: State, k: SubId, user: UserId, withProvider: bool)
    ensures Evolves(s, Cancel(s, k, user, withProvider).0)
  {
    GrowthEvolves(s, s);
    RefundEvolves(s, k);
    BulkEvolves(s.events, k, {EventStatus.Pending, EventStatus.Paused, EventStatus.Ready}, EventStatus.Cancelled);
    if Cancel(s, k, user, withProvider).1.Ok? {
      SubsEvolveStatus(s.subs, k, SubscriptionStatus.Cancelled);
    }
  }

  lemma MoveOrderEvolves(s: State, o: OrderId, target: OrderStatus, now: Time)
    ensures Evolves(s, MoveOrder(s, o, target, now))
  {
    GrowthEvolves(s, s);
    if o < |s.orders| && CanTransition(s.orders[o].status, target) {
      EdgeRaisesRank(s.orders[o].status, target);
    }
  }

  /**
    Over any run: an event's order is never replaced, a payment row changes only from completed
    to refunded, a charge is never altered except by a refund, and a cancellation is final.
   */
  lemma {:induction false} RunEvolves(s: State, ops: seq<Op>)
    requires Inv(s) && LegalRun(s, ops)
    ensures Evolves(s, Run(s, ops))
  {
    if ops != [] {
      var n := |ops| - 1;
      RunEvolves(s, ops[..n]);
      RunKeepsInv(s, ops[..n]);
      StepEvolves(Run(s, ops[..n]), ops[n]);
      EvolvesTransitively(s, Run(s, ops[..n]), Run(s, ops));
    }
  }

  /** So no transaction is ever refunded a second time, however the run goes on. */
  lemma RefundedOnce(s: State, ops: seq<Op>, t: TxnId)
    requires Inv(s) && LegalRun(s, ops) && t < |s.ledger| && s.ledger[t].refunds > 0
    ensures t < |Run(s, ops).ledger| && Run(s, ops).ledger[t] == s.ledger[t]
  {
    RunEvolves(s, ops);
    RunKeepsInv(s, ops);
    assert ChargeFits(s, t) && ChargeFits(Run(s, ops), t);
  }

  // ------------------------------------------------------------ nothing runs unpaid

  /** The provider has settled the subscription's first period. */
  ghost predicate Paid(s: State, k: SubId) {
    exists t :: 0 <= t < |s.ledger| && s.ledger[t].settled && s.ledger[t].purpose == Upfront(k)
  }

  predicate Running(s: State, k: SubId) {
    k < |s.subs| && s.subs[k].status in {SubscriptionStatus.Active, SubscriptionStatus.Paused}
  }

  lemma ChargedIsPaid(s: State, k: SubId, settles: Provider)
    requires k < |s.subs| && EventsOf(s.events, k) != [] && ChargeAndActivate(s, k, settles).1
    ensures Paid(ChargeAndActivate(s, k, settles).0, k)
  {
    var t := |s.ledger|;
    assert ChargeAndActivate(s, k, settles).0.ledger[t].purpose == Upfront(k);
  }

  lemma PaidStays(s: State, r: State, k: SubId)
    requires Paid(s, k) && Evolves(s, r)
    ensures Paid(r, k)
  {
    var t :| 0 <= t < |s.ledger| && s.ledger[t].settled && s.ledger[t].purpose == Upfront(k);
    assert r.ledger[t].purpose == Upfront(k);
  }

  lemma CreateStartsPaid(s: State, op: Op)
    requires Inv(s) && op.CreateOp? && Running(Step(s, op), |s.subs|)
    ensures Paid(Step(s, op), |s.subs|)
  {
    var k, p := |s.subs|, op.catalog[op.id];
    var inserted := InsertSubscription(s, op.user, op.id, p, op.cadence, op.address, op.today);
    InsertKeepsSchedules(s, op.user, op.id, p, op.cadence, op.address, op.today);
    DatesIncrease(inserted, k);
    ChargedIsPaid(inserted, k, op.provider.value);
  }

  lemma RollbackStartsNothing(s: State, k: SubId, settles: Provider)
    requires k < |s.subs| && !Running(s, k)
    ensures !Running(RolledBack(s, ChargeAndActivate(s, k, settles).0), k)
  {
  }

  /** A payment that sets a pending subscription running has gone through. */
  lemma PayStartsByCharging(s: State, op: Op)
    requires op.PayOp? && !Running(s, op.k) && Running(Step(s, op), op.k)
    ensures op.k < |s.subs| && op.provider.Some?
    ensures ChargeAndActivate(s, op.k, op.provider.value) == (Step(s, op), true)
  {
    if op.k < |s.subs| && op.provider.Some? {
      RollbackStartsNothing(s, op.k, op.provider.value);
    }
  }

  lemma PayStartsPaid(s: State, op: Op)
    requires Inv(s) && op.PayOp? && !Running(s, op.k) && Running(Step(s, op), op.k)
    ensures Paid(Step(s, op), op.k)
  {
    PayStartsByCharging(s, op);
    DatesIncrease(s, op.k);
    ChargedIsPaid(s, op.k, op.provider.value);
  }

  /** The scheduler and the order moves do not touch subscriptions. */
  lemma SchedulerKeepsSubscriptions(s: State, op: Op)
    requires Inv(s) && Legal(s, op)
    requires op.ProcessOp? || op.SyncOp? || op.ExtendOp? || op.MoveOrderOp? || op.PlaceOrderOp?
    ensures Step(s, op).subs == s.subs
  {
    if op.ProcessOp? {
      DueRowsAreDue(s, op.today, op.due);
      ProcessEvolves(s, op.due);
    }
  }

  /** A creation or a payment sets no other subscription running than its own. */
  lemma OnlyItsOwnStarts(s: State, op: Op, k: SubId)
    requires (op.CreateOp? || op.PayOp?) && !Running(s, k) && Running(Step(s, op), k)
    ensures k == if op.CreateOp? then |s.subs| else op.k
  {
  }

  /** A step that sets a subscription running has charged for it. */
  lemma StartsPaid(s: State, op: Op, k: SubId)
    requires Inv(s) && Legal(s, op) && !Running(s, k) && Running(Step(s, op), k)
    ensures Paid(Step(s, op), k)
  {
    if op.CreateOp? {
      OnlyItsOwnStarts(s, op, k);
      CreateStartsPaid(s, op);
    } else if op.PayOp? {
      OnlyItsOwnStarts(s, op, k);
      PayStartsPaid(s, op);
    } else if op.PauseOp? || op.ResumeOp? || op.CancelOp? {
      LifecycleStartsNothing(s, op, k);
    } else {
      SchedulerKeepsSubscriptions(s, op);
    }
  }

  lemma LifecycleStartsNothing(s: State, op: Op, k: SubId)
    requires op.PauseOp? || op.ResumeOp? || op.CancelOp?
    ensures Running(Step(s, op), k) ==> Running(s, k)
  {
  }

  /** In every reachable state an active or paused subscription has had its upfront charge settled. */
  lemma {:induction false} RunningIsPaid(ops: seq<Op>, k: SubId)
    requires LegalRun(EMPTY_STATE, ops) && Running(Run(EMPTY_STATE, ops), k)
    ensures Paid(Run(EMPTY_STATE, ops), k)
  {
    if ops != [] {
      var n := |ops| - 1;
      var before := Run(EMPTY_STATE, ops[..n]);
      EmptyStateInv();
      RunKeepsInv(EMPTY_STATE, ops[..n]);
      if Running(before, k) {
        RunningIsPaid(ops[..n], k);
        StepEvolves(before, ops[n]);
        PaidStays(before, Step(before, ops[n]), k);
      } else {
        StartsPaid(before, ops[n], k);
      }
    }
  }
}
