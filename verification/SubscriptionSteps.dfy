/** What each subscription operation does to the tables and to the provider's books. */
module SubscriptionSteps {
  import opened Wrappers
  import opened Calendar
  import opened Frequency
  import opened Horizons
  import opened OrderStatuses
  import opened Shop
  import opened SubscriptionTables

  datatype Error =
    | ProductNotFound
    | ProductInactive
    | SubscriptionNotFound
    | AccessDenied
    | InvalidState(status: SubscriptionStatus)
    | PaymentMethodNotFound
    | ProviderMissing
    | ChargeFailed

  // --------------------------------------------------------------------- billing

  /** The completed payment row an upfront charge leaves for one event. */
  function UpfrontRow(s: State, user: UserId, txn: TxnId, e: EventId): Payment
    requires e < |s.events|
  {
    Payment(e, user, s.events[e].price, Some(txn), PaymentStatus.Completed)
  }

  /** One charge for the whole period; a row per event if it settles. */
  function ChargeUpfront(s: State, k: SubId, settles: Provider): (State, bool)
    requires k < |s.subs|
  {
    var ids := EventsOf(s.events, k);
    if ids == [] then (s, true)
    else
      var txn := |s.ledger|;
      var charge := Charge(Upfront(k), SumPrices(s.events, ids), settles(txn), 0);
      var charged := s.(ledger := s.ledger + [charge]);
      if !settles(txn) then (charged, false)
      else
        var rows := seq(|ids|, i requires 0 <= i < |ids| => UpfrontRow(s, s.subs[k].user, txn, ids[i]));
        (charged.(payments := s.payments + rows), true)
  }

  /** A charge for one appended event, recorded whether or not it settles. */
  function ChargeOffSession(s: State, e: EventId, user: UserId, settles: Provider): State
    requires e < |s.events|
  {
    var txn := |s.ledger|;
    var price := s.events[e].price;
    var status := if settles(txn) then PaymentStatus.Completed else PaymentStatus.Failed;
    s.(ledger := s.ledger + [Charge(OffSession(e), price, settles(txn), 0)],
       payments := s.payments + [Payment(e, user, price, Some(txn), status)])
  }

  predicate Undelivered(status: EventStatus) {
    status in {EventStatus.Pending, EventStatus.Paused, EventStatus.Ready}
  }

  /** The rows a cancellation of `k` refunds. */
  predicate Refundable(s: State, k: SubId, p: Payment) {
    && p.event < |s.events|
    && s.events[p.event].sub == k
    && Undelivered(s.events[p.event].status)
    && p.status == PaymentStatus.Completed
    && p.txn.Some?
  }

  /** The distinct transactions behind those rows: each is refunded once at the provider. */
  function RefundedTxns(s: State, k: SubId): set<TxnId> {
    set p | p in s.payments && Refundable(s, k, p) :: p.txn.value
  }

  function RefundUndelivered(s: State, k: SubId): State {
    var txns := RefundedTxns(s, k);
    s.(payments := seq(|s.payments|, j requires 0 <= j < |s.payments| =>
                       if Refundable(s, k, s.payments[j]) then s.payments[j].(status := PaymentStatus.Refunded)
                       else s.payments[j]),
       ledger := seq(|s.ledger|, t requires 0 <= t < |s.ledger| =>
                     if t in txns then s.ledger[t].(refunds := s.ledger[t].refunds + 1) else s.ledger[t]))
  }

  // ------------------------------------------------------------------- lifecycle

  function BulkStatus(events: seq<Event>, k: SubId, from: set<EventStatus>, to: EventStatus): (r: seq<Event>)
    ensures |r| == |events|
  {
    seq(|events|, e requires 0 <= e < |events| =>
        if events[e].sub == k && events[e].status in from then events[e].(status := to) else events[e])
  }

  function SetStatus(s: State, k: SubId, status: SubscriptionStatus): State
    requires k < |s.subs|
  {
    s.(subs := s.subs[k := s.subs[k].(status := status)])
  }

  function NewEvent(k: SubId, date: Date, id: ProductId, p: Product): Event {
    Event(k, date, p.price, EventStatus.Pending, None, Some(Snapshot(id, p.name, p.price)))
  }

  /** The rows a new subscription inserts: itself and its first horizon. */
  function InsertSubscription(s: State, user: UserId, id: ProductId, p: Product, f: Cadence,
                              address: Address, today: Date): State
  {
    var k := |s.subs|;
    var dates := EventDates(today, f);
    s.(subs := s.subs + [Subscription(user, today, f, SubscriptionStatus.Pending, Some(address))],
       events := s.events + seq(|dates|, i requires 0 <= i < |dates| => NewEvent(k, dates[i], id, p)))
  }

  /** What is left after a raise: the database as before, the provider's books as they are now. */
  function RolledBack(before: State, after: State): State {
    before.(ledger := after.ledger)
  }

  function ChargeAndActivate(s: State, k: SubId, settles: Provider): (State, bool)
    requires k < |s.subs|
  {
    var (charged, ok) := ChargeUpfront(s, k, settles);
    if ok then (SetStatus(charged, k, SubscriptionStatus.Active), true) else (charged, false)
  }

  /** `saved` is the caller's saved payment methods. */
  function Create(s: State, user: UserId, id: ProductId, catalog: Catalog, f: Cadence, address: Address,
                  today: Date, card: Option<MethodId>, saved: set<MethodId>, provider: Option<Provider>)
    : (State, Result<SubId, Error>)
  {
    if id !in catalog then (s, Err(ProductNotFound))
    else if !catalog[id].active then (s, Err(ProductInactive))
    else
      var k := |s.subs|;
      var inserted := InsertSubscription(s, user, id, catalog[id], f, address, today);
      if card.None? then (inserted, Ok(k))
      else if provider.None? then (s, Err(ProviderMissing))
      else if card.value !in saved then (s, Err(PaymentMethodNotFound))
      else
        var (charged, ok) := ChargeAndActivate(inserted, k, provider.value);
        if ok then (charged, Ok(k)) else (RolledBack(s, charged), Err(ChargeFailed))
  }

  function Owned(s: State, k: SubId, user: UserId): Result<Subscription, Error> {
    if k >= |s.subs| then Err(SubscriptionNotFound)
    else if s.subs[k].user != user then Err(AccessDenied)
    else Ok(s.subs[k])
  }

  function Pay(s: State, k: SubId, user: UserId, card: MethodId, saved: set<MethodId>, provider: Option<Provider>)
    : (State, Result<SubId, Error>)
  {
    if provider.None? then (s, Err(ProviderMissing))
    else
      var owned := Owned(s, k, user);
      if owned.Err? then (s, Err(owned.error))
      else if owned.value.status != SubscriptionStatus.Pending then (s, Err(InvalidState(owned.value.status)))
      else if card !in saved then (s, Err(PaymentMethodNotFound))
      else
        var (charged, ok) := ChargeAndActivate(s, k, provider.value);
        if ok then (charged, Ok(k)) else (RolledBack(s, charged), Err(ChargeFailed))
  }

  function Pause(s: State, k: SubId, user: UserId): (State, Result<SubId, Error>) {
    var owned := Owned(s, k, user);
    if owned.Err? then (s, Err(owned.error))
    else if owned.value.status != SubscriptionStatus.Active then (s, Err(InvalidState(owned.value.status)))
    else
      (SetStatus(s, k, SubscriptionStatus.Paused)
       .(events := BulkStatus(s.events, k, {EventStatus.Pending}, EventStatus.Paused)), Ok(k))
  }

  function Resume(s: State, k: SubId, user: UserId): (State, Result<SubId, Error>) {
    var owned := Owned(s, k, user);
    if owned.Err? then (s, Err(owned.error))
    else if owned.value.status != SubscriptionStatus.Paused then (s, Err(InvalidState(owned.value.status)))
    else
      (SetStatus(s, k, SubscriptionStatus.Active)
       .(events := BulkStatus(s.events, k, {EventStatus.Paused}, EventStatus.Pending)), Ok(k))
  }

  /** Refunds come first, while the events still carry the statuses that select them. */
  function Cancel(s: State, k: SubId, user: UserId, withProvider: bool): (State, Result<SubId, Error>) {
    var owned := Owned(s, k, user);
    if owned.Err? then (s, Err(owned.error))
    else if owned.value.status in {SubscriptionStatus.Cancelled, SubscriptionStatus.Completed} then
      (s, Err(InvalidState(owned.value.status)))
    else
      var refunded := if withProvider then RefundUndelivered(s, k) else s;
      (SetStatus(refunded, k, SubscriptionStatus.Cancelled)
       .(events := BulkStatus(s.events, k, {EventStatus.Pending, EventStatus.Paused, EventStatus.Ready},
                              EventStatus.Cancelled)), Ok(k))
  }

  // ------------------------------------------------------------------- scheduler

  ghost predicate Due(s: State, e: EventId, today: Date) {
    && e < |s.events|
    && s.events[e].status == EventStatus.Pending
    && s.events[e].order.None?
    && OnOrBefore(s.events[e].date, today)
    && s.events[e].sub < |s.subs|
    && s.subs[s.events[e].sub].status == SubscriptionStatus.Active
  }

  /** A legal answer to the due-events query: every due event once, in date order. */
  ghost predicate IsDueQuery(s: State, today: Date, rows: seq<EventId>) {
    && (forall e :: e in rows <==> Due(s, e, today))
    && (forall i, j :: 0 <= i < j < |rows| ==> rows[i] != rows[j])
    && (forall i, j :: 0 <= i < j < |rows| ==> rows[i] < |s.events| && rows[j] < |s.events|
                                               && OnOrBefore(s.events[rows[i]].date, s.events[rows[j]].date))
  }

  predicate CanMaterialize(s: State, e: EventId) {
    && e < |s.events|
    && s.events[e].sub < |s.subs|
    && s.subs[s.events[e].sub].delivery.Some?
    && s.events[e].product.Some?
  }

  function BuildOrder(sub: Subscription, ev: Event): Order
    requires sub.delivery.Some? && ev.product.Some?
  {
    var p := ev.product.value;
    ScheduledOrder(sub.user, ev.price, p.product, p.name, p.price, sub.delivery.value)
  }

  function ProcessOne(s: State, e: EventId): State {
    if !CanMaterialize(s, e) then s
    else
      var ev := s.events[e];
      s.(orders := s.orders + [BuildOrder(s.subs[ev.sub], ev)],
         events := s.events[e := ev.(order := Some(|s.orders|), status := EventStatus.Ready)])
  }

  function ProcessRows(s: State, rows: seq<EventId>): State {
    if rows == [] then s else ProcessOne(ProcessRows(s, rows[..|rows| - 1]), rows[|rows| - 1])
  }

  predicate SyncDue(s: State, ev: Event) {
    && ev.order.Some?
    && ev.order.value < |s.orders|
    && ev.status != EventStatus.Completed
    && s.orders[ev.order.value].status == OrderStatus.Completed
  }

  function SyncCompleted(s: State): State {
    s.(events := seq(|s.events|, e requires 0 <= e < |s.events| =>
                     if SyncDue(s, s.events[e]) then s.events[e].(status := EventStatus.Completed) else s.events[e]))
  }

  ghost predicate NeedsHorizon(s: State, k: SubId, last: Date, today: Date) {
    && k < |s.subs|
    && s.subs[k].status == SubscriptionStatus.Active
    && MaxDate(s.events, k) == Some(last)
    && Near(last, today)
  }

  /** A legal answer to the extension query: every such subscription once, in any order. */
  ghost predicate IsExtensionQuery(s: State, today: Date, rows: seq<(SubId, Date)>) {
    && (forall k: SubId, last: Date :: (k, last) in rows <==> NeedsHorizon(s, k, last, today))
    && (forall i, j :: 0 <= i < j < |rows| ==> rows[i] != rows[j])
  }

  /** The product an extension of `k` would schedule, if it is still sold. */
  function ExtensionProduct(s: State, k: SubId, catalog: Catalog): Option<(ProductId, Product)> {
    var ids := EventsOf(s.events, k);
    if ids == [] then None
    else
      var snapshot := s.events[Last(ids)].product;
      if snapshot.None? || snapshot.value.product !in catalog || !catalog[snapshot.value.product].active then None
      else Some((snapshot.value.product, catalog[snapshot.value.product]))
  }

  function AppendEvent(s: State, k: SubId, date: Date, id: ProductId, p: Product, provider: Option<Provider>): State
    requires k < |s.subs|
  {
    var added := s.(events := s.events + [NewEvent(k, date, id, p)]);
    if provider.None? then added else ChargeOffSession(added, |s.events|, s.subs[k].user, provider.value)
  }

  function AppendHorizon(s: State, k: SubId, dates: seq<Date>, id: ProductId, p: Product, provider: Option<Provider>)
    : (r: State)
    requires k < |s.subs|
    ensures r.subs == s.subs
  {
    if dates == [] then s
    else AppendEvent(AppendHorizon(s, k, dates[..|dates| - 1], id, p, provider), k, Last(dates), id, p, provider)
  }

  function ExtendOne(s: State, k: SubId, last: Date, catalog: Catalog, provider: Option<Provider>): (r: State)
    ensures r.subs == s.subs
  {
    var found := ExtensionProduct(s, k, catalog);
    if k >= |s.subs| || found.None? then s
    else AppendHorizon(s, k, NextDatesAfter(last, s.subs[k].frequency), found.value.0, found.value.1, provider)
  }

  function ExtendRows(s: State, rows: seq<(SubId, Date)>, catalog: Catalog, provider: Option<Provider>): (r: State)
    ensures r.subs == s.subs
  {
    if rows == [] then s
    else
      var (k, last) := rows[|rows| - 1];
      ExtendOne(ExtendRows(s, rows[..|rows| - 1], catalog, provider), k, last, catalog, provider)
  }

  // ----------------------------------------------------------------- order moves

  /**
    Any writer outside this engine moves an order along an edge of the status graph only, and
    stamps the milestone its target stands for.
   */
  function MoveOrder(s: State, o: OrderId, target: OrderStatus, now: Time): State {
    if o < |s.orders| && CanTransition(s.orders[o].status, target) then
      var order := s.orders[o];
      s.(orders := s.orders[o := order.(status := target, fulfilment := Stamp(order.fulfilment, target, now))])
    else s
  }

  /** An order placed directly by a customer. */
  function PlaceOrder(s: State, order: Order): State {
    s.(orders := s.orders + [order.(status := OrderStatus.Created)])
  }
}
