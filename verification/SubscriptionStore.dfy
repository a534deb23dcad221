/**
  The subscription services as they run: methods that update the tables in place, row by row,
  each proved to do what the corresponding step says.
 */
module SubscriptionStore {
  import opened Wrappers
  import opened Calendar
  import opened Frequency
  import opened OrderStatuses
  import opened Shop
  import opened SubscriptionTables
  import opened SubscriptionSteps
  import opened SchedulerRuns

  /** The selected rows that carry a transaction id. */
  function RowsWithTxn(payments: seq<Payment>, rows: seq<nat>): nat
    requires forall i :: 0 <= i < |rows| ==> rows[i] < |payments|
  {
    if rows == [] then 0
    else RowsWithTxn(payments, rows[..|rows| - 1]) + if payments[rows[|rows| - 1]].txn.Some? then 1 else 0
  }

  /** How many of the first `n` payment rows a cancellation of `k` refunds. */
  function RefundableCount(s: State, k: SubId, n: nat): nat
    requires n <= |s.payments|
  {
    if n == 0 then 0 else RefundableCount(s, k, n - 1) + if Refundable(s, k, s.payments[n - 1]) then 1 else 0
  }

  /** The events among the first `n` whose order has been completed and that do not say so yet. */
  function SyncCount(s: State, n: nat): nat
    requires n <= |s.events|
  {
    if n == 0 then 0 else SyncCount(s, n - 1) + if SyncDue(s, s.events[n - 1]) then 1 else 0
  }

  /** The rows of the extension query whose product is still sold when their turn comes. */
  function ExtendCount(s: State, rows: seq<(SubId, Date)>, catalog: Catalog, provider: Option<Provider>): nat {
    if rows == [] then 0
    else
      var before := rows[..|rows| - 1];
      ExtendCount(s, before, catalog, provider)
      + if ExtensionProduct(ExtendRows(s, before, catalog, provider), rows[|rows| - 1].0, catalog).Some? then 1 else 0
  }

  /** The distinct transactions behind a selection of rows. */
  function TxnsOf(payments: seq<Payment>, rows: seq<nat>): set<TxnId>
    requires forall i :: 0 <= i < |rows| ==> rows[i] < |payments|
  {
    if rows == [] then {}
    else
      var txn := payments[rows[|rows| - 1]].txn;
      TxnsOf(payments, rows[..|rows| - 1]) + if txn.Some? then {txn.value} else {}
  }

  lemma {:induction false} TxnsOfRows(payments: seq<Payment>, rows: seq<nat>, t: TxnId)
    requires forall i :: 0 <= i < |rows| ==> rows[i] < |payments|
    ensures t in TxnsOf(payments, rows) <==> exists i :: 0 <= i < |rows| && payments[rows[i]].txn == Some(t)
  {
    if rows != [] {
      var n := |rows| - 1;
      TxnsOfRows(payments, rows[..n], t);
      if i :| 0 <= i < |rows| && payments[rows[i]].txn == Some(t) {
        assert i < n ==> payments[rows[..n][i]].txn == Some(t);
      }
    }
  }

  function RefundRow(p: Payment): Payment {
    if p.txn.Some? then p.(status := PaymentStatus.Refunded) else p
  }

  function RefundCharge(c: Charge): Charge {
    c.(refunds := c.refunds + 1)
  }

  /** A row the cancellation's query selects. */
  predicate IsSelected(s: State, k: SubId, p: Payment) {
    && p.event < |s.events| && s.events[p.event].sub == k && Undelivered(s.events[p.event].status)
    && p.status == PaymentStatus.Completed
  }

  /** The positions it selects among the first `n` rows. */
  function SelectedRows(s: State, k: SubId, n: nat): (rows: seq<nat>)
    requires n <= |s.payments|
    ensures forall i :: 0 <= i < |rows| ==> rows[i] < n
  {
    if n == 0 then []
    else SelectedRows(s, k, n - 1) + if IsSelected(s, k, s.payments[n - 1]) then [n - 1] else []
  }

  /** The answer to the cancellation's query. */
  ghost predicate IsRefundQuery(s: State, k: SubId, rows: seq<nat>) {
    && (forall i :: 0 <= i < |rows| ==> rows[i] < |s.payments|)
    && (forall j :: j in rows <==> 0 <= j < |s.payments| && IsSelected(s, k, s.payments[j]))
    && (forall i, j :: 0 <= i < j < |rows| ==> rows[i] != rows[j])
  }

  lemma {:induction false} SelectedAmong(s: State, k: SubId, n: nat)
    requires n <= |s.payments|
    ensures forall j :: j in SelectedRows(s, k, n) <==> 0 <= j < n && IsSelected(s, k, s.payments[j])
    ensures forall i, j :: 0 <= i < j < |SelectedRows(s, k, n)| ==> SelectedRows(s, k, n)[i] != SelectedRows(s, k, n)[j]
  {
    if n > 0 {
      SelectedAmong(s, k, n - 1);
    }
  }

  lemma {:induction false} SelectedCount(s: State, k: SubId, n: nat)
    requires n <= |s.payments|
    ensures RowsWithTxn(s.payments, SelectedRows(s, k, n)) == RefundableCount(s, k, n)
  {
    if n > 0 {
      SelectedCount(s, k, n - 1);
      var before, rows := SelectedRows(s, k, n - 1), SelectedRows(s, k, n);
      if IsSelected(s, k, s.payments[n - 1]) {
        assert rows == before + [n - 1] && rows[..|rows| - 1] == before && rows[|rows| - 1] == n - 1;
      } else {
        assert rows == before;
      }
    }
  }

  lemma SelectedTxns(s: State, k: SubId, rows: seq<nat>)
    requires IsRefundQuery(s, k, rows)
    ensures TxnsOf(s.payments, rows) == RefundedTxns(s, k)
  {
    forall t: TxnId
      ensures t in TxnsOf(s.payments, rows) <==> t in RefundedTxns(s, k)
    {
      TxnsOfRows(s.payments, rows, t);
      if i :| 0 <= i < |rows| && s.payments[rows[i]].txn == Some(t) {
        assert rows[i] in rows;
        assert s.payments[rows[i]] in s.payments && Refundable(s, k, s.payments[rows[i]]);
      }
      if t in RefundedTxns(s, k) {
        var p :| p in s.payments && Refundable(s, k, p) && p.txn.value == t;
        var j :| 0 <= j < |s.payments| && s.payments[j] == p;
        assert j in rows;
      }
    }
  }

  /** Refunding the selected rows one by one is refunding what a cancellation refunds. */
  lemma RefundableAt(s: State, k: SubId, rows: seq<nat>, j: nat)
    requires IsRefundQuery(s, k, rows) && j < |s.payments|
    ensures (if j in rows then RefundRow(s.payments[j]) else s.payments[j]) == RefundUndelivered(s, k).payments[j]
  {
    assert j in rows <==> IsSelected(s, k, s.payments[j]);
  }

  /** Refunding the selected rows one by one is refunding what a cancellation refunds. */
  lemma RefundMatches(s: State, r: State, rows: seq<nat>, k: SubId)
    requires IsRefundQuery(s, k, rows)
    requires r == s.(payments := r.payments, ledger := r.ledger)
    requires |r.payments| == |s.payments| && |r.ledger| == |s.ledger|
    requires forall j :: 0 <= j < |s.payments| ==>
               r.payments[j] == if j in rows then RefundRow(s.payments[j]) else s.payments[j]
    requires forall t :: 0 <= t < |s.ledger| ==>
               r.ledger[t] == if t in TxnsOf(s.payments, rows) then RefundCharge(s.ledger[t]) else s.ledger[t]
    ensures r == RefundUndelivered(s, k)
  {
    SelectedTxns(s, k, rows);
    assert r.ledger == RefundUndelivered(s, k).ledger;
    forall j | 0 <= j < |s.payments|
      ensures r.payments[j] == RefundUndelivered(s, k).payments[j]
    {
      RefundableAt(s, k, rows, j);
    }
    assert r.payments == RefundUndelivered(s, k).payments;
  }

  class Store {
    var subs: seq<Subscription>
    var events: seq<Event>
    var orders: seq<Order>
    var payments: seq<Payment>
    /** The provider's own books; a rollback of ours leaves them alone. */
    var ledger: seq<Charge>

    ghost function Snapshot(): State
      reads this
    {
      State(subs, events, orders, payments, ledger)
    }

    constructor ()
      ensures Snapshot() == EMPTY_STATE
    {
      subs, events, orders, payments, ledger := [], [], [], [], [];
    }

    // ------------------------------------------------------------------- provider

    method CreateCharge(purpose: Purpose, amount: int, settles: Provider) returns (txn: TxnId, settled: bool)
      modifies this`ledger
      ensures txn == |old(ledger)| && settled == settles(txn)
      ensures ledger == old(ledger) + [Charge(purpose, amount, settled, 0)]
    {
      txn := |ledger|;
      settled := settles(txn);
      ledger := ledger + [Charge(purpose, amount, settled, 0)];
    }

    method Refund(txn: TxnId)
      modifies this`ledger
      ensures |ledger| == |old(ledger)|
      ensures forall t :: 0 <= t < |ledger| ==>
                ledger[t] == if t == txn then RefundCharge(old(ledger)[t]) else old(ledger)[t]
    {
      if txn < |ledger| {
        ledger := ledger[txn := ledger[txn].(refunds := ledger[txn].refunds + 1)];
      }
    }

    // -------------------------------------------------------------------- billing

    method TotalPrice(ids: seq<EventId>) returns (total: int)
      requires forall i :: 0 <= i < |ids| ==> ids[i] < |events|
      ensures total == SumPrices(events, ids)
    {
      total := 0;
      for i := 0 to |ids|
        invariant total == SumPrices(events, ids[..i])
      {
        assert ids[..i + 1][..i] == ids[..i];
        total := total + events[ids[i]].price;
      }
      assert ids[..|ids|] == ids;
    }

    method ChargeSubscriptionUpfront(k: SubId, settles: Provider) returns (ok: bool)
      requires k < |subs|
      modifies this`ledger, this`payments
      ensures (Snapshot(), ok) == ChargeUpfront(old(Snapshot()), k, settles)
    {
      var ids := EventsOf(events, k);
      if ids == [] {
        return true;
      }
      var total := TotalPrice(ids);
      var txn, settled := CreateCharge(Upfront(k), total, settles);
      if !settled {
        return false;
      }
      var user := subs[k].user;
      ghost var s := old(Snapshot());
      ghost var rows := seq(|ids|, i requires 0 <= i < |ids| => UpfrontRow(s, user, txn, ids[i]));
      for i := 0 to |ids|
        invariant ledger == s.ledger + [Charge(Upfront(k), total, true, 0)]
        invariant payments == s.payments + rows[..i]
      {
        assert rows[..i + 1] == rows[..i] + [rows[i]];
        payments := payments + [Payment(ids[i], user, events[ids[i]].price, Some(txn), PaymentStatus.Completed)];
      }
      assert rows[..|ids|] == rows;
      assert payments == ChargeUpfront(s, k, settles).0.payments;
      ok := true;
    }

    method ChargeEventOffSession(e: EventId, user: UserId, settles: Provider)
      requires e < |events|
      modifies this`ledger, this`payments
      ensures Snapshot() == ChargeOffSession(old(Snapshot()), e, user, settles)
    {
      var price := events[e].price;
      var txn, settled := CreateCharge(OffSession(e), price, settles);
      var status := if settled then PaymentStatus.Completed else PaymentStatus.Failed;
      payments := payments + [Payment(e, user, price, Some(txn), status)];
    }

    /** The completed rows of `k`'s undelivered events, as the query returns them. */
    method SelectRefundable(k: SubId) returns (rows: seq<nat>)
      ensures rows == SelectedRows(Snapshot(), k, |payments|)
    {
      rows := [];
      for j := 0 to |payments|
        invariant rows == SelectedRows(Snapshot(), k, j)
      {
        var p := payments[j];
        if p.event < |events| && events[p.event].sub == k && Undelivered(events[p.event].status)
           && p.status == PaymentStatus.Completed
        {
          rows := rows + [j];
        }
      }
    }

    /** One provider refund per distinct transaction, one status change per row. */
    method RefundPayments(rows: seq<nat>) returns (count: nat)
      requires forall i :: 0 <= i < |rows| ==> rows[i] < |payments|
      requires forall i, j :: 0 <= i < j < |rows| ==> rows[i] != rows[j]
      modifies this`ledger, this`payments
      ensures |payments| == |old(payments)| && |ledger| == |old(ledger)|
      ensures forall j :: 0 <= j < |payments| ==>
                payments[j] == if j in rows then RefundRow(old(payments)[j]) else old(payments)[j]
      ensures forall t :: 0 <= t < |ledger| ==>
                ledger[t] == if t in TxnsOf(old(payments), rows) then RefundCharge(old(ledger)[t]) else old(ledger)[t]
      ensures count == RowsWithTxn(old(payments), rows)
    {
      var refundedTxns: set<TxnId> := {};
      count := 0;
      for i := 0 to |rows|
        invariant count == RowsWithTxn(old(payments), rows[..i])
        invariant |payments| == |old(payments)| && |ledger| == |old(ledger)|
        invariant forall j :: 0 <= j < |payments| ==>
                    payments[j] == if j in rows[..i] then RefundRow(old(payments)[j]) else old(payments)[j]
        invariant refundedTxns == TxnsOf(old(payments), rows[..i])
        invariant forall t :: 0 <= t < |ledger| ==>
                    ledger[t] == if t in refundedTxns then RefundCharge(old(ledger)[t]) else old(ledger)[t]
      {
        var row := rows[i];
        assert rows[..i + 1] == rows[..i] + [row] && rows[..i + 1][..i] == rows[..i];
        assert row !in rows[..i];
        var txn := payments[row].txn;
        if txn.Some? {
          if txn.value !in refundedTxns {
            Refund(txn.value);
            refundedTxns := refundedTxns + {txn.value};
          }
          payments := payments[row := payments[row].(status := PaymentStatus.Refunded)];
          count := count + 1;
        }
      }
      assert rows[..|rows|] == rows;
    }

    method RefundUndeliveredPayments(k: SubId) returns (count: nat)
      modifies this`ledger, this`payments
      ensures Snapshot() == RefundUndelivered(old(Snapshot()), k)
      ensures count == RefundableCount(old(Snapshot()), k, |old(payments)|)
    {
      var rows := SelectRefundable(k);
      SelectedAmong(Snapshot(), k, |payments|);
      SelectedCount(Snapshot(), k, |payments|);
      count := RefundPayments(rows);
      RefundMatches(old(Snapshot()), Snapshot(), rows, k);
    }

    // ------------------------------------------------------------------ lifecycle

    method BulkEventStatus(k: SubId, from: set<EventStatus>, to: EventStatus)
      modifies this`events
      ensures events == BulkStatus(old(events), k, from, to)
    {
      for e := 0 to |events|
        invariant |events| == |old(events)|
        invariant forall d :: 0 <= d < |events| ==>
                    events[d] == if d < e then BulkStatus(old(events), k, from, to)[d] else old(events)[d]
      {
        if events[e].sub == k && events[e].status in from {
          events := events[e := events[e].(status := to)];
        }
      }
    }

    method ChargeAndActivateSub(k: SubId, settles: Provider) returns (ok: bool)
      requires k < |subs|
      modifies this`ledger, this`payments, this`subs
      ensures (Snapshot(), ok) == ChargeAndActivate(old(Snapshot()), k, settles)
    {
      ok := ChargeSubscriptionUpfront(k, settles);
      if ok {
        subs := subs[k := subs[k].(status := SubscriptionStatus.Active)];
      }
    }

    method CreateSubscription(user: UserId, id: ProductId, catalog: Catalog, f: Cadence, address: Address, today: Date,
                              card: Option<MethodId>, saved: set<MethodId>, provider: Option<Provider>)
      returns (result: Result<SubId, Error>)
      modifies this
      ensures (Snapshot(), result) == Create(old(Snapshot()), user, id, catalog, f, address, today, card, saved, provider)
    {
      if id !in catalog {
        return Err(ProductNotFound);
      }
      var product := catalog[id];
      if !product.active {
        return Err(ProductInactive);
      }
      var subsBefore, eventsBefore, paymentsBefore := subs, events, payments;
      var k := |subs|;
      subs := subs + [Subscription(user, today, f, SubscriptionStatus.Pending, Some(address))];
      var dates := EventDates(today, f);
      for i := 0 to |dates|
        invariant subs == old(subs) + [Subscription(user, today, f, SubscriptionStatus.Pending, Some(address))]
        invariant events == old(events) + seq(i, j requires 0 <= j < i => NewEvent(k, dates[j], id, product))
        invariant orders == old(orders) && payments == old(payments) && ledger == old(ledger)
      {
        events := events + [NewEvent(k, dates[i], id, product)];
      }
      assert Snapshot() == InsertSubscription(old(Snapshot()), user, id, product, f, address, today);
      if card.Some? {
        if provider.None? {
          subs, events := subsBefore, eventsBefore;
          return Err(ProviderMissing);
        }
        if card.value !in saved {
          subs, events := subsBefore, eventsBefore;
          return Err(PaymentMethodNotFound);
        }
        var ok := ChargeAndActivateSub(k, provider.value);
        if !ok {
          subs, events, payments := subsBefore, eventsBefore, paymentsBefore;
          return Err(ChargeFailed);
        }
      }
      result := Ok(k);
    }

    method PaySubscription(k: SubId, user: UserId, card: MethodId, saved: set<MethodId>, provider: Option<Provider>)
      returns (result: Result<SubId, Error>)
      modifies this
      ensures (Snapshot(), result) == Pay(old(Snapshot()), k, user, card, saved, provider)
    {
      if provider.None? {
        return Err(ProviderMissing);
      }
      if k >= |subs| {
        return Err(SubscriptionNotFound);
      }
      if subs[k].user != user {
        return Err(AccessDenied);
      }
      if subs[k].status != SubscriptionStatus.Pending {
        return Err(InvalidState(subs[k].status));
      }
      if card !in saved {
        return Err(PaymentMethodNotFound);
      }
      var ok := ChargeAndActivateSub(k, provider.value);
      result := if ok then Ok(k) else Err(ChargeFailed);
    }

    method PauseSubscription(k: SubId, user: UserId) returns (result: Result<SubId, Error>)
      modifies this`subs, this`events
      ensures (Snapshot(), result) == Pause(old(Snapshot()), k, user)
    {
      if k >= |subs| {
        return Err(SubscriptionNotFound);
      }
      if subs[k].user != user {
        return Err(AccessDenied);
      }
      if subs[k].status != SubscriptionStatus.Active {
        return Err(InvalidState(subs[k].status));
      }
      subs := subs[k := subs[k].(status := SubscriptionStatus.Paused)];
      BulkEventStatus(k, {EventStatus.Pending}, EventStatus.Paused);
      result := Ok(k);
    }

    method ResumeSubscription(k: SubId, user: UserId) returns (result: Result<SubId, Error>)
      modifies this`subs, this`events
      ensures (Snapshot(), result) == Resume(old(Snapshot()), k, user)
    {
      if k >= |subs| {
        return Err(SubscriptionNotFound);
      }
      if subs[k].user != user {
        return Err(AccessDenied);
      }
      if subs[k].status != SubscriptionStatus.Paused {
        return Err(InvalidState(subs[k].status));
      }
      subs := subs[k := subs[k].(status := SubscriptionStatus.Active)];
      BulkEventStatus(k, {EventStatus.Paused}, EventStatus.Pending);
      result := Ok(k);
    }

    method CancelSubscription(k: SubId, user: UserId, withProvider: bool) returns (result: Result<SubId, Error>)
      modifies this
      ensures (Snapshot(), result) == Cancel(old(Snapshot()), k, user, withProvider)
    {
      if k >= |subs| {
        return Err(SubscriptionNotFound);
      }
      if subs[k].user != user {
        return Err(AccessDenied);
      }
      if subs[k].status in {SubscriptionStatus.Cancelled, SubscriptionStatus.Completed} {
        return Err(InvalidState(subs[k].status));
      }
      if withProvider {
        var count := RefundUndeliveredPayments(k);
      }
      subs := subs[k := subs[k].(status := SubscriptionStatus.Cancelled)];
      BulkEventStatus(k, {EventStatus.Pending, EventStatus.Paused, EventStatus.Ready}, EventStatus.Cancelled);
      result := Ok(k);
    }

    // ------------------------------------------------------------------ scheduler

    /** `due` is the answer of the due-events query. */
    method ProcessDueEvents(today: Date, due: seq<EventId>) returns (count: nat)
      requires IsDueQuery(Snapshot(), today, due)
      modifies this`events, this`orders
      ensures Snapshot() == ProcessRows(old(Snapshot()), due)
      ensures |orders| == |old(orders)| + count
    {
      count := 0;
      for i := 0 to |due|
        invariant Snapshot() == ProcessRows(old(Snapshot()), due[..i])
        invariant |orders| == |old(orders)| + count
        invariant |events| == |old(events)| && subs == old(subs)
      {
        assert due[..i + 1][..i] == due[..i];
        var e := due[i];
        assert e in due;
        assert Due(old(Snapshot()), e, today);
        var ev := events[e];
        if ev.sub < |subs| && subs[ev.sub].delivery.Some? && ev.product.Some? {
          var order := BuildOrder(subs[ev.sub], ev);
          orders := orders + [order];
          events := events[e := ev.(order := Some(|orders| - 1), status := EventStatus.Ready)];
          count := count + 1;
        }
      }
      assert due[..|due|] == due;
    }

    method SyncCompletedEvents() returns (count: nat)
      modifies this`events
      ensures Snapshot() == SyncCompleted(old(Snapshot()))
      ensures count == SyncCount(old(Snapshot()), |old(events)|)
    {
      count := 0;
      ghost var s := old(Snapshot());
      for e := 0 to |events|
        invariant |events| == |old(events)| && count == SyncCount(s, e)
        invariant orders == s.orders
        invariant forall d :: 0 <= d < |events| ==>
                    events[d] == if d < e then SyncCompleted(s).events[d] else s.events[d]
      {
        var ev := events[e];
        if ev.order.Some? && ev.order.value < |orders| && ev.status != EventStatus.Completed
           && orders[ev.order.value].status == OrderStatus.Completed
        {
          events := events[e := ev.(status := EventStatus.Completed)];
          count := count + 1;
        }
      }
      assert events == SyncCompleted(s).events;
    }

    /** The loop of an extension: each new event is inserted and, with a provider, charged at once. */
    method AppendDates(k: SubId, dates: seq<Date>, id: ProductId, product: Product, provider: Option<Provider>)
      requires k < |subs|
      modifies this`events, this`payments, this`ledger
      ensures Snapshot() == AppendHorizon(old(Snapshot()), k, dates, id, product, provider)
    {
      for i := 0 to |dates|
        invariant Snapshot() == AppendHorizon(old(Snapshot()), k, dates[..i], id, product, provider)
      {
        assert dates[..i + 1][..i] == dates[..i];
        events := events + [NewEvent(k, dates[i], id, product)];
        if provider.Some? {
          ChargeEventOffSession(|events| - 1, subs[k].user, provider.value);
        }
      }
      assert dates[..|dates|] == dates;
    }

    method ExtendSubscription(k: SubId, last: Date, catalog: Catalog,
                              provider: Option<Provider>) returns (extended: bool)
      requires k < |subs|
      modifies this`events, this`payments, this`ledger
      ensures Snapshot() == ExtendOne(old(Snapshot()), k, last, catalog, provider)
      ensures extended == ExtensionProduct(old(Snapshot()), k, catalog).Some?
    {
      var ids := EventsOf(events, k);
      if ids == [] {
        return false;
      }
      var snapshot := events[ids[|ids| - 1]].product;
      if snapshot.None? {
        return false;
      }
      var id := snapshot.value.product;
      if id !in catalog || !catalog[id].active {
        return false;
      }
      AppendDates(k, NextDatesAfter(last, subs[k].frequency), id, catalog[id], provider);
      extended := true;
    }

    /** `rows` is the answer of the extension query, taken before anything is appended. */
    method ExtendHorizons(today: Date, rows: seq<(SubId, Date)>, catalog: Catalog, provider: Option<Provider>)
      returns (extended: nat)
      requires IsExtensionQuery(Snapshot(), today, rows)
      modifies this`events, this`payments, this`ledger
      ensures Snapshot() == ExtendRows(old(Snapshot()), rows, catalog, provider)
      ensures extended == ExtendCount(old(Snapshot()), rows, catalog, provider)
    {
      extended := 0;
      for i := 0 to |rows|
        invariant Snapshot() == ExtendRows(old(Snapshot()), rows[..i], catalog, provider)
        invariant extended == ExtendCount(old(Snapshot()), rows[..i], catalog, provider)
      {
        assert rows[..i + 1][..i] == rows[..i];
        var (k, last) := rows[i];
        assert (k, last) in rows;
        assert NeedsHorizon(old(Snapshot()), k, last, today);
        var done := ExtendSubscription(k, last, catalog, provider);
        if done {
          extended := extended + 1;
        }
      }
      assert rows[..|rows|] == rows;
    }

    /** The whole daily pass; each query is answered when its own pass starts. */
    method RunDaily(today: Date, due: seq<EventId>, rows: seq<(SubId, Date)>, catalog: Catalog,
                    provider: Option<Provider>)
      returns (processed: nat, synced: nat, extended: nat)
      requires LegalDailyRun(Snapshot(), today, due, rows)
      modifies this`events, this`orders, this`payments, this`ledger
      ensures Snapshot() == DailyRun(old(Snapshot()), due, rows, catalog, provider)
      ensures |orders| == |old(orders)| + processed
      ensures synced == SyncCount(ProcessRows(old(Snapshot()), due), |ProcessRows(old(Snapshot()), due).events|)
      ensures extended == ExtendCount(SyncCompleted(ProcessRows(old(Snapshot()), due)), rows, catalog, provider)
    {
      processed := ProcessDueEvents(today, due);
      synced := SyncCompletedEvents();
      extended := ExtendHorizons(today, rows, catalog, provider);
    }
  }
}
