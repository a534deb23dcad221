/**
  What each order and payment operation answers and leaves behind, with the statuses written out:
  which moves go through, and what they write.
 */
module OrderOutcomes {
  import opened Wrappers
  import opened OrderStatuses
  import opened Shop
  import opened Orders
  import opened OrderRuns
  import SubscriptionSteps
  import SubscriptionTables

  // ------------------------------------------------------------------- staff and customer

  /** The moves staff can make. */
  predicate StaffMay(from: OrderStatus, to: OrderStatus) {
    match to
    case Confirmed => from == OrderStatus.Created
    case InProgress => from == OrderStatus.Confirmed
    case Completed => from in {OrderStatus.Confirmed, OrderStatus.InProgress}
    case Failed => from in {OrderStatus.Confirmed, OrderStatus.InProgress}
    case Refunded => from in {OrderStatus.Confirmed, OrderStatus.InProgress, OrderStatus.Completed}
    case Created | Cancelled => false
  }

  /** `stamp` after a milestone at `now`: the first time counts. */
  predicate Marks(before: Option<Time>, after: Option<Time>, reached: bool, now: Time) {
    if reached && before.None? then after == Some(now) else after == before
  }

  /** Shipping is marked on progress, delivery and pickup on completion, and nothing else is touched. */
  predicate Milestones(before: Fulfilment, after: Fulfilment, target: OrderStatus, now: Time) {
    match before
    case Pickup(point, code, deadline, pickedUpAt) =>
      && after.Pickup? && after.point == point && after.code == code && after.deadline == deadline
      && Marks(pickedUpAt, after.pickedUpAt, target == OrderStatus.Completed, now)
    case Delivery(address, shippedAt, deliveredAt) =>
      && after.Delivery? && after.address == address
      && Marks(shippedAt, after.shippedAt, target == OrderStatus.InProgress, now)
      && Marks(deliveredAt, after.deliveredAt, target == OrderStatus.Completed, now)
  }

  /** Only order `o` differs, and only in its status and milestones. */
  ghost predicate Moves(s: State, r: State, o: OrderId, target: OrderStatus, now: Time) {
    && o < |s.orders| && |r.orders| == |s.orders|
    && r == s.(orders := s.orders[o := r.orders[o]])
    && r.orders[o] == s.orders[o].(status := target, fulfilment := r.orders[o].fulfilment)
    && Milestones(s.orders[o].fulfilment, r.orders[o].fulfilment, target, now)
  }

  /** A staff move goes through if and only if it is one of those above; it then leaves its mark. */
  lemma StaffMoveOutcome(s: State, o: OrderId, target: OrderStatus, now: Time)
    ensures var (r, result) := UpdateStatus(s, o, target, now);
            && (result.Ok? <==> o < |s.orders| && StaffMay(s.orders[o].status, target))
            && (result == Err(OrderNotFound) <==> |s.orders| <= o)
            && (o < |s.orders| && result.Err? ==> result == Err(InvalidTransition(s.orders[o].status, target)))
            && (result.Err? ==> r == s)
            && (result.Ok? ==> result.value == o && Moves(s, r, o, target, now))
  {
    if o < |s.orders| {
      MovesWrittenOut(s.orders[o].status, target);
    }
  }

  lemma MovesWrittenOut(from: OrderStatus, to: OrderStatus)
    ensures to in STAFF_TARGETS && CanTransition(from, to) <==> StaffMay(from, to)
    ensures CanTransition(from, OrderStatus.Cancelled) <==> from == OrderStatus.Created
  {
  }

  /** A customer's cancellation goes through if and only if the order is theirs and nothing was confirmed. */
  lemma CustomerCancelOutcome(s: State, o: OrderId, user: UserId)
    ensures var (r, result) := Cancel(s, o, user);
            && (result.Ok? <==>
                o < |s.orders| && s.orders[o].user == user && s.orders[o].status == OrderStatus.Created)
            && (result == Err(OrderNotFound) <==> |s.orders| <= o)
            && (result == Err(AccessDenied) <==> o < |s.orders| && s.orders[o].user != user)
            && (result.Err? ==> r == s)
            && (result.Ok? ==>
                  r == s.(orders := s.orders[o := s.orders[o].(status := OrderStatus.Cancelled)]) && result.value == o)
  {
    if o < |s.orders| {
      MovesWrittenOut(s.orders[o].status, OrderStatus.Cancelled);
    }
  }

  /** The subscription engine sees an order move exactly as the order service makes it. */
  lemma EngineMovesAlike(s: SubscriptionTables.State, o: OrderId, target: OrderStatus, now: Time)
    requires target != OrderStatus.Cancelled
    ensures SubscriptionSteps.MoveOrder(s, o, target, now).orders ==
            UpdateStatus(State(s.orders, [], []), o, target, now).0.orders
  {
  }

  // ------------------------------------------------------------------- the way to completion

  lemma TwoMoreMoves(s: State, o: OrderId, shipped: Time, done: Time)
    requires o < |s.orders| && s.orders[o].status == OrderStatus.Confirmed
    ensures var r := Step(Step(s, UpdateOp(o, OrderStatus.InProgress, shipped)), UpdateOp(o, OrderStatus.Completed, done));
            && o < |r.orders| && r.orders[o].status == OrderStatus.Completed
            && HandedOver(r.orders[o].fulfilment).Some?
            && (HandedOver(s.orders[o].fulfilment).None? ==> HandedOver(r.orders[o].fulfilment) == Some(done))
            && r.payments == s.payments && r.ledger == s.ledger
  {
    var m := Step(s, UpdateOp(o, OrderStatus.InProgress, shipped));
    StaffMoveOutcome(s, o, OrderStatus.InProgress, shipped);
    StaffMoveOutcome(m, o, OrderStatus.Completed, done);
  }

  /** Every order just created can be confirmed, sent and completed by staff; it is then handed over. */
  lemma EveryOrderCanBeCompleted(s: State, o: OrderId, confirmed: Time, shipped: Time, done: Time)
    requires o < |s.orders| && s.orders[o].status == OrderStatus.Created
    ensures var ops := [UpdateOp(o, OrderStatus.Confirmed, confirmed), UpdateOp(o, OrderStatus.InProgress, shipped),
                        UpdateOp(o, OrderStatus.Completed, done)];
            var r := Run(s, ops);
            && o < |r.orders| && r.orders[o].status == OrderStatus.Completed && HandedOver(r.orders[o].fulfilment).Some?
  {
    var first := UpdateOp(o, OrderStatus.Confirmed, confirmed);
    StaffMoveOutcome(s, o, OrderStatus.Confirmed, confirmed);
    TwoMoreMoves(Step(s, first), o, shipped, done);
    ThreeSteps(s, first, UpdateOp(o, OrderStatus.InProgress, shipped), UpdateOp(o, OrderStatus.Completed, done));
  }

  lemma ThreeSteps(s: State, a: Op, b: Op, c: Op)
    ensures Run(s, [a, b, c]) == Step(Step(Step(s, a), b), c)
  {
    assert [a, b, c][..2] == [a, b] && [a, b][..1] == [a] && [a][..0] == [];
    assert Run(s, [a]) == Step(s, a);
    assert Run(s, [a, b]) == Step(Run(s, [a]), b);
  }

  /** And so can one its owner pays for, if the provider settles. */
  lemma EveryPaidOrderCanBeCompleted(s: State, o: OrderId, provider: string, settles: TxnId -> bool, paid: Time,
                                     shipped: Time, done: Time)
    requires o < |s.orders| && s.orders[o].status == OrderStatus.Created && settles(|s.ledger|)
    ensures var ops := [ChargeOp(o, s.orders[o].user, provider, settles, paid),
                        UpdateOp(o, OrderStatus.InProgress, shipped), UpdateOp(o, OrderStatus.Completed, done)];
            var r := Run(s, ops);
            && o < |r.orders| && r.orders[o].status == OrderStatus.Completed && HandedOver(r.orders[o].fulfilment).Some?
            && |r.payments| == |s.payments| + 1 && r.payments[|s.payments|].order == o
            && r.payments[|s.payments|].status == PaymentStatus.Completed
  {
    var first := ChargeOp(o, s.orders[o].user, provider, settles, paid);
    ChargeOutcome(s, o, s.orders[o].user, provider, settles, paid);
    TwoMoreMoves(Step(s, first), o, shipped, done);
    ThreeSteps(s, first, UpdateOp(o, OrderStatus.InProgress, shipped), UpdateOp(o, OrderStatus.Completed, done));
  }

  // ------------------------------------------------------------------- payments

  /**
    A charge is attempted if and only if the order is the caller's and waits to be paid. The
    attempt is recorded either way; the order is confirmed if and only if the provider settles.
   */
  lemma ChargeOutcome(s: State, o: OrderId, user: UserId, provider: string, settles: TxnId -> bool, now: Time)
    ensures var (r, result) := ChargeForOrder(s, o, user, provider, settles, now);
            && (result.Ok? <==>
                o < |s.orders| && s.orders[o].user == user && s.orders[o].status == OrderStatus.Created)
            && (result == Err(OrderNotFound) <==> |s.orders| <= o)
            && (result == Err(AccessDenied) <==> o < |s.orders| && s.orders[o].user != user)
            && (result.Err? ==> r == s)
            && (result.Ok? ==>
                  var settled, total := settles(|s.ledger|), s.orders[o].total;
                  && result.value == |s.payments|
                  && r.ledger == s.ledger + [Charge(total, settled, 0)]
                  && r.payments == s.payments +
                       [Payment(o, user, total, provider, Some(|s.ledger|),
                                if settled then PaymentStatus.Completed else PaymentStatus.Failed,
                                if settled then Some(now) else None)]
                  && r.orders == if settled then s.orders[o := s.orders[o].(status := OrderStatus.Confirmed)]
                                 else s.orders)
  {
  }

  /** The row a callback names. */
  predicate Names(p: Payment, provider: string, txn: TxnId) {
    p.provider == provider && p.txn == Some(txn)
  }

  lemma {:induction false} FindPaymentFinds(payments: seq<Payment>, provider: string, txn: TxnId)
    ensures FindPayment(payments, provider, txn).None? <==>
            forall p :: 0 <= p < |payments| ==> !Names(payments[p], provider, txn)
  {
    if payments != [] {
      var n := |payments| - 1;
      var before := payments[..n];
      FindPaymentFinds(before, provider, txn);
      assert forall p :: 0 <= p < n ==> before[p] == payments[p];
      if FindPayment(before, provider, txn).Some? {
        assert Names(payments[FindPayment(before, provider, txn).value], provider, txn);
      }
    }
  }

  /** A callback that names no row is refused; one that names a settled, failed or refunded row changes nothing. */
  lemma CallbackIgnored(s: State, provider: string, txn: TxnId, report: Report, now: Time)
    ensures var (r, result) := HandleCallback(s, provider, txn, report, now);
            && (result == Err(PaymentNotFound) <==>
                forall p :: 0 <= p < |s.payments| ==> !Names(s.payments[p], provider, txn))
            && (result.Err? ==> r == s)
            && ((forall p :: 0 <= p < |s.payments| && Names(s.payments[p], provider, txn) ==>
                   s.payments[p].status in {PaymentStatus.Completed, PaymentStatus.Failed, PaymentStatus.Refunded})
                ==> r == s)
  {
    FindPaymentFinds(s.payments, provider, txn);
    var found := FindPayment(s.payments, provider, txn);
    if found.Some? {
      assert Names(s.payments[found.value], provider, txn);
    }
  }

  /**
    A callback about a pending payment does what it says: success completes the payment and confirms
    the order unless it has moved on, failure fails the payment, and anything else is refused.
   */
  lemma CallbackOutcome(s: State, p: PaymentId, provider: string, txn: TxnId, report: Report, now: Time)
    requires Inv(s) && p < |s.payments| && Names(s.payments[p], provider, txn)
    requires s.payments[p].status == PaymentStatus.Pending
    ensures var (r, result) := HandleCallback(s, provider, txn, report, now);
            var payment, o := s.payments[p], s.payments[p].order;
            && o < |s.orders| && r.ledger == s.ledger
            && (result.Ok? <==> report.SaysCompleted? || report.SaysFailed?)
            && (result.Err? ==> r == s)
            && (report.SaysCompleted? ==>
                  && r.payments == s.payments[p := payment.(status := PaymentStatus.Completed, completedAt := Some(now))]
                  && r.orders == if s.orders[o].status == OrderStatus.Created
                                 then s.orders[o := s.orders[o].(status := OrderStatus.Confirmed)] else s.orders)
            && (report.SaysFailed? ==>
                  r.payments == s.payments[p := payment.(status := PaymentStatus.Failed)] && r.orders == s.orders)
  {
    FindPaymentFinds(s.payments, provider, txn);
    var q := FindPayment(s.payments, provider, txn).value;
    assert PaymentFits(s, s.payments[p]);
    assert q == p;
  }

  /** The provider is asked for a refund exactly for a completed payment; what it declines changes nothing. */
  lemma RefundAsked(s: State, p: PaymentId, accepts: bool)
    requires Inv(s)
    ensures var (r, result) := RefundPayment(s, p, accepts);
            && (result.Ok? ==> accepts && p < |s.payments| && s.payments[p].status == PaymentStatus.Completed)
            && (result == Err(PaymentNotFound) <==> |s.payments| <= p)
            && (p < |s.payments| ==>
                  && (result == Err(PaymentInvalidState) <==> !accepts || s.payments[p].status != PaymentStatus.Completed)
                  && (r != s ==> accepts && s.payments[p].status == PaymentStatus.Completed))
  {
    if p < |s.payments| {
      assert PaymentFits(s, s.payments[p]);
    }
  }

  // ------------------------------------------------------------------- placing an order

  /** Why an item cannot be sold: it is the first of the request that is missing, or inactive. */
  lemma {:induction false} FirstRefusedItem(catalog: Catalog, items: seq<Item>) returns (i: nat)
    requires FirstUnsellable(catalog, items).Some?
    ensures i < |items| && AllSellable(catalog, items[..i])
    ensures var id := items[i].product;
            FirstUnsellable(catalog, items).value ==
            if id in catalog then ProductInactive(id) else ProductNotFound(id)
    ensures items[i].product in catalog ==> !catalog[items[i].product].active
  {
    if items[0].product !in catalog || !catalog[items[0].product].active {
      i := 0;
    } else {
      var rest := FirstRefusedItem(catalog, items[1..]);
      i := rest + 1;
      assert forall j :: 1 <= j < i ==> items[..i][j] == items[1..][..rest][j - 1];
    }
  }

  /** An order is refused for want of items, or for the first item that cannot be sold. */
  lemma RefusedItems(s: State, user: UserId, catalog: Catalog, items: seq<Item>, dest: Destination, points: Points,
                     draws: nat -> nat, now: Time) returns (i: nat)
    ensures Create(s, user, catalog, items, dest, points, draws, now).1 == Err(InvalidItems) <==> items == []
    ensures items != [] && !AllSellable(catalog, items) ==>
              && i < |items| && AllSellable(catalog, items[..i])
              && var id := items[i].product;
                 Create(s, user, catalog, items, dest, points, draws, now) ==
                 (s, Err(if id in catalog then ProductInactive(id) else ProductNotFound(id)))
  {
    i := 0;
    SellableIff(catalog, items);
    if FirstUnsellable(catalog, items).Some? {
      i := FirstRefusedItem(catalog, items);
    }
  }

  lemma {:induction false} SumLinesConcat(a: seq<Line>, b: seq<Line>)
    ensures SumLines(a + b) == SumLines(a) + SumLines(b)
  {
    if b == [] {
      assert a + b == a;
    } else {
      assert (a + b)[..|a + b| - 1] == a + b[..|b| - 1];
      SumLinesConcat(a, b[..|b| - 1]);
    }
  }

  /** One item costs its price of the day times its quantity, and two lists of items cost the sum of what each costs. */
  lemma ItemsCost(catalog: Catalog, item: Item, a: seq<Item>, b: seq<Item>)
    requires item.product in catalog && AllSellable(catalog, a + b)
    ensures AllSellable(catalog, a) && AllSellable(catalog, b)
    ensures SumLines(LinesOf(catalog, [item])) == catalog[item.product].price * item.quantity
    ensures SumLines(LinesOf(catalog, a + b)) == SumLines(LinesOf(catalog, a)) + SumLines(LinesOf(catalog, b))
  {
    assert forall i :: 0 <= i < |a| ==> a[i] == (a + b)[i];
    assert forall i :: 0 <= i < |b| ==> b[i] == (a + b)[|a| + i];
    assert LinesOf(catalog, [item])[..0] == [];
    SumLinesConcat(LinesOf(catalog, a), LinesOf(catalog, b));
    assert LinesOf(catalog, a + b) == LinesOf(catalog, a) + LinesOf(catalog, b);
  }

  /** A point hands orders over while it is open and sells coffee. */
  predicate HandsOver(points: Points, point: nat) {
    point in points && points[point].active && points[point].coffeeShop
  }

  /** An order for pickup waits at the chosen point for a day, under the first free code of ten draws. */
  lemma PickupOutcome(s: State, user: UserId, catalog: Catalog, items: seq<Item>, point: nat, points: Points,
                      draws: nat -> nat, now: Time)
    requires items != [] && AllSellable(catalog, items)
    ensures var (r, result) := Create(s, user, catalog, items, ToPoint(point), points, draws, now);
            && (result == Err(PointNotFound) <==> point !in points)
            && (result == Err(PointUnavailable) <==> point in points && !HandsOver(points, point))
            && (result == Err(NoPickupCode) <==>
                HandsOver(points, point) && forall i :: 0 <= i < 10 ==> CodeTaken(s.orders, draws(i)))
            && (result.Ok? ==>
                  && |r.orders| == |s.orders| + 1
                  && var f := r.orders[|s.orders|].fulfilment;
                     && f.Pickup? && f.point == point && f.deadline == now + 24 * 60 * 60 && f.pickedUpAt.None?
                     && !CodeTaken(s.orders, f.code)
                     && exists i :: 0 <= i < 10 && f.code == draws(i)
                                    && forall j :: 0 <= j < i ==> CodeTaken(s.orders, draws(j)))
  {
    SellableIff(catalog, items);
    FreeCodeIsFree(s.orders, draws, 0, 10);
    FreeCodeIsFirst(s.orders, draws, 0, 10);
  }

  lemma {:induction false} FreeCodeIsFirst(orders: seq<Order>, draws: nat -> nat, from: nat, attempts: nat)
    ensures FreeCode(orders, draws, from, attempts).Some? ==>
              exists i :: from <= i < from + attempts && FreeCode(orders, draws, from, attempts).value == draws(i)
                          && forall j :: from <= j < i ==> CodeTaken(orders, draws(j))
    decreases attempts
  {
    if attempts > 0 {
      if !CodeTaken(orders, draws(from)) {
        assert FreeCode(orders, draws, from, attempts).value == draws(from);
      } else {
        FreeCodeIsFirst(orders, draws, from + 1, attempts - 1);
      }
    }
  }

  /** An order for delivery goes to the address given, with nothing shipped or delivered yet. */
  lemma DeliveryOutcome(s: State, user: UserId, catalog: Catalog, items: seq<Item>, address: Address, points: Points,
                        draws: nat -> nat, now: Time)
    requires items != [] && AllSellable(catalog, items)
    ensures var (r, result) := Create(s, user, catalog, items, ToAddress(address), points, draws, now);
            && result == Ok(|s.orders|) && |r.orders| == |s.orders| + 1
            && r.orders[|s.orders|].fulfilment == Delivery(address, None, None)
            && r.payments == s.payments && r.ledger == s.ledger
  {
    SellableIff(catalog, items);
  }
}
