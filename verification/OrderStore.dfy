/** The order and payment services as they run, updating their tables in place. */
module OrderStore {
  import opened Wrappers
  import opened OrderStatuses
  import opened Shop
  import opened Orders

  class Store {
    var orders: seq<Order>
    var payments: seq<Payment>
    /** The provider's own books; a rollback of ours leaves them alone. */
    var ledger: seq<Charge>

    ghost function Snapshot(): State
      reads this
    {
      State(orders, payments, ledger)
    }

    constructor ()
      ensures Snapshot() == EMPTY_STATE
    {
      orders, payments, ledger := [], [], [];
    }

    /** Checks every item in request order before anything is built. */
    method LoadActiveProducts(catalog: Catalog, items: seq<Item>) returns (bad: Option<Error>)
      ensures bad == FirstUnsellable(catalog, items)
    {
      for i := 0 to |items|
        invariant FirstUnsellable(catalog, items) == FirstUnsellable(catalog, items[i..])
      {
        var item := items[i];
        assert items[i..][1..] == items[i + 1..];
        if item.product !in catalog {
          return Some(ProductNotFound(item.product));
        }
        if !catalog[item.product].active {
          return Some(ProductInactive(item.product));
        }
      }
      bad := None;
    }

    method PickupCodeExists(code: nat) returns (found: bool)
      ensures found == CodeTaken(orders, code)
    {
      for o := 0 to |orders|
        invariant !CodeTaken(orders[..o], code)
      {
        if orders[o].fulfilment.Pickup? && orders[o].fulfilment.code == code {
          return true;
        }
      }
      assert orders[..|orders|] == orders;
      found := false;
    }

    method AllocatePickupCode(draws: nat -> nat) returns (code: Option<nat>)
      ensures code == FreeCode(orders, draws, 0, PICKUP_CODE_ATTEMPTS)
    {
      for i := 0 to PICKUP_CODE_ATTEMPTS
        invariant FreeCode(orders, draws, 0, PICKUP_CODE_ATTEMPTS) == FreeCode(orders, draws, i, PICKUP_CODE_ATTEMPTS - i)
      {
        var candidate := draws(i);
        var taken := PickupCodeExists(candidate);
        if !taken {
          return Some(candidate);
        }
      }
      code := None;
    }

    method CreateOrder(user: UserId, catalog: Catalog, items: seq<Item>, dest: Destination, points: Points,
                       draws: nat -> nat, now: Time) returns (result: Result<OrderId, Error>)
      modifies this`orders
      ensures (Snapshot(), result) == Create(old(Snapshot()), user, catalog, items, dest, points, draws, now)
    {
      if items == [] {
        return Err(InvalidItems);
      }
      var bad := LoadActiveProducts(catalog, items);
      if bad.Some? {
        return Err(bad.value);
      }
      SellableItems(catalog, items);
      var total := 0;
      var lines: seq<Line> := [];
      for i := 0 to |items|
        invariant orders == old(orders)
        invariant lines == LinesOf(catalog, items)[..i]
        invariant total == SumLines(lines)
      {
        var product := catalog[items[i].product];
        var line := Line(items[i].product, product.name, product.price, items[i].quantity);
        assert (lines + [line])[..i] == lines;
        total := total + product.price * items[i].quantity;
        lines := lines + [line];
      }
      assert lines == LinesOf(catalog, items);
      var fulfilment: Fulfilment;
      match dest {
        case ToAddress(address) =>
          fulfilment := Delivery(address, None, None);
        case ToPoint(point) =>
          if point !in points {
            return Err(PointNotFound);
          }
          if !points[point].active || !points[point].coffeeShop {
            return Err(PointUnavailable);
          }
          var code := AllocatePickupCode(draws);
          if code.None? {
            return Err(NoPickupCode);
          }
          fulfilment := Pickup(point, code.value, now + PICKUP_TTL, None);
      }
      orders := orders + [Order(user, total, OrderStatus.Created, lines, fulfilment)];
      result := Ok(|orders| - 1);
    }

    method CancelOrder(o: OrderId, user: UserId) returns (result: Result<OrderId, Error>)
      modifies this`orders
      ensures (Snapshot(), result) == Cancel(old(Snapshot()), o, user)
    {
      if o >= |orders| {
        return Err(OrderNotFound);
      }
      if orders[o].user != user {
        return Err(AccessDenied);
      }
      if EnsureTransition(orders[o].status, OrderStatus.Cancelled).Err? {
        return Err(InvalidTransition(orders[o].status, OrderStatus.Cancelled));
      }
      orders := orders[o := orders[o].(status := OrderStatus.Cancelled)];
      result := Ok(o);
    }

    method StampMilestone(o: OrderId, target: OrderStatus, now: Time)
      requires o < |orders|
      modifies this`orders
      ensures orders == old(orders)[o := old(orders)[o].(fulfilment := Stamp(old(orders)[o].fulfilment, target, now))]
    {
      var info := orders[o].fulfilment;
      if target == OrderStatus.InProgress {
        if info.Delivery? && info.shippedAt.None? {
          info := info.(shippedAt := Some(now));
        }
      } else if target == OrderStatus.Completed {
        if info.Pickup? && info.pickedUpAt.None? {
          info := info.(pickedUpAt := Some(now));
        }
        if info.Delivery? && info.deliveredAt.None? {
          info := info.(deliveredAt := Some(now));
        }
      }
      orders := orders[o := orders[o].(fulfilment := info)];
    }

    method UpdateOrderStatus(o: OrderId, target: OrderStatus, now: Time) returns (result: Result<OrderId, Error>)
      modifies this`orders
      ensures (Snapshot(), result) == UpdateStatus(old(Snapshot()), o, target, now)
    {
      if o >= |orders| {
        return Err(OrderNotFound);
      }
      var current := orders[o].status;
      if target !in STAFF_TARGETS || EnsureTransition(current, target).Err? {
        return Err(InvalidTransition(current, target));
      }
      orders := orders[o := orders[o].(status := target)];
      StampMilestone(o, target, now);
      assert orders == UpdateStatus(old(Snapshot()), o, target, now).0.orders;
      result := Ok(o);
    }

    /** The payment row is inserted first and settled with the provider's answer. */
    method ChargeOrder(o: OrderId, user: UserId, provider: string, settles: TxnId -> bool, now: Time)
      returns (result: Result<PaymentId, Error>)
      modifies this
      ensures (Snapshot(), result) == ChargeForOrder(old(Snapshot()), o, user, provider, settles, now)
    {
      if o >= |orders| {
        return Err(OrderNotFound);
      }
      var order := orders[o];
      if order.user != user {
        return Err(AccessDenied);
      }
      if order.status != OrderStatus.Created {
        return Err(PaymentInvalidState);
      }
      var p := |payments|;
      payments := payments + [Payment(o, user, order.total, provider, None, PaymentStatus.Pending, None)];
      var txn := |ledger|;
      var settled := settles(txn);
      ledger := ledger + [Charge(order.total, settled, 0)];
      payments := payments[p := payments[p].(txn := Some(txn))];
      if settled {
        payments := payments[p := payments[p].(status := PaymentStatus.Completed, completedAt := Some(now))];
        orders := orders[o := order.(status := OrderStatus.Confirmed)];
      } else {
        payments := payments[p := payments[p].(status := PaymentStatus.Failed)];
      }
      assert payments == ChargeForOrder(old(Snapshot()), o, user, provider, settles, now).0.payments;
      result := Ok(p);
    }

    method ApplyCallback(provider: string, txn: TxnId, report: Report,
                         now: Time) returns (result: Result<PaymentId, Error>)
      modifies this`orders, this`payments
      ensures (Snapshot(), result) == HandleCallback(old(Snapshot()), provider, txn, report, now)
    {
      var found := FindPayment(payments, provider, txn);
      if found.None? {
        return Err(PaymentNotFound);
      }
      var p := found.value;
      if Terminal(payments[p].status) {
        return Ok(p);
      }
      var o := payments[p].order;
      if o >= |orders| {
        return Err(OrderNotFound);
      }
      match report
      case SaysCompleted =>
        payments := payments[p := payments[p].(status := PaymentStatus.Completed, completedAt := Some(now))];
        if orders[o].status == OrderStatus.Created {
          orders := orders[o := orders[o].(status := OrderStatus.Confirmed)];
        }
        result := Ok(p);
      case SaysFailed =>
        payments := payments[p := payments[p].(status := PaymentStatus.Failed)];
        result := Ok(p);
      case SaysOther =>
        result := Err(PaymentInvalidState);
    }

    /** A raise after the provider has refunded restores our tables but not the provider's books. */
    method Refund(p: PaymentId, accepts: bool) returns (result: Result<PaymentId, Error>)
      modifies this
      ensures (Snapshot(), result) == RefundPayment(old(Snapshot()), p, accepts)
    {
      if p >= |payments| {
        return Err(PaymentNotFound);
      }
      var payment := payments[p];
      if payment.status != PaymentStatus.Completed || payment.txn.None? || !accepts {
        return Err(PaymentInvalidState);
      }
      var txn := payment.txn.value;
      if txn < |ledger| {
        ledger := ledger[txn := ledger[txn].(refunds := ledger[txn].refunds + 1)];
      }
      var paymentsBefore := payments;
      payments := payments[p := payment.(status := PaymentStatus.Refunded)];
      if payment.order >= |orders| {
        payments := paymentsBefore;
        return Err(OrderNotFound);
      }
      var order := orders[payment.order];
      if EnsureTransition(order.status, OrderStatus.Refunded).Err? {
        payments := paymentsBefore;
        return Err(InvalidTransition(order.status, OrderStatus.Refunded));
      }
      orders := orders[payment.order := order.(status := OrderStatus.Refunded)];
      result := Ok(p);
    }
  }
}
