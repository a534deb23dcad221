/**
  Orders and their payments. Three writers share one status graph: the customer cancels, staff
  advance, and the payment provider confirms and refunds.
 */
module Orders {
  import opened Wrappers
  import opened OrderStatuses
  import opened Shop

  type PaymentId = nat

  const PICKUP_TTL: Time := 24 * 3600
  const PICKUP_CODE_ATTEMPTS: nat := 10

  datatype RawItem = RawItem(product: ProductId, quantity: int)
  type Item = i: RawItem | i.quantity >= 1 witness RawItem(0, 1)

  datatype Payment = Payment(order: OrderId, user: UserId, amount: int, provider: string, txn: Option<TxnId>,
                             status: PaymentStatus, completedAt: Option<Time>)

  /** The provider's own books: what was charged, and how often it was paid back. */
  datatype Charge = Charge(amount: int, settled: bool, refunds: nat)

  datatype State = State(orders: seq<Order>, payments: seq<Payment>, ledger: seq<Charge>)

  const EMPTY_STATE := State([], [], [])

  datatype Error =
    | InvalidItems
    | ProductNotFound(product: ProductId)
    | ProductInactive(product: ProductId)
    | PointNotFound
    | PointUnavailable
    | NoPickupCode
    | OrderNotFound
    | AccessDenied
    | InvalidTransition(from: OrderStatus, to: OrderStatus)
    | PaymentNotFound
    | PaymentInvalidState

  datatype Destination = ToPoint(point: nat) | ToAddress(address: Address)

  datatype Point = Point(active: bool, coffeeShop: bool)
  type Points = map<nat, Point>

  // ---------------------------------------------------------------------- create

  function SumLines(lines: seq<Line>): int {
    if lines == [] then 0
    else SumLines(lines[..|lines| - 1]) + lines[|lines| - 1].price * lines[|lines| - 1].quantity
  }

  /** The first item that cannot be sold, in the order of the request. */
  function FirstUnsellable(catalog: Catalog, items: seq<Item>): Option<Error> {
    if items == [] then None
    else if items[0].product !in catalog then Some(ProductNotFound(items[0].product))
    else if !catalog[items[0].product].active then Some(ProductInactive(items[0].product))
    else FirstUnsellable(catalog, items[1..])
  }

  /** The snapshot of one item. */
  function LineOf(catalog: Catalog, item: Item): Line
    requires item.product in catalog
  {
    var p := catalog[item.product];
    Line(item.product, p.name, p.price, item.quantity)
  }

  lemma {:induction false} SellableItems(catalog: Catalog, items: seq<Item>)
    requires FirstUnsellable(catalog, items).None?
    ensures forall i :: 0 <= i < |items| ==> items[i].product in catalog && catalog[items[i].product].active
  {
    if items != [] {
      SellableItems(catalog, items[1..]);
      assert forall i :: 1 <= i < |items| ==> items[i] == items[1..][i - 1];
    }
  }

  function LinesOf(catalog: Catalog, items: seq<Item>): seq<Line>
    requires forall i :: 0 <= i < |items| ==> items[i].product in catalog
  {
    seq(|items|, i requires 0 <= i < |items| => LineOf(catalog, items[i]))
  }

  predicate CodeTaken(orders: seq<Order>, code: nat) {
    exists o :: 0 <= o < |orders| && orders[o].fulfilment.Pickup? && orders[o].fulfilment.code == code
  }

  /** The first free code among at most `attempts` draws, starting at draw `from`. */
  function FreeCode(orders: seq<Order>, draws: nat -> nat, from: nat, attempts: nat): Option<nat>
    decreases attempts
  {
    if attempts == 0 then None
    else if !CodeTaken(orders, draws(from)) then Some(draws(from))
    else FreeCode(orders, draws, from + 1, attempts - 1)
  }

  function Fulfil(s: State, dest: Destination, points: Points, draws: nat -> nat,
                  now: Time): Result<Fulfilment, Error> {
    match dest
    case ToAddress(address) => Ok(Delivery(address, None, None))
    case ToPoint(point) =>
      if point !in points then Err(PointNotFound)
      else if !points[point].active || !points[point].coffeeShop then Err(PointUnavailable)
      else
        var code := FreeCode(s.orders, draws, 0, PICKUP_CODE_ATTEMPTS);
        if code.None? then Err(NoPickupCode) else Ok(Pickup(point, code.value, now + PICKUP_TTL, None))
  }

  function Create(s: State, user: UserId, catalog: Catalog, items: seq<Item>, dest: Destination, points: Points,
                  draws: nat -> nat, now: Time): (State, Result<OrderId, Error>)
  {
    if items == [] then (s, Err(InvalidItems))
    else
      var bad := FirstUnsellable(catalog, items);
      if bad.Some? then (s, Err(bad.value))
      else
        var fulfilment := Fulfil(s, dest, points, draws, now);
        if fulfilment.Err? then (s, Err(fulfilment.error))
        else
          SellableItems(catalog, items);
          var lines := LinesOf(catalog, items);
          var order := Order(user, SumLines(lines), OrderStatus.Created, lines, fulfilment.value);
          (s.(orders := s.orders + [order]), Ok(|s.orders|))
  }

  // -------------------------------------------------------------- status changes

  function Cancel(s: State, o: OrderId, user: UserId): (State, Result<OrderId, Error>) {
    if o >= |s.orders| then (s, Err(OrderNotFound))
    else if s.orders[o].user != user then (s, Err(AccessDenied))
    else if !CanTransition(s.orders[o].status, OrderStatus.Cancelled) then
      (s, Err(InvalidTransition(s.orders[o].status, OrderStatus.Cancelled)))
    else (s.(orders := s.orders[o := s.orders[o].(status := OrderStatus.Cancelled)]), Ok(o))
  }

  function UpdateStatus(s: State, o: OrderId, target: OrderStatus, now: Time): (State, Result<OrderId, Error>) {
    if o >= |s.orders| then (s, Err(OrderNotFound))
    else
      var order := s.orders[o];
      if target !in STAFF_TARGETS || !CanTransition(order.status, target) then
        (s, Err(InvalidTransition(order.status, target)))
      else
        (s.(orders := s.orders[o := order.(status := target, fulfilment := Stamp(order.fulfilment, target, now))]), Ok(o))
  }

  // -------------------------------------------------------------------- payments

  function ChargeForOrder(s: State, o: OrderId, user: UserId, provider: string, settles: TxnId -> bool, now: Time)
    : (State, Result<PaymentId, Error>)
  {
    if o >= |s.orders| then (s, Err(OrderNotFound))
    else
      var order := s.orders[o];
      if order.user != user then (s, Err(AccessDenied))
      else if order.status != OrderStatus.Created then (s, Err(PaymentInvalidState))
      else
        var txn := |s.ledger|;
        var settled := settles(txn);
        var payment := Payment(o, user, order.total, provider, Some(txn),
                               if settled then PaymentStatus.Completed else PaymentStatus.Failed,
                               if settled then Some(now) else None);
        (State(if settled then s.orders[o := order.(status := OrderStatus.Confirmed)] else s.orders,
               s.payments + [payment],
               s.ledger + [Charge(order.total, settled, 0)]), Ok(|s.payments|))
  }

  /** What a callback says happened. */
  datatype Report = SaysCompleted | SaysFailed | SaysOther

  predicate Terminal(status: PaymentStatus) {
    !status.Pending?
  }

  /** The payment a callback is about. */
  function FindPayment(payments: seq<Payment>, provider: string, txn: TxnId): (found: Option<PaymentId>)
    ensures found.Some? ==> found.value < |payments| && payments[found.value].txn == Some(txn)
                            && payments[found.value].provider == provider
  {
    if payments == [] then None
    else
      var n := |payments| - 1;
      var before := FindPayment(payments[..n], provider, txn);
      if before.Some? then before
      else if payments[n].txn == Some(txn) && payments[n].provider == provider then Some(n)
      else None
  }

  /** The callback writes the order status directly, without consulting the graph. */
  function HandleCallback(s: State, provider: string, txn: TxnId, report: Report, now: Time)
    : (State, Result<PaymentId, Error>)
  {
    var found := FindPayment(s.payments, provider, txn);
    if found.None? then (s, Err(PaymentNotFound))
    else
      var p := found.value;
      var payment := s.payments[p];
      if Terminal(payment.status) then (s, Ok(p))
      else if payment.order >= |s.orders| then (s, Err(OrderNotFound))
      else
        match report
        case SaysCompleted =>
          var order := s.orders[payment.order];
          (s.(payments := s.payments[p := payment.(status := PaymentStatus.Completed, completedAt := Some(now))],
              orders := if order.status == OrderStatus.Created
                        then s.orders[payment.order := order.(status := OrderStatus.Confirmed)] else s.orders), Ok(p))
        case SaysFailed => (s.(payments := s.payments[p := payment.(status := PaymentStatus.Failed)]), Ok(p))
        case SaysOther => (s, Err(PaymentInvalidState))
  }

  /** The provider is asked first, so its refund stands even if the order may not be refunded. */
  function RefundPayment(s: State, p: PaymentId, accepts: bool): (State, Result<PaymentId, Error>) {
    if p >= |s.payments| then (s, Err(PaymentNotFound))
    else
      var payment := s.payments[p];
      if payment.status != PaymentStatus.Completed || payment.txn.None? || !accepts then (s, Err(PaymentInvalidState))
      else
        var txn := payment.txn.value;
        var ledger := if txn < |s.ledger| then s.ledger[txn := s.ledger[txn].(refunds := s.ledger[txn].refunds + 1)]
                      else s.ledger;
        if payment.order >= |s.orders| then (s.(ledger := ledger), Err(OrderNotFound))
        else
          var order := s.orders[payment.order];
          if !CanTransition(order.status, OrderStatus.Refunded) then
            (s.(ledger := ledger), Err(InvalidTransition(order.status, OrderStatus.Refunded)))
          else
            (State(s.orders[payment.order := order.(status := OrderStatus.Refunded)],
                   s.payments[p := payment.(status := PaymentStatus.Refunded)],
                   ledger), Ok(p))
  }
}
