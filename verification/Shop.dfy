/** What the shop's tables share: products, orders and the statuses of payments. Money is in cents. */
module Shop {
  import opened Wrappers
  import opened OrderStatuses

  type UserId = nat
  type ProductId = nat
  type OrderId = nat
  type TxnId = nat
  type Time = int

  /** The catalog row; a check constraint keeps its price positive. */
  datatype RawProduct = RawProduct(name: string, price: int, active: bool)
  type Product = p: RawProduct | p.price > 0 witness RawProduct("", 1, true)
  type Catalog = map<ProductId, Product>

  datatype Address = Address(recipient: string, phone: string, street: string, city: string,
                             postalCode: Option<string>, notes: Option<string>)

  /** One line of an order, a snapshot of the product at the time. */
  datatype Line = Line(product: ProductId, name: string, price: int, quantity: int)

  datatype Fulfilment =
    | Pickup(point: nat, code: nat, deadline: Time, pickedUpAt: Option<Time>)
    | Delivery(address: Address, shippedAt: Option<Time>, deliveredAt: Option<Time>)

  datatype Order = Order(user: UserId, total: int, status: OrderStatus, lines: seq<Line>, fulfilment: Fulfilment)

  datatype PaymentStatus = Pending | Completed | Failed | Refunded

  function StampOnce(stamp: Option<Time>, now: Time): Option<Time> {
    if stamp.None? then Some(now) else stamp
  }

  /** The milestone a status change records: shipping on progress, handover on completion. */
  function Stamp(f: Fulfilment, target: OrderStatus, now: Time): Fulfilment {
    if target == OrderStatus.InProgress && f.Delivery? then f.(shippedAt := StampOnce(f.shippedAt, now))
    else if target == OrderStatus.Completed then
      if f.Pickup? then f.(pickedUpAt := StampOnce(f.pickedUpAt, now))
      else f.(deliveredAt := StampOnce(f.deliveredAt, now))
    else f
  }

  /** When the goods were handed over. */
  function HandedOver(f: Fulfilment): Option<Time> {
    if f.Pickup? then f.pickedUpAt else f.deliveredAt
  }

  /** Where an order goes, and the code and deadline of a pickup. */
  predicate SameDestination(a: Fulfilment, b: Fulfilment) {
    match a
    case Pickup(point, code, deadline, _) => b.Pickup? && b.point == point && b.code == code && b.deadline == deadline
    case Delivery(address, _, _) => b.Delivery? && b.address == address
  }

  /** The order a scheduled event becomes: one unit of one product, to be delivered. */
  function ScheduledOrder(user: UserId, price: int, product: ProductId, name: string, linePrice: int,
                          address: Address): Order {
    Order(user, price, OrderStatus.Created, [Line(product, name, linePrice, 1)], Delivery(address, None, None))
  }
}
