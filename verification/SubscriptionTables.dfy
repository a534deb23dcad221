/**
  The tables the subscription engine works on. Rows are never deleted by this code, so a table
  is a sequence and a row's id is its position. Money is in cents.
 */
module SubscriptionTables {
  import opened Wrappers
  import opened Calendar
  import opened Frequency
  import opened OrderStatuses
  import opened Shop

  type MethodId = nat
  type SubId = nat
  type EventId = nat

  datatype SubscriptionStatus = Pending | Active | Paused | Cancelled | Completed

  datatype EventStatus = Pending | Ready | Paused | Completed | Cancelled

  datatype Subscription = Subscription(
    user: UserId, created: Date, frequency: Cadence, status: SubscriptionStatus, delivery: Option<Address>)

  datatype Snapshot = Snapshot(product: ProductId, name: string, price: int)

  datatype Event = Event(
    sub: SubId, date: Date, price: int, status: EventStatus, order: Option<OrderId>, product: Option<Snapshot>)

  datatype Payment = Payment(
    event: EventId, user: UserId, amount: int, txn: Option<TxnId>, status: PaymentStatus)

  /** What a provider charge was for: a whole first period, or one appended event. */
  datatype Purpose = Upfront(sub: SubId) | OffSession(event: EventId)

  /** One charge in the provider's own books, which no rollback of ours undoes. */
  datatype Charge = Charge(purpose: Purpose, amount: int, settled: bool, refunds: nat)

  /** Whether the provider settles a charge: an arbitrary function of the fresh transaction id. */
  type Provider = TxnId -> bool

  datatype State = State(
    subs: seq<Subscription>,
    events: seq<Event>,
    orders: seq<Order>,
    payments: seq<Payment>,
    ledger: seq<Charge>)

  const EMPTY_STATE := State([], [], [], [], [])

  /** `Subscription.events`: the subscription's event ids, oldest first. */
  function EventsOf(events: seq<Event>, k: SubId): (ids: seq<EventId>)
    ensures forall i :: 0 <= i < |ids| ==> ids[i] < |events| && events[ids[i]].sub == k
  {
    if events == [] then []
    else
      var n := |events| - 1;
      EventsOf(events[..n], k) + if events[n].sub == k then [n] else []
  }

  lemma {:induction false} EventsOfComplete(events: seq<Event>, k: SubId)
    ensures forall i, j :: 0 <= i < j < |EventsOf(events, k)| ==> EventsOf(events, k)[i] < EventsOf(events, k)[j]
    ensures forall e :: 0 <= e < |events| && events[e].sub == k ==> e in EventsOf(events, k)
  {
    if events != [] {
      EventsOfComplete(events[..|events| - 1], k);
    }
  }

  function DatesOf(events: seq<Event>, k: SubId): (dates: seq<Date>)
    ensures |dates| == |EventsOf(events, k)|
  {
    var ids := EventsOf(events, k);
    seq(|ids|, i requires 0 <= i < |ids| => events[ids[i]].date)
  }

  /** `func.max(scheduled_date)` over one subscription's events. */
  function MaxDate(events: seq<Event>, k: SubId): (last: Option<Date>) {
    if events == [] then None
    else
      var n := |events| - 1;
      var before := MaxDate(events[..n], k);
      if events[n].sub != k then before
      else if before.Some? && OnOrBefore(events[n].date, before.value) then before
      else Some(events[n].date)
  }

  function SumPrices(events: seq<Event>, ids: seq<EventId>): int
    requires forall i :: 0 <= i < |ids| ==> ids[i] < |events|
  {
    if ids == [] then 0
    else SumPrices(events, ids[..|ids| - 1]) + events[ids[|ids| - 1]].price
  }

  /** The amounts of the payment rows whose transaction is in `txns`. */
  function SumRows(payments: seq<Payment>, txns: set<TxnId>): int {
    if payments == [] then 0
    else
      var last := payments[|payments| - 1];
      SumRows(payments[..|payments| - 1], txns)
      + if last.txn.Some? && last.txn.value in txns then last.amount else 0
  }
}
