/** What holds of orders and payments over every run. */
module OrderRuns {
  import opened Wrappers
  import opened OrderStatuses
  import opened Shop
  import opened Orders

  datatype Op =
    | CreateOp(user: UserId, catalog: Catalog, items: seq<Item>, dest: Destination, points: Points,
               draws: nat -> nat, now: Time)
    | ScheduleOp(user: UserId, price: int, product: ProductId, name: string, address: Address)
    | CancelOp(o: OrderId, user: UserId)
    | UpdateOp(o: OrderId, target: OrderStatus, now: Time)
    | ChargeOp(o: OrderId, user: UserId, provider: string, settles: TxnId -> bool, now: Time)
    | CallbackOp(provider: string, txn: TxnId, report: Report, now: Time)
    | RefundOp(p: PaymentId, accepts: bool)

  /** An order the subscription scheduler creates costs the price of its one line. */
  function Step(s: State, op: Op): State {
    match op
    case ScheduleOp(user, price, product, name, address) =>
      s.(orders := s.orders + [ScheduledOrder(user, price, product, name, price, address)])
    case CreateOp(user, catalog, items, dest, points, draws, now) =>
      Create(s, user, catalog, items, dest, points, draws, now).0
    case CancelOp(o, user) => Cancel(s, o, user).0
    case UpdateOp(o, target, now) => UpdateStatus(s, o, target, now).0
    case ChargeOp(o, user, provider, settles, now) => ChargeForOrder(s, o, user, provider, settles, now).0
    case CallbackOp(provider, txn, report, now) => HandleCallback(s, provider, txn, report, now).0
    case RefundOp(p, accepts) => RefundPayment(s, p, accepts).0
  }

  function Run(s: State, ops: seq<Op>): State {
    if ops == [] then s else Step(Run(s, ops[..|ops| - 1]), ops[|ops| - 1])
  }

  predicate OrderFits(order: Order) {
    && order.lines != []
    && order.total == SumLines(order.lines)
    && (order.status == OrderStatus.Completed ==> HandedOver(order.fulfilment).Some?)
    && (HandedOver(order.fulfilment).Some? ==> order.status in {OrderStatus.Completed, OrderStatus.Refunded})
  }

  predicate PaymentFits(s: State, p: Payment) {
    && p.order < |s.orders|
    && p.amount == s.orders[p.order].total
    && p.user == s.orders[p.order].user
    && p.txn.Some? && p.txn.value < |s.ledger| && s.ledger[p.txn.value].amount == p.amount
    && (p.status in {PaymentStatus.Completed, PaymentStatus.Refunded} ==>
          s.orders[p.order].status != OrderStatus.Created && p.completedAt.Some?)
    && (p.status == PaymentStatus.Refunded ==>
          s.orders[p.order].status == OrderStatus.Refunded && s.ledger[p.txn.value].refunds >= 1)
  }

  ghost predicate Inv(s: State) {
    && (forall o :: 0 <= o < |s.orders| ==> OrderFits(s.orders[o]))
    && (forall a, b | 0 <= a < b < |s.orders| ::
          s.orders[a].fulfilment.Pickup? && s.orders[b].fulfilment.Pickup?
          ==> s.orders[a].fulfilment.code != s.orders[b].fulfilment.code)
    && (forall p :: 0 <= p < |s.payments| ==> PaymentFits(s, s.payments[p]))
    && (forall p, q | 0 <= p < q < |s.payments| ::
          && s.payments[p].txn != s.payments[q].txn
          && (s.payments[p].status == PaymentStatus.Refunded && s.payments[q].status == PaymentStatus.Refunded
              ==> s.payments[p].order != s.payments[q].order))
  }

  lemma {:induction false} FreeCodeIsFree(orders: seq<Order>, draws: nat -> nat, from: nat, attempts: nat)
    ensures FreeCode(orders, draws, from, attempts).Some? ==>
              !CodeTaken(orders, FreeCode(orders, draws, from, attempts).value)
    ensures FreeCode(orders, draws, from, attempts).None? <==>
            forall i :: from <= i < from + attempts ==> CodeTaken(orders, draws(i))
    decreases attempts
  {
    if attempts > 0 {
      FreeCodeIsFree(orders, draws, from + 1, attempts - 1);
    }
  }

  /** The items a shop can sell today. */
  predicate AllSellable(catalog: Catalog, items: seq<Item>) {
    forall i :: 0 <= i < |items| ==> items[i].product in catalog && catalog[items[i].product].active
  }

  lemma {:induction false} SellableIff(catalog: Catalog, items: seq<Item>)
    ensures FirstUnsellable(catalog, items).None? <==> AllSellable(catalog, items)
  {
    if items != [] {
      SellableIff(catalog, items[1..]);
      assert forall i :: 1 <= i < |items| ==> items[i] == items[1..][i - 1];
      assert AllSellable(catalog, items) ==> AllSellable(catalog, items[1..]) by {
        assert forall i :: 0 <= i < |items| - 1 ==> items[1..][i] == items[i + 1];
      }
    }
  }

  predicate Reachable(s: State, dest: Destination, points: Points, draws: nat -> nat) {
    dest.ToPoint? ==> dest.point in points && points[dest.point] == Point(true, true)
                      && exists i :: 0 <= i < PICKUP_CODE_ATTEMPTS && !CodeTaken(s.orders, draws(i))
  }

  /**
    An order is accepted exactly when it has items, all of them can be sold, and it can be handed
    over; it then costs the catalogue prices of the day times the quantities, line by line.
   */
  lemma CreateOutcome(s: State, user: UserId, catalog: Catalog, items: seq<Item>, dest: Destination, points: Points,
                      draws: nat -> nat, now: Time)
    ensures var (r, result) := Create(s, user, catalog, items, dest, points, draws, now);
            && (result.Ok? <==> items != [] && AllSellable(catalog, items) && Reachable(s, dest, points, draws))
            && (result.Err? ==> r == s)
            && (result.Ok? ==>
                  && |r.orders| == |s.orders| + 1 && r.orders[..|s.orders|] == s.orders
                  && IsReceipt(r.orders[|s.orders|], user, catalog, items))
  {
    SellableIff(catalog, items);
    FreeCodeIsFree(s.orders, draws, 0, PICKUP_CODE_ATTEMPTS);
    assert Reachable(s, dest, points, draws) <==> Fulfil(s, dest, points, draws, now).Ok?;
  }

  predicate IsReceipt(order: Order, user: UserId, catalog: Catalog, items: seq<Item>) {
    && order.user == user && order.status == OrderStatus.Created && HandedOver(order.fulfilment).None?
    && order.total == SumLines(order.lines) && |order.lines| == |items|
    && forall i :: 0 <= i < |items| ==>
         && order.lines[i].product == items[i].product && order.lines[i].quantity == items[i].quantity
         && items[i].product in catalog && order.lines[i].price == catalog[items[i].product].price
         && order.lines[i].name == catalog[items[i].product].name
  }

  lemma NewOrderKeepsInv(s: State, r: State, order: Order)
    requires Inv(s) && r == s.(orders := s.orders + [order]) && OrderFits(order)
    requires order.fulfilment.Pickup? ==> !CodeTaken(s.orders, order.fulfilment.code)
    ensures Inv(r)
  {
    forall p | 0 <= p < |r.payments|
      ensures PaymentFits(r, r.payments[p])
    {
      assert PaymentFits(s, s.payments[p]);
    }
  }

  lemma ScheduleKeepsInv(s: State, op: Op)
    requires Inv(s) && op.ScheduleOp?
    ensures Inv(Step(s, op))
  {
    var order := ScheduledOrder(op.user, op.price, op.product, op.name, op.price, op.address);
    assert order.lines[..0] == [];
    NewOrderKeepsInv(s, Step(s, op), order);
  }

  lemma CreateKeepsInv(s: State, op: Op)
    requires Inv(s) && op.CreateOp?
    ensures Inv(Step(s, op))
  {
    FreeCodeIsFree(s.orders, op.draws, 0, PICKUP_CODE_ATTEMPTS);
    var r := Step(s, op);
    if r.orders != s.orders {
      NewOrderKeepsInv(s, r, r.orders[|s.orders|]);
    }
  }

  /** A status write along an edge of the graph, from whichever writer, keeps orders and payments in order. */
  lemma OrderMoveKeepsInv(s: State, r: State, o: OrderId)
    requires Inv(s) && o < |s.orders| && |r.orders| == |s.orders|
    requires CanTransition(s.orders[o].status, r.orders[o].status)
    requires r == s.(orders := s.orders[o := r.orders[o]])
    requires r.orders[o] == s.orders[o].(status := r.orders[o].status, fulfilment := r.orders[o].fulfilment)
    requires OrderFits(r.orders[o])
    requires r.orders[o].fulfilment.Pickup? ==>
               s.orders[o].fulfilment.Pickup? && r.orders[o].fulfilment.code == s.orders[o].fulfilment.code
    ensures Inv(r)
  {
    forall p | 0 <= p < |r.payments|
      ensures PaymentFits(r, r.payments[p])
    {
      assert PaymentFits(s, s.payments[p]);
    }
  }

  lemma StatusStepKeepsInv(s: State, op: Op)
    requires Inv(s) && (op.CancelOp? || op.UpdateOp?)
    ensures Inv(Step(s, op))
  {
    var r := Step(s, op);
    if op.o < |s.orders| && r != s {
      assert OrderFits(s.orders[op.o]);
      OrderMoveKeepsInv(s, r, op.o);
    }
  }

  lemma ChargeKeepsInv(s: State, op: Op)
    requires Inv(s) && op.ChargeOp?
    ensures Inv(Step(s, op))
  {
    var r := Step(s, op);
    if |r.payments| > |s.payments| {
      forall o | 0 <= o < |r.orders|
        ensures OrderFits(r.orders[o])
      {
        assert OrderFits(s.orders[o]);
      }
      forall p | 0 <= p < |r.payments|
        ensures PaymentFits(r, r.payments[p])
      {
        if p < |s.payments| {
          assert PaymentFits(s, s.payments[p]);
        }
      }
      forall p | 0 <= p < |s.payments|
        ensures s.payments[p].txn != Some(|s.ledger|)
      {
        assert PaymentFits(s, s.payments[p]);
      }
    }
  }

  /** A payment leaving the pending status without a refund. */
  lemma PaymentSettledKeepsInv(s: State, r: State, p: PaymentId)
    requires Inv(s) && p < |s.payments| && |r.payments| == |s.payments|
    requires r == s.(payments := s.payments[p := r.payments[p]])
    requires r.payments[p].txn == s.payments[p].txn && r.payments[p].order == s.payments[p].order
    requires r.payments[p].status != PaymentStatus.Refunded && PaymentFits(s, r.payments[p])
    ensures Inv(r)
  {
    forall q | 0 <= q < |r.payments|
      ensures PaymentFits(r, r.payments[q])
    {
      assert PaymentFits(s, s.payments[q]);
    }
  }

  lemma CallbackKeepsInv(s: State, op: Op)
    requires Inv(s) && op.CallbackOp?
    ensures Inv(Step(s, op))
  {
    var r := Step(s, op);
    if r != s {
      var p := FindPayment(s.payments, op.provider, op.txn).value;
      var o := s.payments[p].order;
      assert PaymentFits(s, s.payments[p]);
      assert OrderFits(s.orders[o]);
      var m := s.(orders := r.orders);
      if r.orders != s.orders {
        OrderMoveKeepsInv(s, m, o);
      }
      PaymentSettledKeepsInv(m, r, p);
    }
  }

  lemma RefundKeepsInv(s: State, op: Op)
    requires Inv(s) && op.RefundOp?
    ensures Inv(Step(s, op))
  {
    var r := Step(s, op);
    if r != s {
      assert PaymentFits(s, s.payments[op.p]);
      assert OrderFits(s.orders[s.payments[op.p].order]);
      forall p | 0 <= p < |r.payments|
        ensures PaymentFits(r, r.payments[p])
      {
        assert PaymentFits(s, s.payments[p]);
      }
    }
  }

  lemma {:induction false} RunKeepsInv(s: State, ops: seq<Op>)
    requires Inv(s)
    ensures Inv(Run(s, ops))
  {
    if ops != [] {
      var before, op := Run(s, ops[..|ops| - 1]), ops[|ops| - 1];
      RunKeepsInv(s, ops[..|ops| - 1]);
      match op
      case CreateOp(_, _, _, _, _, _, _) => CreateKeepsInv(before, op);
      case ScheduleOp(_, _, _, _, _) => ScheduleKeepsInv(before, op);
      case CancelOp(_, _) => StatusStepKeepsInv(before, op);
      case UpdateOp(_, _, _) => StatusStepKeepsInv(before, op);
      case ChargeOp(_, _, _, _, _) => ChargeKeepsInv(before, op);
      case CallbackOp(_, _, _, _) => CallbackKeepsInv(before, op);
      case RefundOp(_, _) => RefundKeepsInv(before, op);
    }
  }

  lemma EmptyStateInv()
    ensures Inv(EMPTY_STATE)
  {
  }

  /** Orders and payments agree in every reachable state. */
  lemma OrdersAndPaymentsAgree(ops: seq<Op>, p: PaymentId)
    requires p < |Run(EMPTY_STATE, ops).payments|
    ensures var s := Run(EMPTY_STATE, ops);
            var payment := s.payments[p];
            && payment.order < |s.orders|
            && var order := s.orders[payment.order];
               && payment.amount == order.total == SumLines(order.lines)
               && (payment.status in {PaymentStatus.Completed, PaymentStatus.Refunded} ==> order.status != OrderStatus.Created)
               && (payment.status == PaymentStatus.Refunded ==> order.status == OrderStatus.Refunded)
               && (forall q :: 0 <= q < |s.payments| && q != p && s.payments[q].order == payment.order ==>
                     !(payment.status == PaymentStatus.Refunded && s.payments[q].status == PaymentStatus.Refunded))
  {
    EmptyStateInv();
    RunKeepsInv(EMPTY_STATE, ops);
    var s := Run(EMPTY_STATE, ops);
    assert PaymentFits(s, s.payments[p]);
    assert OrderFits(s.orders[s.payments[p].order]);
  }

  // ------------------------------------------------------------------ status history

  /** Whoever writes, an order's status stays or follows an edge; the rest of the order is fixed. */
  lemma EveryWriteIsAnEdge(s: State, op: Op, o: OrderId)
    requires o < |s.orders|
    ensures var r := Step(s, op);
            && o < |r.orders|
            && (r.orders[o].status == s.orders[o].status || CanTransition(s.orders[o].status, r.orders[o].status))
            && r.orders[o].total == s.orders[o].total && r.orders[o].lines == s.orders[o].lines
            && r.orders[o].user == s.orders[o].user
            && (HandedOver(s.orders[o].fulfilment).Some? ==>
                  HandedOver(r.orders[o].fulfilment) == HandedOver(s.orders[o].fulfilment))
            && (HandedOver(s.orders[o].fulfilment).None? && HandedOver(r.orders[o].fulfilment).Some? ==>
                  r.orders[o].status == OrderStatus.Completed)
            && SameDestination(s.orders[o].fulfilment, r.orders[o].fulfilment)
  {
  }

  /** An order is cancelled by its owner only, and only before anything was confirmed. */
  lemma OnlyTheOwnerCancels(s: State, op: Op, o: OrderId)
    requires o < |s.orders| && s.orders[o].status != OrderStatus.Cancelled
    requires o < |Step(s, op).orders| && Step(s, op).orders[o].status == OrderStatus.Cancelled
    ensures op == CancelOp(o, s.orders[o].user) && s.orders[o].status == OrderStatus.Created
  {
    EveryWriteIsAnEdge(s, op, o);
  }

  /** A shipping stamp appears with the move to in progress, and then stays as it is. */
  lemma ShippingStamp(s: State, op: Op, o: OrderId)
    requires o < |s.orders| && s.orders[o].fulfilment.Delivery?
    ensures o < |Step(s, op).orders| && Step(s, op).orders[o].fulfilment.Delivery?
    ensures var before, after := s.orders[o], Step(s, op).orders[o];
            after.fulfilment.shippedAt.Some? <==>
            before.fulfilment.shippedAt.Some?
            || (before.status != OrderStatus.InProgress && after.status == OrderStatus.InProgress)
    ensures s.orders[o].fulfilment.shippedAt.Some? ==>
              Step(s, op).orders[o].fulfilment.shippedAt == s.orders[o].fulfilment.shippedAt
  {
  }

  function StatusHistory(s: State, ops: seq<Op>, o: OrderId): (h: seq<OrderStatus>)
    requires o < |s.orders|
    ensures |h| == |ops| + 1
    ensures o < |Run(s, ops).orders| && h[|ops|] == Run(s, ops).orders[o].status
  {
    if ops == [] then [s.orders[o].status]
    else
      var n := |ops| - 1;
      var before := StatusHistory(s, ops[..n], o);
      EveryWriteIsAnEdge(Run(s, ops[..n]), ops[n], o);
      before + [Run(s, ops).orders[o].status]
  }

  lemma {:induction false} StatusHistoryIsHistory(s: State, ops: seq<Op>, o: OrderId)
    requires o < |s.orders|
    ensures IsHistory(StatusHistory(s, ops, o))
  {
    if ops != [] {
      var n := |ops| - 1;
      StatusHistoryIsHistory(s, ops[..n], o);
      EveryWriteIsAnEdge(Run(s, ops[..n]), ops[n], o);
      var before := StatusHistory(s, ops[..n], o);
      var h := StatusHistory(s, ops, o);
      forall i {:trigger h[i]} | 0 < i < |h|
        ensures h[i] == h[i - 1] || CanTransition(h[i - 1], h[i])
      {
        assert i < |before| ==> h[i] == before[i] && h[i - 1] == before[i - 1];
      }
    }
  }

  /** Over any run, by any writers, one order changes status at most four times. */
  lemma StatusChangesAtMostFourTimes(s: State, ops: seq<Op>, o: OrderId)
    requires o < |s.orders|
    ensures Changes(StatusHistory(s, ops, o)) <= 4
  {
    StatusHistoryIsHistory(s, ops, o);
    AtMostFourChanges(StatusHistory(s, ops, o));
  }

  /** The handover stamp is set exactly when the order has at some point been completed, and then stays. */
  lemma {:induction false} StampedIffCompleted(s: State, ops: seq<Op>, o: OrderId)
    requires Inv(s) && o < |s.orders| && HandedOver(s.orders[o].fulfilment).None?
    ensures o < |Run(s, ops).orders|
    ensures HandedOver(Run(s, ops).orders[o].fulfilment).Some? <==>
            OrderStatus.Completed in StatusHistory(s, ops, o)
  {
    RunKeepsInv(s, ops);
    var r := Run(s, ops);
    var h := StatusHistory(s, ops, o);
    assert OrderFits(r.orders[o]);
    if ops != [] {
      var n := |ops| - 1;
      var before := StatusHistory(s, ops[..n], o);
      StampedIffCompleted(s, ops[..n], o);
      EveryWriteIsAnEdge(Run(s, ops[..n]), ops[n], o);
      assert h == before + [r.orders[o].status];
    }
  }

  /** A delivery is stamped as shipped exactly when the order has at some point been in progress. */
  lemma {:induction false} ShippedIffInProgress(s: State, ops: seq<Op>, o: OrderId)
    requires o < |s.orders| && s.orders[o].fulfilment.Delivery?
    requires s.orders[o].fulfilment.shippedAt.None? && s.orders[o].status != OrderStatus.InProgress
    ensures o < |Run(s, ops).orders| && Run(s, ops).orders[o].fulfilment.Delivery?
    ensures Run(s, ops).orders[o].fulfilment.shippedAt.Some? <==> OrderStatus.InProgress in StatusHistory(s, ops, o)
  {
    var h := StatusHistory(s, ops, o);
    if ops == [] {
      assert h == [s.orders[o].status];
    } else {
      var n := |ops| - 1;
      var before := StatusHistory(s, ops[..n], o);
      ShippedIffInProgress(s, ops[..n], o);
      ShippingStamp(Run(s, ops[..n]), ops[n], o);
      assert h == before + [Run(s, ops).orders[o].status];
      assert before[n] in before;
    }
  }

  /** Totals, lines and stamps once written are what they are after any run. */
  lemma {:induction false} OrdersKeepTheirTerms(s: State, ops: seq<Op>, o: OrderId)
    requires o < |s.orders|
    ensures o < |Run(s, ops).orders|
    ensures Run(s, ops).orders[o].total == s.orders[o].total && Run(s, ops).orders[o].lines == s.orders[o].lines
    ensures SameDestination(s.orders[o].fulfilment, Run(s, ops).orders[o].fulfilment)
    ensures HandedOver(s.orders[o].fulfilment).Some? ==>
              HandedOver(Run(s, ops).orders[o].fulfilment) == HandedOver(s.orders[o].fulfilment)
  {
    if ops != [] {
      var n := |ops| - 1;
      OrdersKeepTheirTerms(s, ops[..n], o);
      EveryWriteIsAnEdge(Run(s, ops[..n]), ops[n], o);
    }
  }

  // ---------------------------------------------------------------------- callbacks

  /** A callback about a payment that is no longer pending changes nothing. */
  lemma TerminalCallbackIsIgnored(s: State, op: Op)
    requires op.CallbackOp? && FindPayment(s.payments, op.provider, op.txn).Some?
    requires Terminal(s.payments[FindPayment(s.payments, op.provider, op.txn).value].status)
    ensures Step(s, op) == s
  {
  }

  /** Settling a payment does not change which payment a transaction id names. */
  lemma {:induction false} FindPaymentByKey(a: seq<Payment>, b: seq<Payment>, provider: string, txn: TxnId)
    requires |a| == |b| && forall p :: 0 <= p < |a| ==> a[p].txn == b[p].txn && a[p].provider == b[p].provider
    ensures FindPayment(a, provider, txn) == FindPayment(b, provider, txn)
    decreases |a|
  {
    if a != [] {
      FindPaymentByKey(a[..|a| - 1], b[..|b| - 1], provider, txn);
    }
  }

  /** In any state, pending payments included, the first report accepted for a transaction is the last to have an effect. */
  lemma FirstReportWins(s: State, provider: string, txn: TxnId, first: Report, t: Time, second: Report, u: Time)
    requires HandleCallback(s, provider, txn, first, t).1.Ok?
    ensures HandleCallback(HandleCallback(s, provider, txn, first, t).0, provider, txn, second, u) ==
            HandleCallback(s, provider, txn, first, t)
  {
    var r := HandleCallback(s, provider, txn, first, t).0;
    FindPaymentByKey(s.payments, r.payments, provider, txn);
    TerminalCallbackIsIgnored(r, CallbackOp(provider, txn, second, u));
  }

  ghost predicate NoPending(s: State) {
    forall p :: 0 <= p < |s.payments| ==> Terminal(s.payments[p].status)
  }

  lemma {:induction false} RunLeavesNoPending(s: State, ops: seq<Op>)
    requires NoPending(s)
    ensures NoPending(Run(s, ops))
  {
    if ops != [] {
      RunLeavesNoPending(s, ops[..|ops| - 1]);
    }
  }

  /**
    A charge is settled or failed before it is stored, so from empty tables no payment is ever
    pending: however many callbacks arrive, none of them changes anything.
   */
  lemma CallbacksNeverAct(ops: seq<Op>, op: Op)
    requires op.CallbackOp?
    ensures Step(Run(EMPTY_STATE, ops), op) == Run(EMPTY_STATE, ops)
  {
    RunLeavesNoPending(EMPTY_STATE, ops);
  }

  /** A refund goes through exactly when the order is on its way or done; else only the provider has refunded. */
  lemma RefundOutcome(s: State, p: PaymentId)
    requires Inv(s) && p < |s.payments| && s.payments[p].status == PaymentStatus.Completed
    ensures var (r, result) := RefundPayment(s, p, true);
            var o := s.payments[p].order;
            var t := s.payments[p].txn.value;
            && r.ledger[t].refunds == s.ledger[t].refunds + 1
            && (result.Ok? <==> s.orders[o].status in {OrderStatus.Confirmed, OrderStatus.InProgress, OrderStatus.Completed})
            && (result.Ok? ==> r.payments[p].status == PaymentStatus.Refunded && r.orders[o].status == OrderStatus.Refunded)
            && (result.Err? ==> r.payments == s.payments && r.orders == s.orders)
  {
    assert PaymentFits(s, s.payments[p]);
  }
}
