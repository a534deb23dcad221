/** How often the provider pays an order's charge back, against what our tables say. */
module OrderRefunds {
  import opened Wrappers
  import opened OrderStatuses
  import opened Shop
  import opened Orders
  import opened OrderRuns

  /** A payment and its charge are inserted together, so they stand at the same position. */
  ghost predicate Aligned(s: State) {
    |s.payments| == |s.ledger| && forall p :: 0 <= p < |s.payments| ==> s.payments[p].txn == Some(p)
  }

  lemma {:induction false} RunKeepsAligned(ops: seq<Op>)
    ensures Aligned(Run(EMPTY_STATE, ops))
  {
    if ops != [] {
      RunKeepsAligned(ops[..|ops| - 1]);
      StepKeepsAligned(Run(EMPTY_STATE, ops[..|ops| - 1]), ops[|ops| - 1]);
    }
  }

  lemma StepKeepsAligned(s: State, op: Op)
    requires Aligned(s)
    ensures Aligned(Step(s, op))
  {
  }

  /** A refund request that the provider carries out. */
  predicate Accepted(s: State, op: Op, t: TxnId) {
    && op.RefundOp? && op.accepts && op.p < |s.payments|
    && s.payments[op.p].status == PaymentStatus.Completed && s.payments[op.p].txn == Some(t)
  }

  /** The order's status lets it be refunded. */
  predicate MayRefund(s: State, op: Op)
    requires op.RefundOp? && op.p < |s.payments|
  {
    s.payments[op.p].order < |s.orders| && CanTransition(s.orders[s.payments[op.p].order].status, OrderStatus.Refunded)
  }

  /** The provider pays back, and then our side refuses. */
  predicate Stranded(s: State, op: Op, t: TxnId) {
    Accepted(s, op, t) && !MayRefund(s, op)
  }

  function StrandedCount(ops: seq<Op>, t: TxnId): nat
    decreases |ops|
  {
    if ops == [] then 0
    else
      var n := |ops| - 1;
      StrandedCount(ops[..n], t) + if Stranded(Run(EMPTY_STATE, ops[..n]), ops[n], t) then 1 else 0
  }

  /** The step strands a refund of some charge. */
  predicate Strands(s: State, op: Op) {
    op.RefundOp? && op.p < |s.payments| && s.payments[op.p].txn.Some? && Stranded(s, op, s.payments[op.p].txn.value)
  }

  /** No accepted request met an order that may not be refunded. */
  predicate NothingStranded(ops: seq<Op>)
    decreases |ops|
  {
    ops == [] ||
    var n := |ops| - 1;
    NothingStranded(ops[..n]) && !Strands(Run(EMPTY_STATE, ops[..n]), ops[n])
  }

  lemma StrandsSome(s: State, op: Op)
    ensures Strands(s, op) <==> exists t: TxnId :: Stranded(s, op, t)
  {
    if Strands(s, op) {
      assert Stranded(s, op, s.payments[op.p].txn.value);
    }
  }

  /** One step's effect on one charge and its payment. */
  lemma RefundStep(s: State, op: Op, t: TxnId)
    requires Aligned(s) && t < |s.ledger|
    ensures var r := Step(s, op);
            && t < |r.ledger| && t < |r.payments|
            && r.payments[t].order == s.payments[t].order
            && r.ledger[t].refunds == s.ledger[t].refunds + (if Accepted(s, op, t) then 1 else 0)
            && (r.payments[t].status == PaymentStatus.Refunded <==>
                s.payments[t].status == PaymentStatus.Refunded || (Accepted(s, op, t) && MayRefund(s, op)))
  {
  }

  lemma NewCharge(s: State, op: Op)
    requires Aligned(s) && |s.ledger| < |Step(s, op).ledger|
    ensures var r := Step(s, op);
            && |r.ledger| == |s.ledger| + 1 && |r.payments| == |r.ledger|
            && r.ledger[|s.ledger|].refunds == 0 && r.payments[|s.ledger|].status != PaymentStatus.Refunded
  {
  }

  lemma {:induction false} NotYetCharged(ops: seq<Op>, t: TxnId)
    requires t >= |Run(EMPTY_STATE, ops).ledger|
    ensures StrandedCount(ops, t) == 0
    decreases |ops|
  {
    if ops != [] {
      var before := Run(EMPTY_STATE, ops[..|ops| - 1]);
      RunKeepsAligned(ops[..|ops| - 1]);
      LedgerGrows(before, ops[|ops| - 1]);
      NotYetCharged(ops[..|ops| - 1], t);
    }
  }

  lemma LedgerGrows(s: State, op: Op)
    ensures |s.ledger| <= |Step(s, op).ledger|
  {
  }

  /** Once a request for a charge is stranded, its order is in a final status, so none can go through. */
  ghost predicate Counted(s: State, stranded: nat, t: TxnId)
    requires t < |s.ledger| && t < |s.payments|
  {
    var payment := s.payments[t];
    && s.ledger[t].refunds == stranded + (if payment.status == PaymentStatus.Refunded then 1 else 0)
    && (payment.status == PaymentStatus.Refunded ==> stranded == 0)
    && (stranded > 0 ==> payment.order < |s.orders|
                         && s.orders[payment.order].status in {OrderStatus.Cancelled, OrderStatus.Refunded, OrderStatus.Failed})
  }

  lemma CountedStep(s: State, op: Op, stranded: nat, t: TxnId)
    requires Aligned(s) && t < |s.ledger| && PaymentFits(s, s.payments[t]) && Counted(s, stranded, t)
    ensures t < |Step(s, op).ledger| && t < |Step(s, op).payments|
    ensures Counted(Step(s, op), stranded + (if Stranded(s, op, t) then 1 else 0), t)
  {
    RefundStep(s, op, t);
    EveryWriteIsAnEdge(s, op, s.payments[t].order);
  }

  lemma ReachablePaymentFits(ops: seq<Op>, p: PaymentId)
    requires p < |Run(EMPTY_STATE, ops).payments|
    ensures PaymentFits(Run(EMPTY_STATE, ops), Run(EMPTY_STATE, ops).payments[p])
  {
    EmptyStateInv();
    RunKeepsInv(EMPTY_STATE, ops);
  }

  lemma FirstCounted(s: State, op: Op, t: TxnId)
    requires Aligned(s) && |s.ledger| <= t < |Step(s, op).ledger|
    ensures !Stranded(s, op, t) && t < |Step(s, op).payments| && Counted(Step(s, op), 0, t)
  {
    NewCharge(s, op);
  }

  /**
    The books against the tables, charge by charge and over any run: the provider has paid a charge
    back once for every stranded request, and once more if its payment is marked refunded; and
    never both.
   */
  lemma {:induction false} RefundsAreCounted(ops: seq<Op>, t: TxnId)
    requires t < |Run(EMPTY_STATE, ops).ledger|
    ensures var s := Run(EMPTY_STATE, ops); t < |s.payments| && Counted(s, StrandedCount(ops, t), t)
    decreases |ops|
  {
    if ops != [] {
      var n := |ops| - 1;
      var before := Run(EMPTY_STATE, ops[..n]);
      RunKeepsAligned(ops[..n]);
      if t < |before.ledger| {
        RefundsAreCounted(ops[..n], t);
        ReachablePaymentFits(ops[..n], t);
        CountedStep(before, ops[n], StrandedCount(ops[..n], t), t);
      } else {
        NotYetCharged(ops[..n], t);
        FirstCounted(before, ops[n], t);
      }
    }
  }

  ghost predicate NoneCounted(ops: seq<Op>) {
    forall t: TxnId :: StrandedCount(ops, t) == 0
  }

  lemma OneMoreCounted(ops: seq<Op>)
    requires ops != []
    ensures NoneCounted(ops) <==>
            NoneCounted(ops[..|ops| - 1]) && !Strands(Run(EMPTY_STATE, ops[..|ops| - 1]), ops[|ops| - 1])
  {
    var n := |ops| - 1;
    var s, op := Run(EMPTY_STATE, ops[..n]), ops[n];
    StrandsSome(s, op);
    if NoneCounted(ops) {
      forall t: TxnId
        ensures StrandedCount(ops[..n], t) == 0 && !Stranded(s, op, t)
      {
        assert StrandedCount(ops, t) == 0;
      }
    }
    if NoneCounted(ops[..n]) && !Strands(s, op) {
      forall t: TxnId
        ensures StrandedCount(ops, t) == 0
      {
        assert StrandedCount(ops[..n], t) == 0 && !Stranded(s, op, t);
      }
    }
  }

  lemma {:induction false} NothingStrandedIff(ops: seq<Op>)
    ensures NothingStranded(ops) <==> NoneCounted(ops)
    decreases |ops|
  {
    if ops != [] {
      NothingStrandedIff(ops[..|ops| - 1]);
      OneMoreCounted(ops);
    }
  }

  /** Whether every charge has been paid back exactly as its payment says. */
  ghost predicate BooksMatch(s: State) {
    |s.payments| == |s.ledger| && forall t: TxnId :: t < |s.ledger| ==> PaidBackAsSaid(s, t)
  }

  predicate PaidBackAsSaid(s: State, t: TxnId)
    requires t < |s.ledger| && t < |s.payments|
  {
    s.ledger[t].refunds == if s.payments[t].status == PaymentStatus.Refunded then 1 else 0
  }

  /**
    The provider's books agree with our payments exactly when every accepted refund request met an
    order that was confirmed, in progress or completed.
   */
  lemma BooksMatchIff(ops: seq<Op>)
    ensures BooksMatch(Run(EMPTY_STATE, ops)) <==> NothingStranded(ops)
  {
    RunKeepsAligned(ops);
    NothingStrandedIff(ops);
    if NothingStranded(ops) {
      forall t: TxnId | t < |Run(EMPTY_STATE, ops).ledger|
        ensures PaidBackAsSaid(Run(EMPTY_STATE, ops), t)
      {
        RefundsAreCounted(ops, t);
        assert StrandedCount(ops, t) == 0;
      }
    }
    if BooksMatch(Run(EMPTY_STATE, ops)) {
      forall t: TxnId
        ensures StrandedCount(ops, t) == 0
      {
        NothingStrandedOf(ops, t);
      }
    }
  }

  lemma NothingStrandedOf(ops: seq<Op>, t: TxnId)
    requires BooksMatch(Run(EMPTY_STATE, ops))
    ensures StrandedCount(ops, t) == 0
  {
    if t < |Run(EMPTY_STATE, ops).ledger| {
      RefundsAreCounted(ops, t);
      assert PaidBackAsSaid(Run(EMPTY_STATE, ops), t);
    } else {
      NotYetCharged(ops, t);
    }
  }

  /** A charge is paid back at most once exactly when at most one request for it was stranded. */
  lemma PaidBackOnceIff(ops: seq<Op>, t: TxnId)
    requires t < |Run(EMPTY_STATE, ops).ledger|
    ensures Run(EMPTY_STATE, ops).ledger[t].refunds <= 1 <==> StrandedCount(ops, t) <= 1
  {
    RefundsAreCounted(ops, t);
  }

  // ------------------------------------------------------------------- a stranded refund

  const HOME := Address("John", "1", "Test street", "Kyiv", None, None)

  function Placed(): Op {
    CreateOp(0, map[7 := RawProduct("Coffee", 1250, true)], [RawItem(7, 1)], ToAddress(HOME), map[], i => 0, 0)
  }

  function PaidFor(): Op {
    ChargeOp(0, 0, "fake", t => true, 0)
  }

  function PlacedOrder(status: OrderStatus): Order {
    Order(0, 1250, status, [Line(7, "Coffee", 1250, 1)], Delivery(HOME, None, None))
  }

  function FailedOrder(refunds: nat): State {
    State([PlacedOrder(OrderStatus.Failed)],
          [Payment(0, 0, 1250, "fake", Some(0), PaymentStatus.Completed, Some(0))],
          [Charge(1250, true, refunds)])
  }

  lemma PlacedStep()
    ensures Step(EMPTY_STATE, Placed()) == State([PlacedOrder(OrderStatus.Created)], [], [])
  {
    var items: seq<Item> := [RawItem(7, 1)];
    assert FirstUnsellable(map[7 := RawProduct("Coffee", 1250, true)], items[1..]) == None;
    var lines := [Line(7, "Coffee", 1250, 1)];
    assert lines[..0] == [] && SumLines(lines) == 1250;
    assert LinesOf(map[7 := RawProduct("Coffee", 1250, true)], items) == lines;
  }

  lemma PaidForStep()
    ensures var paid := Step(State([PlacedOrder(OrderStatus.Created)], [], []), PaidFor());
            && paid == FailedOrder(0).(orders := [PlacedOrder(OrderStatus.Confirmed)])
            && Step(paid, UpdateOp(0, OrderStatus.Failed, 0)) == FailedOrder(0)
  {
  }

  lemma StrandedRefund(n: nat)
    ensures RefundPayment(FailedOrder(n), 0, true) ==
            (FailedOrder(n + 1), Err(InvalidTransition(OrderStatus.Failed, OrderStatus.Refunded)))
  {
    assert RefundPayment(FailedOrder(n), 0, true).0.ledger == FailedOrder(n + 1).ledger;
  }

  /**
    A paid order that staff then marked failed: our side refuses every refund request, and the
    provider carries every one of them out, as often as it is made.
   */
  lemma FailedOrderIsPaidBackAgain() returns (ops: seq<Op>)
    ensures Run(EMPTY_STATE, ops) == FailedOrder(0)
    ensures forall n: nat ::
              RefundPayment(FailedOrder(n), 0, true) ==
              (FailedOrder(n + 1), Err(InvalidTransition(OrderStatus.Failed, OrderStatus.Refunded)))
  {
    var one, two := [Placed()], [Placed(), PaidFor()];
    ops := [Placed(), PaidFor(), UpdateOp(0, OrderStatus.Failed, 0)];
    assert one[..0] == [] && two[..1] == one && ops[..2] == two;
    PlacedStep();
    assert Run(EMPTY_STATE, one) == Step(EMPTY_STATE, Placed());
    assert Run(EMPTY_STATE, two) == Step(Run(EMPTY_STATE, one), PaidFor());
    PaidForStep();
    assert Run(EMPTY_STATE, ops) == Step(Run(EMPTY_STATE, two), ops[2]);
    forall n: nat
      ensures RefundPayment(FailedOrder(n), 0, true) ==
              (FailedOrder(n + 1), Err(InvalidTransition(OrderStatus.Failed, OrderStatus.Refunded)))
    {
      StrandedRefund(n);
    }
  }
}
