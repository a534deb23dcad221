/** What a cancellation with a provider gives back, in the provider's books and in our rows. */
module Cancellation {
  import opened Wrappers
  import opened OrderStatuses
  import opened Shop
  import opened SubscriptionTables
  import opened SubscriptionSteps
  import opened SubscriptionInvariant
  import opened SubscriptionPreservation
  import opened SubscriptionRuns

  /** The amounts charged by the first `n` transactions that are in `txns`. */
  function ChargedTotal(ledger: seq<Charge>, txns: set<TxnId>, n: nat): int
    requires n <= |ledger|
  {
    if n == 0 then 0
    else ChargedTotal(ledger, txns, n - 1) + if n - 1 in txns then ledger[n - 1].amount else 0
  }

  /** The amounts of the rows of `txns` that carry one status. */
  function SumByStatus(payments: seq<Payment>, txns: set<TxnId>, status: PaymentStatus): int {
    if payments == [] then 0
    else
      var p := payments[|payments| - 1];
      SumByStatus(payments[..|payments| - 1], txns, status)
      + if p.txn.Some? && p.txn.value in txns && p.status == status then p.amount else 0
  }

  /** Charges and rows agree on any set of settled transactions, not only one at a time. */
  lemma {:induction false} RowsMatchCharges(s: State, txns: set<TxnId>, n: nat)
    requires Money(s) && n <= |s.ledger|
    requires forall t :: t in txns && t < |s.ledger| ==> s.ledger[t].settled
    ensures ChargedTotal(s.ledger, txns, n) == SumRows(s.payments, set t | t in txns && t < n)
  {
    var upTo := set t | t in txns && t < n;
    if n == 0 {
      SumRowsUnused(s.payments, upTo);
    } else {
      var before := set t | t in txns && t < n - 1;
      RowsMatchCharges(s, txns, n - 1);
      if n - 1 in txns {
        assert upTo == before + {n - 1};
        SumRowsDisjoint(s.payments, before, {n - 1});
        assert ChargeFits(s, n - 1);
      } else {
        assert upTo == before;
      }
    }
  }

  lemma {:induction false} TwoStatuses(payments: seq<Payment>, txns: set<TxnId>)
    requires forall j :: 0 <= j < |payments| && payments[j].txn.Some? && payments[j].txn.value in txns ==>
                           payments[j].status in {PaymentStatus.Completed, PaymentStatus.Refunded}
    ensures SumRows(payments, txns) ==
            SumByStatus(payments, txns, PaymentStatus.Refunded) + SumByStatus(payments, txns, PaymentStatus.Completed)
  {
    if payments != [] {
      TwoStatuses(payments[..|payments| - 1], txns);
    }
  }

  lemma {:induction false} KeptIsPositive(payments: seq<Payment>, txns: set<TxnId>)
    requires forall j :: 0 <= j < |payments| ==> payments[j].amount > 0
    ensures SumByStatus(payments, txns, PaymentStatus.Completed) >= 0
    ensures SumByStatus(payments, txns, PaymentStatus.Completed) == 0 <==>
            forall j :: 0 <= j < |payments| && payments[j].txn.Some? && payments[j].txn.value in txns ==>
                          payments[j].status != PaymentStatus.Completed
  {
    if payments != [] {
      var n := |payments| - 1;
      var before := payments[..n];
      KeptIsPositive(before, txns);
      assert forall j :: 0 <= j < n ==> before[j] == payments[j];
    }
  }

  ghost predicate CancelsWithProvider(s: State, k: SubId, user: UserId) {
    Cancel(s, k, user, true).1.Ok?
  }

  /** A row of a refunded transaction belongs to `k`, and is refunded unless its event was delivered. */
  lemma RowsOfRefundedTxn(s: State, k: SubId, user: UserId, j: nat)
    requires Inv(s) && CancelsWithProvider(s, k, user)
    requires j < |s.payments| && s.payments[j].txn.Some? && s.payments[j].txn.value in RefundedTxns(s, k)
    ensures var p := s.payments[j];
            && p.event < |s.events| && s.events[p.event].sub == k
            && Cancel(s, k, user, true).0.payments[j].status ==
               if s.events[p.event].status.Completed? then PaymentStatus.Completed else PaymentStatus.Refunded
  {
    var p := s.payments[j];
    assert RowFits(s, p);
    TxnsOfUnpaidSub(s, k, p.txn.value);
    assert ChargeFits(s, p.txn.value);
    assert EventFits(s, s.events[p.event]);
  }

  /** Each transaction behind an undelivered payment is refunded exactly now, and no other. */
  lemma RefundsFirstAndOnly(s: State, k: SubId, user: UserId, t: TxnId)
    requires Inv(s) && CancelsWithProvider(s, k, user) && t < |s.ledger|
    ensures var r := Cancel(s, k, user, true).0;
            if t in RefundedTxns(s, k) then s.ledger[t].refunds == 0 && r.ledger[t].refunds == 1
            else r.ledger[t] == s.ledger[t]
  {
    assert ChargeFits(s, t);
    if t in RefundedTxns(s, k) {
      TxnsOfUnpaidSub(s, k, t);
    }
  }

  /** `after` is `before` with the rows of `txns` settled by whether their event was delivered. */
  ghost predicate Settles(s: State, txns: set<TxnId>, before: seq<Payment>, after: seq<Payment>) {
    && |after| == |before|
    && (forall j :: 0 <= j < |before| ==> before[j].event < |s.events|)
    && (forall j :: 0 <= j < |before| ==>
          && after[j].amount == before[j].amount && before[j].amount > 0
          && after[j].txn == before[j].txn
          && (before[j].txn.Some? && before[j].txn.value in txns ==>
                after[j].status == if s.events[before[j].event].status.Completed?
                                   then PaymentStatus.Completed else PaymentStatus.Refunded))
  }

  lemma CancelSettles(s: State, k: SubId, user: UserId)
    requires Inv(s) && CancelsWithProvider(s, k, user)
    ensures Settles(s, RefundedTxns(s, k), s.payments, Cancel(s, k, user, true).0.payments)
  {
    forall j | 0 <= j < |s.payments|
      ensures s.payments[j].amount > 0 && s.payments[j].event < |s.events|
    {
      assert RowFits(s, s.payments[j]);
      assert EventFits(s, s.events[s.payments[j].event]);
    }
    forall j | 0 <= j < |s.payments| && s.payments[j].txn.Some? && s.payments[j].txn.value in RefundedTxns(s, k)
      ensures Cancel(s, k, user, true).0.payments[j].status ==
              if s.events[s.payments[j].event].status.Completed? then PaymentStatus.Completed else PaymentStatus.Refunded
    {
      RowsOfRefundedTxn(s, k, user, j);
    }
  }

  lemma SettledRowsAddUp(s: State, txns: set<TxnId>, before: seq<Payment>, after: seq<Payment>)
    requires Settles(s, txns, before, after)
    ensures SumRows(before, txns) == SumByStatus(after, txns, PaymentStatus.Refunded)
                                     + SumByStatus(after, txns, PaymentStatus.Completed)
    ensures SumByStatus(after, txns, PaymentStatus.Completed) >= 0
    ensures SumByStatus(after, txns, PaymentStatus.Completed) == 0 <==>
            forall j :: 0 <= j < |before| && before[j].txn.Some? && before[j].txn.value in txns ==>
                          !s.events[before[j].event].status.Completed?
  {
    SumRowsByContent(before, after, txns);
    TwoStatuses(after, txns);
    KeptIsPositive(after, txns);
  }

  lemma RefundedChargesMatchRows(s: State, k: SubId)
    requires Money(s)
    ensures ChargedTotal(s.ledger, RefundedTxns(s, k), |s.ledger|) == SumRows(s.payments, RefundedTxns(s, k))
  {
    var txns := RefundedTxns(s, k);
    forall t | t in txns
      ensures t < |s.ledger| && s.ledger[t].settled
    {
      TxnsOfUnpaidSub(s, k, t);
    }
    RowsMatchCharges(s, txns, |s.ledger|);
    assert txns == set t | t in txns && t < |s.ledger|;
  }

  /**
    What the provider pays back is exactly the rows marked refunded plus the rows of delivered
    events; so it is never less than the rows, and equal exactly when no delivered event shares
    a refunded transaction.
   */
  lemma CancelAccounts(s: State, k: SubId, user: UserId)
    requires Inv(s) && CancelsWithProvider(s, k, user)
    ensures var r := Cancel(s, k, user, true).0;
            var txns := RefundedTxns(s, k);
            var paidBack := ChargedTotal(s.ledger, txns, |s.ledger|);
            var marked := SumByStatus(r.payments, txns, PaymentStatus.Refunded);
            && paidBack == marked + SumByStatus(r.payments, txns, PaymentStatus.Completed)
            && marked <= paidBack
            && (marked == paidBack <==>
                forall j :: 0 <= j < |s.payments| && s.payments[j].txn.Some? && s.payments[j].txn.value in txns ==>
                              !(s.payments[j].event < |s.events| && s.events[s.payments[j].event].status.Completed?))
  {
    CancelSettles(s, k, user);
    RefundedChargesMatchRows(s, k);
    SettledRowsAddUp(s, RefundedTxns(s, k), s.payments, Cancel(s, k, user, true).0.payments);
  }

  /** Every transaction the provider has ever refunded. */
  function AllRefunded(s: State): set<TxnId> {
    set t: TxnId | t < |s.ledger| && s.ledger[t].refunds > 0
  }

  /** In every reachable state the refunded rows are covered by the refunds the provider made. */
  lemma RefundedRowsAreCovered(ops: seq<Op>)
    requires LegalRun(EMPTY_STATE, ops)
    ensures var s := Run(EMPTY_STATE, ops);
            var paidBack := ChargedTotal(s.ledger, AllRefunded(s), |s.ledger|);
            && paidBack == SumByStatus(s.payments, AllRefunded(s), PaymentStatus.Refunded)
                           + SumByStatus(s.payments, AllRefunded(s), PaymentStatus.Completed)
            && (forall j :: 0 <= j < |s.payments| && s.payments[j].status.Refunded? ==>
                              s.payments[j].txn.Some? && s.payments[j].txn.value in AllRefunded(s))
  {
    EmptyStateInv();
    RunKeepsInv(EMPTY_STATE, ops);
    var s := Run(EMPTY_STATE, ops);
    var txns := AllRefunded(s);
    forall t | t in txns
      ensures s.ledger[t].settled
    {
      assert ChargeFits(s, t);
    }
    RowsMatchCharges(s, txns, |s.ledger|);
    assert txns == set t | t in txns && t < |s.ledger|;
    forall j | 0 <= j < |s.payments|
      ensures s.payments[j].status.Refunded? ==> s.payments[j].txn.Some? && s.payments[j].txn.value in txns
      ensures s.payments[j].txn.Some? && s.payments[j].txn.value in txns ==>
                s.payments[j].status in {PaymentStatus.Completed, PaymentStatus.Refunded}
    {
      assert RowFits(s, s.payments[j]);
    }
    TwoStatuses(s.payments, txns);
  }
}
