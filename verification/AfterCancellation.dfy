/** What stays paid of a cancelled subscription, right away and in every later state. */
module AfterCancellation {
  import opened Wrappers
  import opened Calendar
  import opened Frequency
  import opened OrderStatuses
  import opened Shop
  import opened SubscriptionTables
  import opened SubscriptionSteps
  import opened SubscriptionInvariant
  import opened SubscriptionPreservation
  import opened SubscriptionRuns
  import opened Cancellation

  predicate IsRowOf(s: State, p: Payment, k: SubId) {
    p.event < |s.events| && s.events[p.event].sub == k
  }

  /** `k` is cancelled, and a completed payment of its sits only on a completed event. */
  ghost predicate OnlyDeliveredIsPaid(s: State, k: SubId) {
    && k < |s.subs| && s.subs[k].status.Cancelled?
    && forall j :: 0 <= j < |s.payments| && s.payments[j].status.Completed? && IsRowOf(s, s.payments[j], k) ==>
         s.events[s.payments[j].event].status.Completed?
  }

  /** A row of the cancelled subscription is refunded unless its event was delivered. */
  lemma CancelledRow(s: State, k: SubId, user: UserId, j: nat)
    requires Lifecycle(s) && Money(s) && CancelsWithProvider(s, k, user) && j < |s.payments|
    requires IsRowOf(s, s.payments[j], k) && !s.events[s.payments[j].event].status.Completed?
    ensures !Cancel(s, k, user, true).0.payments[j].status.Completed?
  {
    assert EventFits(s, s.events[s.payments[j].event]);
    assert RowFits(s, s.payments[j]);
  }

  lemma CancelLeavesDelivered(s: State, k: SubId, user: UserId)
    requires Lifecycle(s) && Money(s) && CancelsWithProvider(s, k, user)
    ensures OnlyDeliveredIsPaid(Cancel(s, k, user, true).0, k)
  {
    var r := Cancel(s, k, user, true).0;
    forall j | 0 <= j < |r.payments| && r.payments[j].status.Completed? && IsRowOf(r, r.payments[j], k)
      ensures r.events[r.payments[j].event].status.Completed?
    {
      if !s.events[s.payments[j].event].status.Completed? {
        CancelledRow(s, k, user, j);
      }
    }
  }

  // ------------------------------------------------------------ no new rows for a cancelled subscription

  /** The rows that `r` has more than `s` are for events of other subscriptions. */
  ghost predicate NewRowsElsewhere(s: State, r: State, k: SubId) {
    && |s.payments| <= |r.payments|
    && forall j :: |s.payments| <= j < |r.payments| ==>
         r.payments[j].event < |r.events| && r.events[r.payments[j].event].sub != k
  }

  lemma RowsAddUp(a: State, b: State, c: State, k: SubId)
    requires NewRowsElsewhere(a, b, k) && NewRowsElsewhere(b, c, k) && Grows(a, b) && Grows(b, c)
    ensures NewRowsElsewhere(a, c, k) && Grows(a, c)
  {
  }

  lemma ChargeAddsOwnRows(s: State, m: SubId, settles: Provider, k: SubId)
    requires m < |s.subs| && m != k
    ensures NewRowsElsewhere(s, ChargeAndActivate(s, m, settles).0, k)
  {
    var r := ChargeAndActivate(s, m, settles).0;
    var ids := EventsOf(s.events, m);
    forall j | |s.payments| <= j < |r.payments|
      ensures r.payments[j].event < |r.events| && r.events[r.payments[j].event].sub != k
    {
      assert r.payments[j].event == ids[j - |s.payments|];
    }
  }

  lemma OneEventOwnRow(s: State, m: SubId, date: Date, id: ProductId, p: Product, provider: Option<Provider>, k: SubId)
    requires m < |s.subs| && m != k
    ensures NewRowsElsewhere(s, AppendEvent(s, m, date, id, p, provider), k)
    ensures Grows(s, AppendEvent(s, m, date, id, p, provider))
  {
  }

  lemma {:induction false} AppendAddsOwnRows(s: State, m: SubId, dates: seq<Date>, id: ProductId, p: Product,
                                             provider: Option<Provider>, k: SubId)
    requires m < |s.subs| && m != k
    ensures NewRowsElsewhere(s, AppendHorizon(s, m, dates, id, p, provider), k)
    ensures Grows(s, AppendHorizon(s, m, dates, id, p, provider))
    decreases |dates|
  {
    if dates != [] {
      var n := |dates| - 1;
      var before := AppendHorizon(s, m, dates[..n], id, p, provider);
      AppendAddsOwnRows(s, m, dates[..n], id, p, provider, k);
      OneEventOwnRow(before, m, dates[n], id, p, provider, k);
      RowsAddUp(s, before, AppendEvent(before, m, dates[n], id, p, provider), k);
    }
  }

  lemma {:induction false} ExtendAddsOwnRows(s: State, rows: seq<(SubId, Date)>, catalog: Catalog,
                                             provider: Option<Provider>,
                                             k: SubId)
    requires forall i :: 0 <= i < |rows| ==> rows[i].0 != k
    ensures NewRowsElsewhere(s, ExtendRows(s, rows, catalog, provider), k)
    ensures Grows(s, ExtendRows(s, rows, catalog, provider))
    decreases |rows|
  {
    if rows != [] {
      var n := |rows| - 1;
      var (m, last) := rows[n];
      var before := ExtendRows(s, rows[..n], catalog, provider);
      ExtendAddsOwnRows(s, rows[..n], catalog, provider, k);
      var found := ExtensionProduct(before, m, catalog);
      if m < |before.subs| && found.Some? {
        var dates := NextDatesAfter(last, before.subs[m].frequency);
        AppendAddsOwnRows(before, m, dates, found.value.0, found.value.1, provider, k);
        RowsAddUp(s, before, AppendHorizon(before, m, dates, found.value.0, found.value.1, provider), k);
      }
    }
  }

  lemma PayAddsOwnRows(s: State, op: Op, k: SubId)
    requires op.PayOp? && k < |s.subs| && s.subs[k].status.Cancelled?
    ensures NewRowsElsewhere(s, Step(s, op), k)
  {
    if Owned(s, op.k, op.user).Ok? && s.subs[op.k].status.Pending? && op.provider.Some? {
      ChargeAddsOwnRows(s, op.k, op.provider.value, k);
    }
  }

  lemma CreateAddsOwnRows(s: State, op: Op, k: SubId)
    requires op.CreateOp? && k < |s.subs|
    ensures NewRowsElsewhere(s, Step(s, op), k)
  {
    if op.id in op.catalog && op.provider.Some? {
      var m := InsertSubscription(s, op.user, op.id, op.catalog[op.id], op.cadence, op.address, op.today);
      ChargeAddsOwnRows(m, |s.subs|, op.provider.value, k);
    }
  }

  lemma OtherStepsAddNoRows(s: State, op: Op)
    requires Inv(s) && Legal(s, op) && !op.CreateOp? && !op.PayOp? && !op.ExtendOp?
    ensures |Step(s, op).payments| == |s.payments|
  {
    if op.ProcessOp? {
      ProcessAddsNoRows(s, op.due);
    }
  }

  lemma {:induction false} ProcessAddsNoRows(s: State, rows: seq<EventId>)
    ensures ProcessRows(s, rows).payments == s.payments
    decreases |rows|
  {
    if rows != [] {
      ProcessAddsNoRows(s, rows[..|rows| - 1]);
    }
  }

  lemma StepAddsOwnRows(s: State, op: Op, k: SubId)
    requires Inv(s) && Legal(s, op) && k < |s.subs| && s.subs[k].status.Cancelled?
    ensures NewRowsElsewhere(s, Step(s, op), k)
  {
    if op.CreateOp? {
      CreateAddsOwnRows(s, op, k);
    } else if op.PayOp? {
      PayAddsOwnRows(s, op, k);
    } else if op.ExtendOp? {
      ExtensionRowsDistinct(s, op.today, op.rows);
      ExtendAddsOwnRows(s, op.rows, op.catalog, op.provider, k);
    } else {
      OtherStepsAddNoRows(s, op);
    }
  }

  // ------------------------------------------------------------ over any run

  lemma StaysPaidStep(s: State, r: State, k: SubId)
    requires Money(s) && OnlyDeliveredIsPaid(s, k) && Evolves(s, r) && NewRowsElsewhere(s, r, k)
    ensures OnlyDeliveredIsPaid(r, k)
  {
    forall j | 0 <= j < |r.payments| && r.payments[j].status.Completed? && IsRowOf(r, r.payments[j], k)
      ensures r.events[r.payments[j].event].status.Completed?
    {
      assert j < |s.payments|;
      assert RowFits(s, s.payments[j]);
      assert IsRowOf(s, s.payments[j], k);
    }
  }

  lemma {:induction false} OnlyDeliveredStaysPaidOver(s: State, k: SubId, ops: seq<Op>)
    requires Inv(s) && OnlyDeliveredIsPaid(s, k) && LegalRun(s, ops)
    ensures OnlyDeliveredIsPaid(Run(s, ops), k)
    decreases |ops|
  {
    if ops != [] {
      var n := |ops| - 1;
      var before := Run(s, ops[..n]);
      OnlyDeliveredStaysPaidOver(s, k, ops[..n]);
      RunKeepsInv(s, ops[..n]);
      StepEvolves(before, ops[n]);
      StepAddsOwnRows(before, ops[n], k);
      StaysPaidStep(before, Step(before, ops[n]), k);
    }
  }

  /**
    After a cancellation with a provider, and in every state any run reaches from there, a
    completed payment of the subscription sits only on a completed event.
   */
  lemma OnlyDeliveredStaysPaid(s: State, k: SubId, user: UserId, ops: seq<Op>, j: nat)
    requires Inv(s) && CancelsWithProvider(s, k, user) && LegalRun(Cancel(s, k, user, true).0, ops)
    requires j < |Run(Cancel(s, k, user, true).0, ops).payments|
    ensures var r := Run(Cancel(s, k, user, true).0, ops);
            var p := r.payments[j];
            p.event < |r.events| && r.events[p.event].sub == k && p.status.Completed?
            ==> r.events[p.event].status.Completed?
  {
    CancelKeepsInv(s, k, user, true);
    CancelLeavesDelivered(s, k, user);
    OnlyDeliveredStaysPaidOver(Cancel(s, k, user, true).0, k, ops);
    assert OnlyDeliveredIsPaid(Run(Cancel(s, k, user, true).0, ops), k);
  }
}
