/** A pause holds a subscription's events through any run, and the resumption gives them back. */
module PausedRuns {
  import opened Wrappers
  import opened OrderStatuses
  import opened Shop
  import opened SubscriptionTables
  import opened SubscriptionSteps
  import opened SubscriptionInvariant
  import opened SubscriptionPreservation
  import opened SubscriptionRuns
  import opened SchedulerRuns

  /** The event is as it was, or its order was under way and has been completed since. */
  predicate SameOrDelivered(before: Event, after: Event) {
    after == before || (before.status.Ready? && after == before.(status := EventStatus.Completed))
  }

  /** Nothing but deliveries under way has moved `k`, and nothing was scheduled for it. */
  ghost predicate Held(s: State, r: State, k: SubId) {
    && k < |s.subs| && k < |r.subs| && r.subs[k] == s.subs[k]
    && |s.events| <= |r.events|
    && (forall e :: 0 <= e < |s.events| ==>
          r.events[e].sub == s.events[e].sub && (s.events[e].sub == k ==> SameOrDelivered(s.events[e], r.events[e])))
    && (forall e :: |s.events| <= e < |r.events| ==> r.events[e].sub != k)
  }

  lemma HeldTransitively(a: State, b: State, c: State, k: SubId)
    requires Held(a, b, k) && Held(b, c, k)
    ensures Held(a, c, k)
  {
  }

  /** Whether the step is the one that ends a pause of `k`. */
  predicate Lifts(op: Op, k: SubId) {
    (op.ResumeOp? || op.CancelOp?) && op.k == k
  }

  lemma InsertHolds(s: State, op: Op, k: SubId)
    requires op.CreateOp? && op.id in op.catalog && k < |s.subs|
    ensures Held(s, InsertSubscription(s, op.user, op.id, op.catalog[op.id], op.cadence, op.address, op.today), k)
  {
  }

  lemma CreateHolds(s: State, op: Op, k: SubId)
    requires op.CreateOp? && k < |s.subs|
    ensures Held(s, Step(s, op), k)
  {
    if op.id in op.catalog && op.provider.Some? {
      var m := InsertSubscription(s, op.user, op.id, op.catalog[op.id], op.cadence, op.address, op.today);
      InsertHolds(s, op, k);
      ChargeShape(m, |s.subs|, op.provider.value);
    }
  }

  lemma PayHolds(s: State, op: Op, k: SubId)
    requires op.PayOp? && k < |s.subs| && s.subs[k].status.Paused?
    ensures Held(s, Step(s, op), k)
  {
    if Owned(s, op.k, op.user).Ok? && op.provider.Some? {
      ChargeShape(s, op.k, op.provider.value);
    }
  }

  lemma LifecycleHolds(s: State, op: Op, k: SubId)
    requires (op.PauseOp? || op.ResumeOp? || op.CancelOp?) && !Lifts(op, k)
    requires k < |s.subs| && s.subs[k].status.Paused?
    ensures Held(s, Step(s, op), k)
  {
  }

  lemma ProcessHolds(s: State, op: Op, k: SubId)
    requires Inv(s) && Legal(s, op) && op.ProcessOp? && k < |s.subs| && s.subs[k].status.Paused?
    ensures Held(s, Step(s, op), k)
  {
    DueRowsAreDue(s, op.today, op.due);
    ProcessEvolves(s, op.due);
    forall e: EventId | e in op.due
      ensures e < |s.events| && s.events[e].sub != k
    {
      assert Due(s, e, op.today);
    }
  }

  lemma SyncHolds(s: State, k: SubId)
    requires Inv(s) && k < |s.subs| && s.subs[k].status.Paused?
    ensures Held(s, SyncCompleted(s), k)
  {
    forall e | 0 <= e < |s.events| && s.events[e].sub == k
      ensures SameOrDelivered(s.events[e], SyncCompleted(s).events[e])
    {
      assert EventFits(s, s.events[e]);
    }
  }

  lemma ExtendHolds(s: State, op: Op, k: SubId)
    requires Legal(s, op) && op.ExtendOp? && k < |s.subs| && s.subs[k].status.Paused?
    ensures Held(s, Step(s, op), k)
  {
    var r := Step(s, op);
    ExtensionRowsDistinct(s, op.today, op.rows);
    ExtendAppends(s, op.rows, op.catalog, op.provider);
    forall e | |s.events| <= e < |r.events|
      ensures r.events[e].sub != k
    {
      assert Appended(s, op.rows, op.catalog, r.events[e]);
    }
  }

  lemma StepHolds(s: State, op: Op, k: SubId)
    requires Inv(s) && Legal(s, op) && k < |s.subs| && s.subs[k].status.Paused? && !Lifts(op, k)
    ensures Held(s, Step(s, op), k)
  {
    match op
    case CreateOp(_, _, _, _, _, _, _, _, _) => CreateHolds(s, op, k);
    case PayOp(_, _, _, _, _) => PayHolds(s, op, k);
    case PauseOp(_, _) => LifecycleHolds(s, op, k);
    case ResumeOp(_, _) => LifecycleHolds(s, op, k);
    case CancelOp(_, _, _) => LifecycleHolds(s, op, k);
    case ProcessOp(_, _) => ProcessHolds(s, op, k);
    case SyncOp => SyncHolds(s, k);
    case ExtendOp(_, _, _, _) => ExtendHolds(s, op, k);
    case MoveOrderOp(_, _, _) =>
    case PlaceOrderOp(_) =>
  }

  lemma {:induction false} RunHolds(s: State, ops: seq<Op>, k: SubId)
    requires Inv(s) && LegalRun(s, ops) && k < |s.subs| && s.subs[k].status.Paused?
    requires forall i :: 0 <= i < |ops| ==> !Lifts(ops[i], k)
    ensures Held(s, Run(s, ops), k)
    decreases |ops|
  {
    if ops != [] {
      var n := |ops| - 1;
      var before := Run(s, ops[..n]);
      RunHolds(s, ops[..n], k);
      RunKeepsInv(s, ops[..n]);
      StepHolds(before, ops[n], k);
      HeldTransitively(s, before, Step(before, ops[n]), k);
    }
  }

  /** From any state that a pause of `k` has held, the resumption gives back what the pause took. */
  lemma ResumeGivesBack(s: State, r: State, k: SubId, user: UserId)
    requires Lifecycle(s) && Pause(s, k, user).1.Ok? && Held(Pause(s, k, user).0, r, k)
    ensures Resume(r, k, user).1 == Ok(k)
    ensures Held(s, Resume(r, k, user).0, k)
  {
    var p, q := Pause(s, k, user).0, Resume(r, k, user).0;
    forall e | 0 <= e < |s.events| && s.events[e].sub == k
      ensures SameOrDelivered(s.events[e], q.events[e])
    {
      assert EventFits(s, s.events[e]);
      assert SameOrDelivered(p.events[e], r.events[e]);
    }
  }

  /**
    However long the pause and whatever else happens meanwhile, the resumption succeeds and gives
    the subscription and each of its events back as they were, except that deliveries under way
    may have been completed; and no event has been added.
   */
  lemma ResumeUndoesPauseOver(s: State, k: SubId, user: UserId, ops: seq<Op>)
    requires Inv(s) && Pause(s, k, user).1.Ok? && LegalRun(Pause(s, k, user).0, ops)
    requires forall i :: 0 <= i < |ops| ==> !Lifts(ops[i], k)
    ensures Resume(Run(Pause(s, k, user).0, ops), k, user).1 == Ok(k)
    ensures Held(s, Resume(Run(Pause(s, k, user).0, ops), k, user).0, k)
  {
    PauseKeepsInv(s, k, user);
    RunHolds(Pause(s, k, user).0, ops, k);
    ResumeGivesBack(s, Run(Pause(s, k, user).0, ops), k, user);
  }
}
