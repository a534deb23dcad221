/** Reachable states in which what the documentation says of subscriptions does not hold. */
module SubscriptionWitnesses {
  import opened Wrappers
  import opened Calendar
  import opened Frequency
  import opened Horizons
  import opened OrderStatuses
  import opened Shop
  import opened SubscriptionTables
  import opened SubscriptionSteps
  import opened SubscriptionInvariant
  import opened SubscriptionRuns
  import opened SchedulerRuns
  import opened SchedulerQueries
  import opened Cancellation

  const NEW_YEAR: Date := RawDate(2024, 1, 1)
  const FEBRUARY: Date := RawDate(2024, 2, 1)
  const COFFEE: Product := RawProduct("Coffee", 1250, true)
  const CATALOG: Catalog := map[7 := COFFEE]
  const HOME := Address("John", "1", "Test street", "Kyiv", None, None)

  function Settling(): Provider {
    t => true
  }

  /** A subscription created on 1 January 2024 and paid for at once. */
  function Paid2024(f: Cadence): Op {
    CreateOp(0, 7, CATALOG, f, HOME, NEW_YEAR, Some(0), {0}, Some(Settling()))
  }

  /** A subscription created from empty tables and paid for at once. */
  lemma PaidSubscription(create: Op, settles: Provider)
    requires create.CreateOp? && create.id in create.catalog && create.catalog[create.id].active
    requires create.card.Some? && create.card.value in create.saved && create.provider == Some(settles) && settles(0)
    ensures LegalRun(EMPTY_STATE, [create])
    ensures var s := Run(EMPTY_STATE, [create]);
            && |s.subs| == 1 && s.subs[0].status.Active? && s.subs[0].frequency == create.cadence
            && s.events == InsertSubscription(EMPTY_STATE, create.user, create.id, create.catalog[create.id], create.cadence,
                                              create.address, create.today).events
  {
    assert [create][..0] == [];
    assert Run(EMPTY_STATE, []) == EMPTY_STATE;
    assert LegalRun(EMPTY_STATE, []);
  }

  lemma PaidSubscriptionIsExtendable(create: Op, settles: Provider, today: Date)
    requires create.CreateOp? && create.id in create.catalog && create.catalog[create.id].active
    requires create.card.Some? && create.card.value in create.saved && create.provider == Some(settles) && settles(0)
    requires Ordinal(today) >= Ordinal(create.today) + 93
    ensures Extendable(Run(EMPTY_STATE, [create]), 0, Last(EventDates(create.today, create.cadence)), today, create.catalog)
  {
    var s := Run(EMPTY_STATE, [create]);
    var dates := EventDates(create.today, create.cadence);
    PaidSubscription(create, settles);
    EmptyStateInv();
    StepKeepsInv(EMPTY_STATE, create);
    assert s == Step(EMPTY_STATE, create);
    CreatedDates(EMPTY_STATE, create.user, create.id, create.catalog[create.id], create.cadence, create.address, create.today);
    DatesIncrease(s, 0);
    FirstHorizonIsAnExtension(create.today, create.cadence);
    ExtensionAdvances(create.today, create.cadence);
    NearByOrdinal(Last(dates), today);
    var newest := Last(EventsOf(s.events, 0));
    assert s.events[newest] == NewEvent(0, dates[newest], create.id, create.catalog[create.id]);
  }

  // ------------------------------------------------------------------- a second daily run

  /**
    The daily run is not idempotent: a weekly subscription first looked at after 200 days. The
    second run of that day, too, answers its queries truly, and it changes the tables again.
   */
  lemma RerunCounterexample()
    returns (ops: seq<Op>, today: Date, due: seq<EventId>, rows: seq<(SubId, Date)>,
             due2: seq<EventId>, rows2: seq<(SubId, Date)>)
    ensures LegalRun(EMPTY_STATE, ops)
    ensures var s := Run(EMPTY_STATE, ops);
            var once := DailyRun(s, due, rows, CATALOG, None);
            && LegalDailyRun(s, today, due, rows) && LegalDailyRun(once, today, due2, rows2)
            && DailyRun(once, due2, rows2, CATALOG, None) != once
  {
    var create := Paid2024(Weekly);
    ops, today := [create], AddDays(NEW_YEAR, 200);
    var s, last := Run(EMPTY_STATE, ops), Last(EventDates(NEW_YEAR, Weekly));
    AddDaysOrdinal(NEW_YEAR, 200);
    PaidSubscription(create, Settling());
    PaidSubscriptionIsExtendable(create, Settling(), today);
    FirstHorizonIsAnExtension(NEW_YEAR, Weekly);
    ExtensionAdvances(NEW_YEAR, Weekly);
    LaggingSubscriptionBreaksIt(s, today, CATALOG, 0, last);
    EmptyStateInv();
    RunKeepsInv(EMPTY_STATE, ops);
    due, rows := DailyRunExists(s, today);
    due2, rows2 := DailyRunExists(DailyRun(s, due, rows, CATALOG, None), today);
    RerunIsNoOpIff(s, today, CATALOG, due, rows, None, due2, rows2, None);
  }

  // ------------------------------------------------------------------- a delivered event's payment

  /** The four later steps: the first event is ordered, its order confirmed and completed, and the event synced. */
  const DELIVERY: seq<Op> := [ProcessOp(FEBRUARY, [0]), MoveOrderOp(0, OrderStatus.Confirmed, 0),
                              MoveOrderOp(0, OrderStatus.Completed, 0), SyncOp]

  function MonthlyDates(): seq<Date> {
    [RawDate(2024, 2, 1), RawDate(2024, 3, 1), RawDate(2024, 4, 1)]
  }

  function FirstEvents(): seq<Event> {
    var p := Some(Snapshot(7, "Coffee", 1250));
    [Event(0, RawDate(2024, 2, 1), 1250, EventStatus.Pending, None, p),
     Event(0, RawDate(2024, 3, 1), 1250, EventStatus.Pending, None, p),
     Event(0, RawDate(2024, 4, 1), 1250, EventStatus.Pending, None, p)]
  }

  function UpfrontPayment(e: EventId): Payment {
    Payment(e, 0, 1250, Some(0), PaymentStatus.Completed)
  }

  /** The tables right after the paid creation. */
  function AfterCreation(): State {
    State([Subscription(0, NEW_YEAR, Monthly, SubscriptionStatus.Active, Some(HOME))], FirstEvents(), [],
          [UpfrontPayment(0), UpfrontPayment(1), UpfrontPayment(2)], [Charge(Upfront(0), 3750, true, 0)])
  }

  function DeliveryOrder(status: OrderStatus, handedOver: Option<Time>): Order {
    Order(0, 1250, status, [Line(7, "Coffee", 1250, 1)], Delivery(HOME, None, handedOver))
  }

  /** And after the delivery of the first event. */
  function AfterDelivery(): State {
    AfterCreation().(events := FirstEvents()[0 := FirstEvents()[0].(status := EventStatus.Completed, order := Some(0))],
                     orders := [DeliveryOrder(OrderStatus.Completed, Some(0))])
  }

  function Positions(n: nat): seq<nat> {
    seq(n, i => i)
  }

  lemma {:induction false} OnlyOneOwner(events: seq<Event>, n: nat)
    requires n <= |events| && forall e :: 0 <= e < |events| ==> events[e].sub == 0
    ensures EventsOf(events[..n], 0) == Positions(n)
  {
    if n > 0 {
      OnlyOneOwner(events, n - 1);
      assert events[..n][..n - 1] == events[..n - 1];
    }
  }

  lemma {:induction false} OnePrice(events: seq<Event>, price: int, n: nat)
    requires n <= |events| && forall e :: 0 <= e < |events| ==> events[e].price == price
    ensures SumPrices(events, Positions(n)) == n * price
  {
    if n > 0 {
      OnePrice(events, price, n - 1);
      assert Positions(n)[..n - 1] == Positions(n - 1);
      assert n * price == (n - 1) * price + price;
    }
  }

  lemma ThreePositions()
    ensures Positions(3) == [0, 1, 2]
  {
  }

  lemma ThreeEvents(events: seq<Event>)
    requires |events| == 3 && forall e :: 0 <= e < 3 ==> events[e].sub == 0 && events[e].price == 1250
    ensures EventsOf(events, 0) == [0, 1, 2] && SumPrices(events, [0, 1, 2]) == 3750
  {
    ThreePositions();
    OnlyOneOwner(events, 3);
    OnePrice(events, 1250, 3);
    assert events[..3] == events;
  }

  lemma CreationResult()
    ensures Step(EMPTY_STATE, Paid2024(Monthly)) == AfterCreation()
  {
    var inserted := InsertSubscription(EMPTY_STATE, 0, 7, COFFEE, Monthly, HOME, NEW_YEAR);
    assert EventDates(NEW_YEAR, Monthly) == MonthlyDates();
    assert inserted.events == FirstEvents();
    ThreeEvents(inserted.events);
    var charged := ChargeUpfront(inserted, 0, Settling()).0;
    assert charged.payments == AfterCreation().payments;
    assert charged.ledger == AfterCreation().ledger;
  }

  lemma OnlyTheFirstIsDue()
    ensures IsDueQuery(AfterCreation(), FEBRUARY, [0])
  {
    assert OnOrBefore(FEBRUARY, FEBRUARY);
    assert !OnOrBefore(RawDate(2024, 3, 1), FEBRUARY) && !OnOrBefore(RawDate(2024, 4, 1), FEBRUARY);
  }

  lemma DeliverySteps()
    ensures var s1 := Step(AfterCreation(), DELIVERY[0]);
            var s2 := Step(s1, DELIVERY[1]);
            var s3 := Step(s2, DELIVERY[2]);
            Step(s3, DELIVERY[3]) == AfterDelivery()
  {
    var s := AfterCreation();
    var rows: seq<EventId> := [0];
    assert rows[..0] == [];
    var s1 := ProcessOne(s, 0);
    assert ProcessRows(s, rows) == s1;
    assert s1.orders == [DeliveryOrder(OrderStatus.Created, None)];
    var s2 := MoveOrder(s1, 0, OrderStatus.Confirmed, 0);
    assert s2.orders == [DeliveryOrder(OrderStatus.Confirmed, None)];
    var s3 := MoveOrder(s2, 0, OrderStatus.Completed, 0);
    assert s3.orders == [DeliveryOrder(OrderStatus.Completed, Some(0))];
    assert SyncCompleted(s3).events == AfterDelivery().events;
  }

  lemma OneMoreStep(ops: seq<Op>, op: Op)
    ensures Run(EMPTY_STATE, ops + [op]) == Step(Run(EMPTY_STATE, ops), op)
    ensures LegalRun(EMPTY_STATE, ops + [op]) <==> LegalRun(EMPTY_STATE, ops) && Legal(Run(EMPTY_STATE, ops), op)
  {
    assert (ops + [op])[..|ops|] == ops;
  }

  lemma DeliveryRun() returns (ops: seq<Op>)
    ensures LegalRun(EMPTY_STATE, ops) && Run(EMPTY_STATE, ops) == AfterDelivery()
  {
    ops := [];
    OneMoreStep(ops, Paid2024(Monthly));
    CreationResult();
    OnlyTheFirstIsDue();
    DeliverySteps();
    ops := ops + [Paid2024(Monthly)];
    OneMoreStep(ops, DELIVERY[0]);
    ops := ops + [DELIVERY[0]];
    OneMoreStep(ops, DELIVERY[1]);
    ops := ops + [DELIVERY[1]];
    OneMoreStep(ops, DELIVERY[2]);
    ops := ops + [DELIVERY[2]];
    OneMoreStep(ops, DELIVERY[3]);
    ops := ops + [DELIVERY[3]];
  }

  /**
    A cancellation after one of three prepaid deliveries: the provider is asked to refund the one
    charge of 3750, yet the delivered event's row shares that transaction and stays completed, so
    only 2500 of it is marked refunded.
   */
  lemma RefundedTransactionKeepsARow() returns (ops: seq<Op>)
    ensures LegalRun(EMPTY_STATE, ops)
    ensures var s := Run(EMPTY_STATE, ops);
            var r := Cancel(s, 0, 0, true).0;
            && CancelsWithProvider(s, 0, 0)
            && 0 in RefundedTxns(s, 0) && r.payments[0].txn == Some(0)
            && r.payments[0].status == PaymentStatus.Completed
            && ChargedTotal(s.ledger, RefundedTxns(s, 0), |s.ledger|) == 3750
            && SumByStatus(r.payments, RefundedTxns(s, 0), PaymentStatus.Refunded) == 2500
  {
    ops := DeliveryRun();
    CancelledAfterDelivery();
  }

  lemma CancelledAfterDelivery()
    ensures var s := AfterDelivery();
            var r := Cancel(s, 0, 0, true).0;
            && CancelsWithProvider(s, 0, 0)
            && RefundedTxns(s, 0) == {0} && |r.payments| == 3 && r.payments[0] == UpfrontPayment(0)
            && ChargedTotal(s.ledger, {0}, 1) == 3750
            && SumByStatus(r.payments, {0}, PaymentStatus.Refunded) == 2500
  {
    var s := AfterDelivery();
    var r := Cancel(s, 0, 0, true).0;
    assert s.payments[1] in s.payments && Refundable(s, 0, s.payments[1]);
    assert RefundedTxns(s, 0) == {0};
    var refunded := [UpfrontPayment(0), UpfrontPayment(1).(status := PaymentStatus.Refunded),
                     UpfrontPayment(2).(status := PaymentStatus.Refunded)];
    assert r.payments == refunded;
    assert refunded[..2][..1][..0] == [] && refunded[..2][..1] == [UpfrontPayment(0)];
    assert SumByStatus(refunded[..1], {0}, PaymentStatus.Refunded) == 0;
    assert refunded[..2][..1] == refunded[..1];
    assert SumByStatus(refunded[..2], {0}, PaymentStatus.Refunded) == 1250;
  }
}
