/**
  Product ratings: one score per user and product, given only after a completed order, and an
  aggregate per product that is recomputed after every write.
 */
module Ratings {
  import opened Wrappers
  import opened Averages
  import opened OrderStatuses
  import opened Shop

  datatype Rating = Rating(product: ProductId, user: UserId, score: Score)
  datatype Aggregate = Aggregate(average: nat, total: nat, distribution: Distribution)

  datatype State = State(products: set<ProductId>, orders: seq<Order>, ratings: seq<Rating>,
                         aggregates: map<ProductId, Aggregate>)

  const EMPTY_STATE := State({}, [], [], map[])

  datatype Error = InvalidValue | ProductNotFound(product: ProductId) | NotPurchased(product: ProductId)
                 | RatingNotFound(product: ProductId)

  datatype Summary = Summary(product: ProductId, userRating: Option<Score>, average: Option<nat>, total: nat,
                             distribution: Distribution)

  // ------------------------------------------------------------------- queries

  function Scores(rows: seq<Rating>, p: ProductId): (scores: seq<Score>)
    ensures |scores| <= |rows|
  {
    if rows == [] then [] else (if rows[0].product == p then [rows[0].score] else []) + Scores(rows[1..], p)
  }

  predicate IsBy(r: Rating, u: UserId, p: ProductId) {
    r.product == p && r.user == u
  }

  /** The position of the user's rating of the product, or the table's length. */
  function Find(rows: seq<Rating>, u: UserId, p: ProductId): (i: nat)
    ensures i <= |rows|
    ensures i < |rows| ==> IsBy(rows[i], u, p)
    ensures forall k :: 0 <= k < i ==> !IsBy(rows[k], u, p)
  {
    if rows == [] || IsBy(rows[0], u, p) then 0 else 1 + Find(rows[1..], u, p)
  }

  predicate Holds(order: Order, p: ProductId) {
    exists i :: 0 <= i < |order.lines| && order.lines[i].product == p
  }

  /** A completed order of the user's that holds the product. */
  predicate Buys(order: Order, u: UserId, p: ProductId) {
    order.user == u && order.status == OrderStatus.Completed && Holds(order, p)
  }

  predicate CanRate(orders: seq<Order>, u: UserId, p: ProductId) {
    exists o :: 0 <= o < |orders| && Buys(orders[o], u, p)
  }

  function ProductsOf(lines: seq<Line>): set<ProductId> {
    set i | 0 <= i < |lines| :: lines[i].product
  }

  /** The products among `ids` that the user bought, one query over the lines of completed orders. */
  function PurchasedIds(orders: seq<Order>, u: UserId, ids: set<ProductId>): set<ProductId> {
    if orders == [] then {}
    else
      var first := orders[0];
      (if first.user == u && first.status == OrderStatus.Completed then ProductsOf(first.lines) * ids else {})
      + PurchasedIds(orders[1..], u, ids)
  }

  function AggregateOf(scores: seq<Score>): Aggregate
    requires scores != []
  {
    Aggregate(AverageOf(scores), |scores|, DistributionOf(scores))
  }

  function SummaryOf(p: ProductId, mine: Option<Score>, aggregate: Option<Aggregate>): Summary {
    match aggregate
    case None => Summary(p, mine, None, 0, EMPTY_DISTRIBUTION)
    case Some(a) => Summary(p, mine, Some(a.average), a.total, a.distribution)
  }

  // ------------------------------------------------------------------- writes

  function Recalculated(st: State, p: ProductId): State {
    var scores := Scores(st.ratings, p);
    st.(aggregates := if scores == [] then st.aggregates - {p} else st.aggregates[p := AggregateOf(scores)])
  }

  function AggregateFor(st: State, p: ProductId): Option<Aggregate> {
    if p in st.aggregates then Some(st.aggregates[p]) else None
  }

  function Written(rows: seq<Rating>, r: Rating): seq<Rating> {
    var i := Find(rows, r.user, r.product);
    if i == |rows| then rows + [r] else rows[i := r]
  }

  function SetRating(st: State, u: UserId, p: ProductId, value: int): (State, Result<Summary, Error>) {
    if !(1 <= value <= 5) then (st, Err(InvalidValue))
    else if p !in st.products then (st, Err(ProductNotFound(p)))
    else if !CanRate(st.orders, u, p) then (st, Err(NotPurchased(p)))
    else
      var st' := Recalculated(st.(ratings := Written(st.ratings, Rating(p, u, value))), p);
      (st', Ok(SummaryOf(p, Some(value), AggregateFor(st', p))))
  }

  function Without(rows: seq<Rating>, i: nat): seq<Rating>
    requires i < |rows|
  {
    rows[..i] + rows[i + 1..]
  }

  function DeleteRating(st: State, u: UserId, p: ProductId): (State, Result<Summary, Error>) {
    var i := Find(st.ratings, u, p);
    if i == |st.ratings| then (st, Err(RatingNotFound(p)))
    else
      var st' := Recalculated(st.(ratings := Without(st.ratings, i)), p);
      (st', Ok(SummaryOf(p, None, AggregateFor(st', p))))
  }

  // ------------------------------------------------------------------- runs

  /** What changes these tables: the two rating writes, and a shop that adds products and orders. */
  datatype Op = AddProduct(product: ProductId)
              | PlaceOrder(order: Order)
              | MoveOrder(id: nat, target: OrderStatus)
              | Rate(user: UserId, product: ProductId, value: int)
              | Unrate(user: UserId, product: ProductId)

  /** Orders move along the order graph only. */
  function Step(st: State, op: Op): State {
    match op
    case AddProduct(p) => st.(products := st.products + {p})
    case PlaceOrder(order) => st.(orders := st.orders + [order.(status := OrderStatus.Created)])
    case MoveOrder(o, target) =>
      if o < |st.orders| && CanTransition(st.orders[o].status, target)
      then st.(orders := st.orders[o := st.orders[o].(status := target)])
      else st
    case Rate(u, p, value) => SetRating(st, u, p, value).0
    case Unrate(u, p) => DeleteRating(st, u, p).0
  }

  function Run(st: State, ops: seq<Op>): State
    decreases |ops|
  {
    if ops == [] then st else Run(Step(st, ops[0]), ops[1..])
  }

  // ------------------------------------------------------------------- invariant

  ghost predicate OnePerUser(rows: seq<Rating>) {
    forall i, j :: 0 <= i < j < |rows| ==> !(rows[i].product == rows[j].product && rows[i].user == rows[j].user)
  }

  /** A product has an aggregate exactly when it has ratings, and then it is their recomputation. */
  ghost predicate AggregateIsCurrent(st: State, p: ProductId) {
    AggregateFor(st, p) == var scores := Scores(st.ratings, p); if scores == [] then None else Some(AggregateOf(scores))
  }

  /** The author has an order with the product that was completed, and perhaps refunded since. */
  ghost predicate WasBought(orders: seq<Order>, r: Rating) {
    exists o :: 0 <= o < |orders| && OnceBought(orders[o], r)
  }

  ghost predicate OnceBought(order: Order, r: Rating) {
    && order.user == r.user
    && order.status in {OrderStatus.Completed, OrderStatus.Refunded}
    && Holds(order, r.product)
  }

  ghost predicate Inv(st: State) {
    && OnePerUser(st.ratings)
    && (forall p :: AggregateIsCurrent(st, p))
    && (forall r :: r in st.ratings ==> WasBought(st.orders, r))
  }

  lemma {:induction false} ScoresOfConcat(a: seq<Rating>, b: seq<Rating>, p: ProductId)
    ensures Scores(a + b, p) == Scores(a, p) + Scores(b, p)
  {
    if a == [] {
      assert a + b == b;
    } else {
      var first, rest := if a[0].product == p then [a[0].score] else [], Scores(a[1..], p);
      assert (a + b)[0] == a[0] && (a + b)[1..] == a[1..] + b;
      ScoresOfConcat(a[1..], b, p);
      assert first + (rest + Scores(b, p)) == (first + rest) + Scores(b, p);
    }
  }

  /** A row of another product is invisible. */
  lemma ScoresAround(rows: seq<Rating>, i: nat, p: ProductId)
    requires i < |rows|
    ensures Scores(rows, p) == Scores(rows[..i], p) + Scores([rows[i]], p) + Scores(rows[i + 1..], p)
  {
    assert rows == rows[..i] + ([rows[i]] + rows[i + 1..]);
    ScoresOfConcat(rows[..i], [rows[i]] + rows[i + 1..], p);
    ScoresOfConcat([rows[i]], rows[i + 1..], p);
  }

  lemma WrittenLeavesOthers(rows: seq<Rating>, r: Rating, p: ProductId)
    requires p != r.product
    ensures Scores(Written(rows, r), p) == Scores(rows, p)
  {
    var i := Find(rows, r.user, r.product);
    if i == |rows| {
      ScoresOfConcat(rows, [r], p);
    } else {
      var updated := rows[i := r];
      ScoresAround(rows, i, p);
      ScoresAround(updated, i, p);
      assert updated[..i] == rows[..i] && updated[i + 1..] == rows[i + 1..];
    }
  }

  lemma WithoutLeavesOthers(rows: seq<Rating>, i: nat, p: ProductId)
    requires i < |rows| && rows[i].product != p
    ensures Scores(Without(rows, i), p) == Scores(rows, p)
  {
    ScoresAround(rows, i, p);
    ScoresOfConcat(rows[..i], rows[i + 1..], p);
  }

  lemma RecalculatedIsCurrent(st: State, p: ProductId, q: ProductId)
    requires q != p ==> AggregateIsCurrent(st, q)
    ensures AggregateIsCurrent(Recalculated(st, p), q)
  {
  }

  lemma RateKeepsInv(st: State, u: UserId, p: ProductId, value: int)
    requires Inv(st)
    ensures Inv(SetRating(st, u, p, value).0)
  {
    var (st', result) := SetRating(st, u, p, value);
    if result.Ok? {
      var r := Rating(p, u, value);
      var written := st.(ratings := Written(st.ratings, r));
      forall q
        ensures AggregateIsCurrent(st', q)
      {
        if q != p {
          WrittenLeavesOthers(st.ratings, r, q);
          assert AggregateIsCurrent(st, q);
        }
        RecalculatedIsCurrent(written, p, q);
      }
      var o :| 0 <= o < |st.orders| && Buys(st.orders[o], u, p);
      assert OnceBought(st'.orders[o], r);
      forall s | s in st'.ratings
        ensures WasBought(st'.orders, s)
      {
        assert s != r ==> s in st.ratings;
      }
    }
  }

  lemma UnrateKeepsInv(st: State, u: UserId, p: ProductId)
    requires Inv(st)
    ensures Inv(DeleteRating(st, u, p).0)
  {
    var (st', result) := DeleteRating(st, u, p);
    if result.Ok? {
      var i := Find(st.ratings, u, p);
      var without := st.(ratings := Without(st.ratings, i));
      forall q
        ensures AggregateIsCurrent(st', q)
      {
        if q != p {
          WithoutLeavesOthers(st.ratings, i, q);
          assert AggregateIsCurrent(st, q);
        }
        RecalculatedIsCurrent(without, p, q);
      }
      forall s | s in st'.ratings
        ensures WasBought(st'.orders, s)
      {
        assert s in st.ratings;
      }
    }
  }

  /** No move of the shop takes a purchase back. */
  lemma ShopKeepsBought(st: State, op: Op, r: Rating)
    requires WasBought(st.orders, r) && !op.Rate? && !op.Unrate?
    ensures WasBought(Step(st, op).orders, r)
  {
    var o :| 0 <= o < |st.orders| && OnceBought(st.orders[o], r);
    assert OnceBought(Step(st, op).orders[o], r);
  }

  lemma StepKeepsInv(st: State, op: Op)
    requires Inv(st)
    ensures Inv(Step(st, op))
  {
    match op
    case Rate(u, p, value) => RateKeepsInv(st, u, p, value);
    case Unrate(u, p) => UnrateKeepsInv(st, u, p);
    case _ =>
      var st' := Step(st, op);
      forall p
        ensures AggregateIsCurrent(st', p)
      {
        assert AggregateIsCurrent(st, p);
      }
      forall r | r in st'.ratings
        ensures WasBought(st'.orders, r)
      {
        ShopKeepsBought(st, op, r);
      }
  }

  lemma {:induction false} RunKeepsInv(st: State, ops: seq<Op>)
    requires Inv(st)
    ensures Inv(Run(st, ops))
    decreases |ops|
  {
    if ops != [] {
      StepKeepsInv(st, ops[0]);
      RunKeepsInv(Step(st, ops[0]), ops[1..]);
    }
  }

  /**
    After any run every product's stored aggregate is the recomputation from its raw ratings, and
    there is one exactly when the product has ratings.
   */
  lemma AggregatesAreRecomputations(ops: seq<Op>, p: ProductId)
    ensures var st := Run(EMPTY_STATE, ops);
            var scores := Scores(st.ratings, p);
            && (p in st.aggregates <==> scores != [])
            && (scores != [] ==> st.aggregates[p] == Aggregate(AverageOf(scores), |scores|, DistributionOf(scores)))
            && (scores != [] ==> 10 <= st.aggregates[p].average <= 50)
  {
    RunKeepsInv(EMPTY_STATE, ops);
    var st := Run(EMPTY_STATE, ops);
    assert AggregateIsCurrent(st, p);
    var scores := Scores(st.ratings, p);
    if scores != [] {
      AverageInRange(scores);
    }
  }

  /** After any run every rating's author holds an order of the product that reached completion. */
  lemma RatersBought(ops: seq<Op>, r: Rating)
    requires r in Run(EMPTY_STATE, ops).ratings
    ensures var st := Run(EMPTY_STATE, ops);
            exists o :: 0 <= o < |st.orders| && st.orders[o].user == r.user && Holds(st.orders[o], r.product)
                        && st.orders[o].status in {OrderStatus.Completed, OrderStatus.Refunded}
  {
    RunKeepsInv(EMPTY_STATE, ops);
    var st := Run(EMPTY_STATE, ops);
    var o :| 0 <= o < |st.orders| && OnceBought(st.orders[o], r);
  }

  // ------------------------------------------------------------------- one write against another

  lemma AppendedThenRemoved(rows: seq<Rating>, r: Rating)
    requires Find(rows, r.user, r.product) == |rows|
    ensures Find(rows + [r], r.user, r.product) == |rows| && Without(rows + [r], |rows|) == rows
  {
    assert IsBy((rows + [r])[|rows|], r.user, r.product);
  }

  /** Deleting a first rating puts everything back as it was before the rating. */
  lemma DeleteUndoesFirstRating(st: State, u: UserId, p: ProductId, value: int)
    requires Inv(st) && Find(st.ratings, u, p) == |st.ratings|
    requires SetRating(st, u, p, value).1.Ok?
    ensures DeleteRating(SetRating(st, u, p, value).0, u, p).0 == st
  {
    var r := Rating(p, u, value);
    var rated := SetRating(st, u, p, value).0;
    ScoresOfWritten(st.ratings, r);
    AppendedThenRemoved(st.ratings, r);
    assert rated.ratings == st.ratings + [r];
    assert AggregateIsCurrent(st, p);
    RecalculatedTwice(st, rated, p);
    assert DeleteRating(rated, u, p).0 == Recalculated(rated.(ratings := st.ratings), p);
  }

  lemma RecalculatedTwice(st: State, rated: State, p: ProductId)
    requires AggregateIsCurrent(st, p)
    requires p in rated.aggregates && rated.aggregates == st.aggregates[p := rated.aggregates[p]]
    ensures Recalculated(rated.(ratings := st.ratings), p).aggregates == st.aggregates
  {
  }

  lemma FindIs(rows: seq<Rating>, u: UserId, p: ProductId, i: nat)
    requires i < |rows| && IsBy(rows[i], u, p)
    requires forall k :: 0 <= k < i ==> !IsBy(rows[k], u, p)
    ensures Find(rows, u, p) == i
  {
  }

  lemma WrittenTwice(rows: seq<Rating>, r: Rating, s: Rating)
    requires r.user == s.user && r.product == s.product
    ensures Written(Written(rows, r), s) == Written(rows, s)
  {
    var i := Find(rows, r.user, r.product);
    FindIs(Written(rows, r), r.user, r.product, i);
  }

  /** A second rating replaces the first without a trace. */
  lemma LastRatingWins(st: State, u: UserId, p: ProductId, first: int, second: int)
    requires SetRating(st, u, p, first).1.Ok?
    ensures SetRating(SetRating(st, u, p, first).0, u, p, second).1.Ok? <==> 1 <= second <= 5
    ensures 1 <= second <= 5 ==> SetRating(SetRating(st, u, p, first).0, u, p, second) == SetRating(st, u, p, second)
  {
    var once := SetRating(st, u, p, first).0;
    if 1 <= second <= 5 {
      WrittenTwice(st.ratings, Rating(p, u, first), Rating(p, u, second));
      var direct := SetRating(st, u, p, second).0;
      var twice := SetRating(once, u, p, second).0;
      assert twice.ratings == direct.ratings;
      ScoresOfWritten(st.ratings, Rating(p, u, first));
      ScoresOfWritten(st.ratings, Rating(p, u, second));
      assert twice.aggregates == direct.aggregates;
    }
  }

  lemma ScoresOfWritten(rows: seq<Rating>, r: Rating)
    ensures Scores(Written(rows, r), r.product) != []
  {
    var written := Written(rows, r);
    var i := Find(rows, r.user, r.product);
    ScoresAround(written, i, r.product);
  }

  /** A write to one product leaves every other product's scores and aggregate alone. */
  lemma OtherProductsUntouched(st: State, u: UserId, p: ProductId, value: int, q: ProductId)
    requires q != p
    ensures var rated := SetRating(st, u, p, value).0;
            Scores(rated.ratings, q) == Scores(st.ratings, q) && AggregateFor(rated, q) == AggregateFor(st, q)
    ensures var unrated := DeleteRating(st, u, p).0;
            Scores(unrated.ratings, q) == Scores(st.ratings, q) && AggregateFor(unrated, q) == AggregateFor(st, q)
  {
    if 1 <= value <= 5 {
      WrittenLeavesOthers(st.ratings, Rating(p, u, value), q);
    }
    var i := Find(st.ratings, u, p);
    if i < |st.ratings| {
      WithoutLeavesOthers(st.ratings, i, q);
    }
  }

  /** A user who raises a score never lowers the product's average. */
  lemma RaisingARating(st: State, u: UserId, p: ProductId, value: int)
    requires Inv(st) && SetRating(st, u, p, value).1.Ok?
    requires var i := Find(st.ratings, u, p); i < |st.ratings| && st.ratings[i].score <= value
    ensures p in st.aggregates && p in SetRating(st, u, p, value).0.aggregates
    ensures st.aggregates[p].average <= SetRating(st, u, p, value).0.aggregates[p].average
  {
    var i := Find(st.ratings, u, p);
    var r := Rating(p, u, value);
    var updated := st.ratings[i := r];
    var before := Scores(st.ratings[..i], p);
    ScoresAround(st.ratings, i, p);
    ScoresAround(updated, i, p);
    assert updated[..i] == st.ratings[..i] && updated[i + 1..] == st.ratings[i + 1..];
    var scores := Scores(st.ratings, p);
    assert Scores(updated, p) == scores[|before| := value];
    RaisingAScore(scores, |before|, value);
    assert AggregateIsCurrent(st, p);
  }

  // ------------------------------------------------------------------- reading the rows in any order

  lemma CountAround(rows: seq<Rating>, i: nat, p: ProductId, star: Score)
    requires i < |rows|
    ensures Count(Scores(rows, p), star) == Count(Scores([rows[i]], p), star) + Count(Scores(Without(rows, i), p), star)
  {
    var before, one, after := Scores(rows[..i], p), Scores([rows[i]], p), Scores(rows[i + 1..], p);
    ScoresAround(rows, i, p);
    ScoresOfConcat(rows[..i], rows[i + 1..], p);
    CountOfConcat(before + one, after, star);
    CountOfConcat(before, one, star);
    CountOfConcat(before, after, star);
  }

  lemma WithoutFromMultiset(rows: seq<Rating>, i: nat)
    requires i < |rows|
    ensures multiset(Without(rows, i)) == multiset(rows) - multiset{rows[i]}
  {
    assert rows == rows[..i] + [rows[i]] + rows[i + 1..];
  }

  lemma {:induction false} CountsIgnoreOrder(a: seq<Rating>, b: seq<Rating>, p: ProductId, star: Score)
    requires multiset(a) == multiset(b)
    ensures Count(Scores(a, p), star) == Count(Scores(b, p), star)
    decreases |a|
  {
    assert |multiset(a)| == |a| && |multiset(b)| == |b|;
    if a != [] {
      assert a[0] in multiset(a);
      assert a[0] in b;
      var k :| 0 <= k < |b| && b[k] == a[0];
      WithoutFromMultiset(a, 0);
      WithoutFromMultiset(b, k);
      CountsIgnoreOrder(Without(a, 0), Without(b, k), p, star);
      CountAround(a, 0, p, star);
      CountAround(b, k, p, star);
    }
  }

  /** The aggregate does not depend on the order in which the rows are read. */
  lemma RowOrderIsIrrelevant(a: seq<Rating>, b: seq<Rating>, p: ProductId)
    requires multiset(a) == multiset(b)
    ensures Scores(a, p) == [] <==> Scores(b, p) == []
    ensures Scores(a, p) != [] ==> AggregateOf(Scores(a, p)) == AggregateOf(Scores(b, p))
  {
    forall star: Score
      ensures Count(Scores(a, p), star) == Count(Scores(b, p), star)
    {
      CountsIgnoreOrder(a, b, p, star);
    }
    assert DistributionOf(Scores(a, p)) == DistributionOf(Scores(b, p));
    DistributionTotals(Scores(a, p));
    DistributionTotals(Scores(b, p));
    if Scores(a, p) != [] {
      AverageDependsOnDistribution(Scores(a, p), Scores(b, p));
    }
  }

  // ------------------------------------------------------------------- catalogue enrichment

  lemma {:induction false} PurchasedAmong(orders: seq<Order>, u: UserId, ids: set<ProductId>, p: ProductId)
    ensures p in PurchasedIds(orders, u, ids) <==> p in ids && CanRate(orders, u, p)
  {
    if orders != [] {
      PurchasedAmong(orders[1..], u, ids, p);
      assert p in ProductsOf(orders[0].lines) <==> Holds(orders[0], p);
      if CanRate(orders[1..], u, p) {
        var o :| 0 <= o < |orders[1..]| && Buys(orders[1..][o], u, p);
        assert Buys(orders[o + 1], u, p);
      }
      if CanRate(orders, u, p) {
        var o :| 0 <= o < |orders| && Buys(orders[o], u, p);
        assert o > 0 ==> Buys(orders[1..][o - 1], u, p);
      }
    }
  }

  /** A listed product shows "can rate" exactly when a rating by that user passes the purchase check. */
  lemma CanRateFlagIsHonest(st: State, u: UserId, ids: set<ProductId>, p: ProductId, value: int)
    requires p in ids && p in st.products && 1 <= value <= 5
    ensures p in PurchasedIds(st.orders, u, ids) <==> SetRating(st, u, p, value).1.Ok?
  {
    PurchasedAmong(st.orders, u, ids, p);
  }
}
