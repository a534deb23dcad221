/** What a rating write answers and leaves behind: whose row changes, to what, and what the product then shows. */
module RatingOutcomes {
  import opened Wrappers
  import opened Averages
  import opened OrderStatuses
  import opened Shop
  import opened Ratings

  /** The user has an order of the product that was completed, and not refunded since. */
  predicate HasBought(orders: seq<Order>, u: UserId, p: ProductId) {
    exists o, i :: 0 <= o < |orders| && 0 <= i < |orders[o].lines|
                   && orders[o].user == u && orders[o].status == OrderStatus.Completed
                   && orders[o].lines[i].product == p
  }

  lemma HasBoughtIffCanRate(orders: seq<Order>, u: UserId, p: ProductId)
    ensures HasBought(orders, u, p) <==> CanRate(orders, u, p)
  {
    if CanRate(orders, u, p) {
      var o :| 0 <= o < |orders| && Buys(orders[o], u, p);
      var i :| 0 <= i < |orders[o].lines| && orders[o].lines[i].product == p;
      assert orders[o].lines[i].product == p;
    }
    if HasBought(orders, u, p) {
      var o, i :| 0 <= o < |orders| && 0 <= i < |orders[o].lines|
                  && orders[o].user == u && orders[o].status == OrderStatus.Completed
                  && orders[o].lines[i].product == p;
      assert Buys(orders[o], u, p);
    }
  }

  /** A rating is refused for its value, its product, or the want of a purchase, in that order, and for nothing else. */
  lemma RatingRefusals(st: State, u: UserId, p: ProductId, value: int)
    ensures var (r, result) := SetRating(st, u, p, value);
            && (result == Err(InvalidValue) <==> value < 1 || 5 < value)
            && (result == Err(ProductNotFound(p)) <==> 1 <= value <= 5 && p !in st.products)
            && (result == Err(NotPurchased(p)) <==>
                1 <= value <= 5 && p in st.products && !HasBought(st.orders, u, p))
            && (result.Ok? <==> 1 <= value <= 5 && p in st.products && HasBought(st.orders, u, p))
            && (result.Err? ==> r == st)
  {
    HasBoughtIffCanRate(st.orders, u, p);
  }

  ghost predicate Rated(rows: seq<Rating>, u: UserId, p: ProductId) {
    exists i :: 0 <= i < |rows| && rows[i].user == u && rows[i].product == p
  }

  /** The user's row for the product says `value`; every other row is as it was, and where it was. */
  ghost predicate Records(before: seq<Rating>, after: seq<Rating>, u: UserId, p: ProductId, value: int) {
    && |after| == |before| + (if Rated(before, u, p) then 0 else 1)
    && (forall i :: 0 <= i < |before| ==>
          if before[i].user == u && before[i].product == p
          then after[i].user == u && after[i].product == p && after[i].score == value
          else after[i] == before[i])
    && (!Rated(before, u, p) ==>
          after[|before|].user == u && after[|before|].product == p && after[|before|].score == value)
  }

  /** After an accepted rating the user's one row for the product holds exactly the value given. */
  lemma RatingRecorded(st: State, u: UserId, p: ProductId, value: int)
    requires OnePerUser(st.ratings) && SetRating(st, u, p, value).1.Ok?
    ensures var r := SetRating(st, u, p, value).0;
            && Records(st.ratings, r.ratings, u, p, value) && OnePerUser(r.ratings)
            && r.products == st.products && r.orders == st.orders
  {
    var i := Find(st.ratings, u, p);
    if i < |st.ratings| {
      assert Rated(st.ratings, u, p);
      assert forall k :: 0 <= k < |st.ratings| && k != i ==> !(st.ratings[k].user == u && st.ratings[k].product == p);
    } else {
      assert forall k :: 0 <= k < |st.ratings| ==> !IsBy(st.ratings[k], u, p);
    }
  }

  /** What the product then shows is computed from its scores with the user's replaced by the value, or the value added. */
  lemma RatingShown(st: State, u: UserId, p: ProductId, value: int) returns (j: nat)
    requires SetRating(st, u, p, value).1.Ok?
    ensures var (r, result) := SetRating(st, u, p, value);
            var before, after := Scores(st.ratings, p), Scores(r.ratings, p);
            && 1 <= value <= 5
            && (if Rated(st.ratings, u, p) then j < |before| && after == before[j := value] else after == before + [value])
            && after != []
            && result.value == Summary(p, Some(value), Some(AverageOf(after)), |after|, DistributionOf(after))
            && p in r.aggregates && r.aggregates[p] == Aggregate(AverageOf(after), |after|, DistributionOf(after))
            && r.aggregates - {p} == st.aggregates - {p}
  {
    var i := Find(st.ratings, u, p);
    var row := Rating(p, u, value);
    j := |Scores(st.ratings[..Min(i, |st.ratings|)], p)|;
    if i < |st.ratings| {
      assert Rated(st.ratings, u, p);
      ReplacedScore(st.ratings, i, row);
    } else {
      ScoresOfConcat(st.ratings, [row], p);
    }
  }

  lemma ReplacedScore(rows: seq<Rating>, i: nat, row: Rating)
    requires i < |rows| && rows[i].product == row.product
    ensures var p, j := row.product, |Scores(rows[..i], row.product)|;
            j < |Scores(rows, p)| && Scores(rows[i := row], p) == Scores(rows, p)[j := row.score]
  {
    var p := row.product;
    var updated := rows[i := row];
    ScoresAround(rows, i, p);
    ScoresAround(updated, i, p);
    assert updated[..i] == rows[..i] && updated[i + 1..] == rows[i + 1..];
  }

  /** The user's row is gone; the others are as they were, in the order they were. */
  ghost predicate Removes(before: seq<Rating>, after: seq<Rating>, u: UserId, p: ProductId, i: nat) {
    && i < |before| && before[i].user == u && before[i].product == p
    && after == before[..i] + before[i + 1..]
    && !Rated(after, u, p)
  }

  /**
    A deletion succeeds if and only if the user has rated the product. It removes that row alone, and
    what the product shows is computed from the scores left, or nothing if none are left.
   */
  lemma DeletionOutcome(st: State, u: UserId, p: ProductId) returns (i: nat)
    requires OnePerUser(st.ratings)
    ensures var (r, result) := DeleteRating(st, u, p);
            && (result.Ok? <==> Rated(st.ratings, u, p))
            && (result.Err? ==> result == Err(RatingNotFound(p)) && r == st)
            && (result.Ok? ==>
                  && Removes(st.ratings, r.ratings, u, p, i)
                  && r.products == st.products && r.orders == st.orders
                  && r.aggregates - {p} == st.aggregates - {p}
                  && var left := Scores(r.ratings, p);
                     if left == [] then p !in r.aggregates && result.value == Summary(p, None, None, 0, EMPTY_DISTRIBUTION)
                     else && p in r.aggregates
                          && r.aggregates[p] == Aggregate(AverageOf(left), |left|, DistributionOf(left))
                          && result.value == Summary(p, None, Some(AverageOf(left)), |left|, DistributionOf(left)))
  {
    i := Find(st.ratings, u, p);
    if i < |st.ratings| {
      assert Rated(st.ratings, u, p);
      forall k | 0 <= k < |Without(st.ratings, i)|
        ensures !(Without(st.ratings, i)[k].user == u && Without(st.ratings, i)[k].product == p)
      {
        assert Without(st.ratings, i)[k] == st.ratings[if k < i then k else k + 1];
      }
    }
  }
}
