/** The ratings service as it runs, updating rows and aggregates in place. */
module RatingStore {
  import opened Wrappers
  import opened Averages
  import opened OrderStatuses
  import opened Ratings
  import opened Shop

  class Store {
    var products: set<ProductId>
    var orders: seq<Order>
    var ratings: seq<Rating>
    var aggregates: map<ProductId, Aggregate>

    ghost function Snapshot(): State
      reads this
    {
      State(products, orders, ratings, aggregates)
    }

    constructor ()
      ensures Snapshot() == EMPTY_STATE
    {
      products, orders, ratings, aggregates := {}, [], [], map[];
    }

    method LoadScores(p: ProductId) returns (scores: seq<Score>)
      ensures scores == Scores(ratings, p)
    {
      scores := [];
      for i := 0 to |ratings|
        invariant scores == Scores(ratings[..i], p)
      {
        assert ratings[..i + 1] == ratings[..i] + [ratings[i]];
        ScoresOfConcat(ratings[..i], [ratings[i]], p);
        if ratings[i].product == p {
          scores := scores + [ratings[i].score];
        }
      }
      assert ratings[..|ratings|] == ratings;
    }

    /** Rebuilds the aggregate from the raw rows, or removes it when none are left. */
    method Recalculate(p: ProductId) returns (aggregate: Option<Aggregate>)
      modifies this`aggregates
      ensures Snapshot() == Recalculated(old(Snapshot()), p)
      ensures aggregate == AggregateFor(Snapshot(), p)
    {
      var scores := LoadScores(p);
      if scores == [] {
        if p in aggregates {
          aggregates := aggregates - {p};
        }
        return None;
      }
      var average := AverageOf(scores);
      var distribution := BuildDistribution(scores);
      aggregates := aggregates[p := Aggregate(average, |scores|, distribution)];
      aggregate := Some(aggregates[p]);
    }

    /** Searches the lines of the user's completed orders and stops at the first hit. */
    method CanUserRate(u: UserId, p: ProductId) returns (found: bool)
      ensures found == CanRate(orders, u, p)
    {
      for o := 0 to |orders|
        invariant forall k :: 0 <= k < o ==> !Buys(orders[k], u, p)
      {
        if orders[o].user == u && orders[o].status == OrderStatus.Completed {
          var lines := orders[o].lines;
          for i := 0 to |lines|
            invariant forall k :: 0 <= k < i ==> lines[k].product != p
          {
            if lines[i].product == p {
              assert Buys(orders[o], u, p);
              return true;
            }
          }
        }
      }
      found := false;
    }

    method FindRating(u: UserId, p: ProductId) returns (i: nat)
      ensures i == Find(ratings, u, p)
    {
      i := 0;
      while i < |ratings| && !(ratings[i].product == p && ratings[i].user == u)
        invariant i <= |ratings| && forall k :: 0 <= k < i ==> !IsBy(ratings[k], u, p)
      {
        i := i + 1;
      }
    }

    method SetRating(u: UserId, p: ProductId, value: int) returns (result: Result<Summary, Error>)
      modifies this
      ensures (Snapshot(), result) == Ratings.SetRating(old(Snapshot()), u, p, value)
    {
      if !(1 <= value <= 5) {
        return Err(InvalidValue);
      }
      if p !in products {
        return Err(ProductNotFound(p));
      }
      var bought := CanUserRate(u, p);
      if !bought {
        return Err(NotPurchased(p));
      }
      var i := FindRating(u, p);
      if i == |ratings| {
        ratings := ratings + [Rating(p, u, value)];
      } else {
        ratings := ratings[i := ratings[i].(score := value)];
      }
      var aggregate := Recalculate(p);
      result := Ok(SummaryOf(p, Some(value), aggregate));
    }

    method DeleteRating(u: UserId, p: ProductId) returns (result: Result<Summary, Error>)
      modifies this
      ensures (Snapshot(), result) == Ratings.DeleteRating(old(Snapshot()), u, p)
    {
      var i := FindRating(u, p);
      if i == |ratings| {
        return Err(RatingNotFound(p));
      }
      ratings := ratings[..i] + ratings[i + 1..];
      var aggregate := Recalculate(p);
      result := Ok(SummaryOf(p, None, aggregate));
    }
  }
}
