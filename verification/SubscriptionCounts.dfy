/** The numbers the services report are the numbers of rows that changed. */
module SubscriptionCounts {
  import opened Wrappers
  import opened Calendar
  import opened Frequency
  import opened Shop
  import opened SubscriptionTables
  import opened SubscriptionSteps
  import opened SubscriptionInvariant
  import opened SubscriptionRuns
  import opened SchedulerRuns
  import opened ExtensionOutcomes
  import opened SubscriptionStore

  /** In how many of the first `n` places two tables differ. */
  function Changes<T(==)>(before: seq<T>, after: seq<T>, n: nat): nat
    requires n <= |before| && n <= |after|
  {
    if n == 0 then 0 else Changes(before, after, n - 1) + if before[n - 1] == after[n - 1] then 0 else 1
  }

  lemma {:induction false} RefundsCounted(s: State, k: SubId, n: nat)
    requires n <= |s.payments|
    ensures RefundableCount(s, k, n) == Changes(s.payments, RefundUndelivered(s, k).payments, n)
    decreases n
  {
    if n > 0 {
      RefundsCounted(s, k, n - 1);
    }
  }

  lemma {:induction false} SyncsCounted(s: State, n: nat)
    requires n <= |s.events|
    ensures SyncCount(s, n) == Changes(s.events, SyncCompleted(s).events, n)
    decreases n
  {
    if n > 0 {
      SyncsCounted(s, n - 1);
    }
  }

  /** The rows whose subscription ends up with more dates than it had. */
  ghost function Extended(s: State, r: State, rows: seq<(SubId, Date)>): set<nat> {
    set i: nat | i < |rows| && |DatesOf(s.events, rows[i].0)| < |DatesOf(r.events, rows[i].0)|
  }

  lemma Sold(s: State, rows: seq<(SubId, Date)>, catalog: Catalog, provider: Option<Provider>, i: nat)
    requires forall j :: 0 <= j < |rows| ==> rows[j].0 < |s.subs|
    requires forall j, k :: 0 <= j < k < |rows| ==> rows[j].0 != rows[k].0
    requires i < |rows|
    ensures i in Extended(s, ExtendRows(s, rows, catalog, provider), rows) <==>
            ExtensionProduct(s, rows[i].0, catalog).Some?
  {
    ExtendedDates(s, rows, catalog, provider, i);
  }

  /** The positions of the picked elements. */
  function Positions<T>(rows: seq<T>, pick: T -> bool): set<nat> {
    set i: nat | i < |rows| && pick(rows[i])
  }

  lemma PositionsSnoc<T>(rows: seq<T>, pick: T -> bool)
    requires rows != []
    ensures var n := |rows| - 1;
            |Positions(rows, pick)| == |Positions(rows[..n], pick)| + if pick(rows[n]) then 1 else 0
  {
    var n := |rows| - 1;
    var before := Positions(rows[..n], pick);
    assert Positions(rows, pick) == before + if pick(rows[n]) then {n} else {};
  }

  /** Whether the subscription of a queried row has a product that is still sold. */
  function Sells(s: State, catalog: Catalog): ((SubId, Date)) -> bool {
    (row: (SubId, Date)) => ExtensionProduct(s, row.0, catalog).Some?
  }

  lemma {:induction false} SoldRowsCounted(s: State, rows: seq<(SubId, Date)>, catalog: Catalog, provider: Option<Provider>)
    requires forall i :: 0 <= i < |rows| ==> rows[i].0 < |s.subs|
    ensures ExtendCount(s, rows, catalog, provider) == |Positions(rows, Sells(s, catalog))|
  {
    if rows == [] {
      assert Positions(rows, Sells(s, catalog)) == {};
    } else {
      var n := |rows| - 1;
      SoldRowsCounted(s, rows[..n], catalog, provider);
      ExtendKeepsProducts(s, rows[..n], catalog, provider, rows[n].0);
      PositionsSnoc(rows, Sells(s, catalog));
    }
  }

  /** The reported number of extensions is how many of the queried subscriptions have more dates afterwards. */
  lemma ExtensionsCounted(s: State, today: Date, rows: seq<(SubId, Date)>, catalog: Catalog, provider: Option<Provider>)
    requires IsExtensionQuery(s, today, rows)
    ensures ExtendCount(s, rows, catalog, provider) == |Extended(s, ExtendRows(s, rows, catalog, provider), rows)|
  {
    ExtensionRowsDistinct(s, today, rows);
    SoldRowsCounted(s, rows, catalog, provider);
    var r := ExtendRows(s, rows, catalog, provider);
    forall i: nat | i < |rows|
      ensures i in Extended(s, r, rows) <==> i in Positions(rows, Sells(s, catalog))
    {
      Sold(s, rows, catalog, provider, i);
    }
    assert Extended(s, r, rows) == Positions(rows, Sells(s, catalog));
  }
}
