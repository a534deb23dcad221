/** The acidity facet of one category's active coffees, against what the filter then finds. */
module Facets {
  import opened Wrappers
  import opened CatalogTables
  import opened CatalogFilters
  import CatalogExactness

  /** The coffee rows the facet queries run over: active products of the category, joined on the id. */
  function ActiveCoffees(db: Database, category: CategoryId, products: seq<Product>): seq<Detail> {
    if products == [] then []
    else
      var d := DetailOf(db, Coffee, products[0].id);
      (if products[0].active && products[0].category == category && d.Some? then [d.value] else [])
      + ActiveCoffees(db, category, products[1..])
  }

  // ------------------------------------------------------------------- acidity

  /** The column is not null and its check keeps it between 1 and 5. */
  ghost predicate AcidityChecked(db: Database) {
    forall d :: d in db.coffee ==> Acidity in d.number && 1 <= d.number[Acidity] <= 5
  }

  function Acidities(coffees: seq<Detail>): seq<int> {
    if coffees == [] then []
    else (if Acidity in coffees[0].number then [coffees[0].number[Acidity]] else []) + Acidities(coffees[1..])
  }

  function CountOf(values: seq<int>, v: int): nat {
    if values == [] then 0 else (if values[0] == v then 1 else 0) + CountOf(values[1..], v)
  }

  datatype Group = Group(value: int, count: nat)

  /** The answer to a grouped count, in any order: one group per value that occurs. */
  ghost predicate IsGroupBy(values: seq<int>, groups: seq<Group>) {
    && (forall i, j :: 0 <= i < j < |groups| ==> groups[i].value != groups[j].value)
    && (forall g :: g in groups ==> g.count == CountOf(values, g.value))
    && (forall v :: v in values ==> exists g :: g in groups && g.value == v)
  }

  /** The bucket the facet puts a value in. */
  function BucketOf(v: int): AcidityBucket {
    if v <= 2 then Soft else if v == 3 then Balanced else Bright
  }

  function BucketSum(groups: seq<Group>, bucket: AcidityBucket): nat {
    if groups == [] then 0
    else
      var last := groups[|groups| - 1];
      BucketSum(groups[..|groups| - 1], bucket) + if BucketOf(last.value) == bucket then last.count else 0
  }

  method AcidityFacet(groups: seq<Group>) returns (soft: nat, balanced: nat, bright: nat)
    ensures soft == BucketSum(groups, Soft) && balanced == BucketSum(groups, Balanced) && bright == BucketSum(groups, Bright)
  {
    soft, balanced, bright := 0, 0, 0;
    for i := 0 to |groups|
      invariant soft == BucketSum(groups[..i], Soft)
      invariant balanced == BucketSum(groups[..i], Balanced)
      invariant bright == BucketSum(groups[..i], Bright)
    {
      assert groups[..i + 1][..i] == groups[..i];
      var g := groups[i];
      if g.value <= 2 {
        soft := soft + g.count;
      } else if g.value == 3 {
        balanced := balanced + g.count;
      } else {
        bright := bright + g.count;
      }
    }
    assert groups[..|groups|] == groups;
  }

  function InBucket(values: seq<int>, bucket: AcidityBucket): nat {
    if values == [] then 0 else (if BucketOf(values[0]) == bucket then 1 else 0) + InBucket(values[1..], bucket)
  }

  function Dropping(values: seq<int>, v: int): seq<int> {
    if values == [] then [] else (if values[0] == v then [] else [values[0]]) + Dropping(values[1..], v)
  }

  lemma {:induction false} DroppingCounts(values: seq<int>, v: int, bucket: AcidityBucket, w: int)
    ensures InBucket(values, bucket) ==
            InBucket(Dropping(values, v), bucket) + if BucketOf(v) == bucket then CountOf(values, v) else 0
    ensures w != v ==> CountOf(Dropping(values, v), w) == CountOf(values, w)
    ensures w in Dropping(values, v) <==> w in values && w != v
  {
    if values != [] {
      DroppingCounts(values[1..], v, bucket, w);
      if values[0] != v {
        assert Dropping(values, v)[1..] == Dropping(values[1..], v);
      } else {
        assert Dropping(values, v) == Dropping(values[1..], v);
      }
      assert w in values <==> w == values[0] || w in values[1..];
    }
  }

  lemma SomeGroup(values: seq<int>, groups: seq<Group>)
    requires values != [] && IsGroupBy(values, groups)
    ensures groups != []
  {
    assert values[0] in values;
    var g :| g in groups && g.value == values[0];
  }

  lemma {:induction false} BucketSumCounts(values: seq<int>, groups: seq<Group>, bucket: AcidityBucket)
    requires IsGroupBy(values, groups)
    ensures BucketSum(groups, bucket) == InBucket(values, bucket)
    decreases |groups|
  {
    if values != [] {
      SomeGroup(values, groups);
    }
    if groups != [] {
      var last, before := groups[|groups| - 1], groups[..|groups| - 1];
      var rest := Dropping(values, last.value);
      assert groups == before + [last];
      assert last in groups;
      DroppingCounts(values, last.value, bucket, 0);
      LastGroupDropped(values, groups);
      BucketSumCounts(rest, before, bucket);
    }
  }

  lemma LastGroupDropped(values: seq<int>, groups: seq<Group>)
    requires groups != [] && IsGroupBy(values, groups)
    ensures IsGroupBy(Dropping(values, groups[|groups| - 1].value), groups[..|groups| - 1])
  {
    var last, before := groups[|groups| - 1], groups[..|groups| - 1];
    var rest := Dropping(values, last.value);
    forall g | g in before
      ensures g.count == CountOf(rest, g.value)
    {
      assert g in groups;
      DroppingCounts(values, last.value, Soft, g.value);
    }
    forall v | v in rest
      ensures exists g :: g in before && g.value == v
    {
      DroppingCounts(values, last.value, Soft, v);
      var g :| g in groups && g.value == v;
      assert g in before;
    }
  }

  // ------------------------------------------------------------------- acidity against the filter

  /** The filter a customer sets by choosing an acidity option. */
  function ByAcidity(category: CategoryId, bucket: AcidityBucket): Filters {
    NO_FILTERS.(category := Some(category), acidity := Some(bucket))
  }

  lemma AcidityMatches(db: Database, category: CategoryId, bucket: AcidityBucket, scope: Option<Kind>, p: Product)
    requires AcidityChecked(db)
    ensures var d := DetailOf(db, Coffee, p.id);
            Matches(db, ByAcidity(category, bucket), scope, p) <==>
            p.active && p.category == category && d.Some? && Acidity in d.value.number
            && BucketOf(d.value.number[Acidity]) == bucket
  {
    DetailInMember(db.coffee, p.id);
  }

  lemma {:induction false} FilteredByAcidity(db: Database, category: CategoryId, bucket: AcidityBucket,
                                             scope: Option<Kind>,
                                             products: seq<Product>)
    requires AcidityChecked(db)
    ensures |Matching(db, ByAcidity(category, bucket), scope, products)| ==
            InBucket(Acidities(ActiveCoffees(db, category, products)), bucket)
  {
    if products != [] {
      FilteredByAcidity(db, category, bucket, scope, products[1..]);
      OneCoffee(db, category, products);
      AcidityMatches(db, category, bucket, scope, products[0]);
    }
  }

  /** The first product's share of the values. */
  lemma OneCoffee(db: Database, category: CategoryId, products: seq<Product>)
    requires products != [] && AcidityChecked(db)
    ensures var p := products[0]; var d := DetailOf(db, Coffee, p.id);
            var rest := Acidities(ActiveCoffees(db, category, products[1..]));
            var all := Acidities(ActiveCoffees(db, category, products));
            if p.active && p.category == category && d.Some?
            then Acidity in d.value.number && 1 <= d.value.number[Acidity] <= 5 && all == [d.value.number[Acidity]] + rest
            else all == rest
  {
    var p := products[0];
    var d := DetailOf(db, Coffee, p.id);
    var coffees, later := ActiveCoffees(db, category, products), ActiveCoffees(db, category, products[1..]);
    DetailInMember(db.coffee, p.id);
    if p.active && p.category == category && d.Some? {
      assert coffees == [d.value] + later && coffees[1..] == later;
    } else {
      assert coffees == later;
    }
  }

  /** The number beside an acidity option is how many products choosing it finds. */
  lemma AcidityCountIsFilteredTotal(db: Database, category: CategoryId, groups: seq<Group>, bucket: AcidityBucket,
                                    scope: Option<Kind>)
    requires Valid(db) && AcidityChecked(db)
    requires IsGroupBy(Acidities(ActiveCoffees(db, category, db.products)), groups)
    ensures BucketSum(groups, bucket) == |Rows(db, Build(ByAcidity(category, bucket), scope), db.products)|
  {
    CatalogExactness.QueryReturnsMatches(db, ByAcidity(category, bucket), scope, db.products);
    BucketSumCounts(Acidities(ActiveCoffees(db, category, db.products)), groups, bucket);
    FilteredByAcidity(db, category, bucket, scope, db.products);
  }

  lemma {:induction false} BucketsPartition(values: seq<int>)
    ensures InBucket(values, Soft) + InBucket(values, Balanced) + InBucket(values, Bright) == |values|
  {
    if values != [] {
      BucketsPartition(values[1..]);
    }
  }

  lemma {:induction false} AllHaveAcidity(db: Database, category: CategoryId, products: seq<Product>)
    requires AcidityChecked(db)
    ensures |Acidities(ActiveCoffees(db, category, products))| == |ActiveCoffees(db, category, products)|
  {
    if products != [] {
      AllHaveAcidity(db, category, products[1..]);
      OneCoffee(db, category, products);
    }
  }

  /** The three counts add up to the category's active coffees. */
  lemma AcidityCountsAddUp(db: Database, category: CategoryId, groups: seq<Group>)
    requires AcidityChecked(db)
    requires IsGroupBy(Acidities(ActiveCoffees(db, category, db.products)), groups)
    ensures BucketSum(groups, Soft) + BucketSum(groups, Balanced) + BucketSum(groups, Bright) ==
            |ActiveCoffees(db, category, db.products)|
  {
    var values := Acidities(ActiveCoffees(db, category, db.products));
    BucketSumCounts(values, groups, Soft);
    BucketSumCounts(values, groups, Balanced);
    BucketSumCounts(values, groups, Bright);
    BucketsPartition(values);
    AllHaveAcidity(db, category, db.products);
  }
}
