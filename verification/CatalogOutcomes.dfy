/** What the catalogue refuses, what its orders mean, and what its options find, said on the tables. */
module CatalogOutcomes {
  import opened Wrappers
  import opened CatalogTables
  import opened CatalogFilters
  import opened CatalogPages
  import CatalogExactness
  import Facets

  // ------------------------------------------------------------------- refusals

  /** The listing is scoped to a category that exists and is of this type. */
  predicate ScopedTo(db: Database, f: Filters, kind: Kind) {
    f.category.Some? && f.category.value in db.categories && db.categories[f.category.value] == kind
  }

  /** Every facet of one product type is used within a category of that type. */
  predicate FacetsInPlace(db: Database, f: Filters) {
    && (f.equipmentType != [] || f.powerMin.Some? || f.powerMax.Some? || f.warrantyMin.Some? ==>
          ScopedTo(db, f, Equipment))
    && (f.accessoryType != [] ==> ScopedTo(db, f, Accessories))
    && (f.consumableType != [] || f.packMin.Some? || f.packMax.Some? ==> ScopedTo(db, f, Consumables))
    && (f.material != [] ==>
          ScopedTo(db, f, Equipment) || ScopedTo(db, f, Accessories) || ScopedTo(db, f, Consumables))
  }

  /** A category is resolved to its type; only one that does not exist is refused. */
  lemma ScopeIsTheCategorysType(db: Database, f: Filters)
    ensures var scope := ResolveScopeType(db, f);
            && (scope.Err? <==> f.category.Some? && f.category.value !in db.categories)
            && (scope.Err? ==> scope.error == InvalidFilter("product_category_id"))
            && (scope.Ok? ==> (scope.value.None? <==> f.category.None?))
            && (scope.Ok? ==> forall kind :: scope.value == Some(kind) <==> ScopedTo(db, f, kind))
  {
  }

  /** A listing is answered if and only if its category exists and every facet is in place. */
  lemma ListingAcceptedIff(db: Database, f: Filters)
    ensures var scope := ResolveScopeType(db, f);
            scope.Ok? && ValidateTypeFacets(f, scope.value).Ok?
            <==> (f.category.Some? ==> f.category.value in db.categories) && FacetsInPlace(db, f)
  {
    var scope := ResolveScopeType(db, f);
    ScopeIsTheCategorysType(db, f);
    if scope.Ok? {
      FacetsInPlaceIff(db, f, scope.value);
    }
  }

  lemma FacetsInPlaceIff(db: Database, f: Filters, scope: Option<Kind>)
    requires forall kind :: scope == Some(kind) <==> ScopedTo(db, f, kind)
    ensures ValidateTypeFacets(f, scope).Ok? <==> FacetsInPlace(db, f)
  {
    assert scope in MATERIAL_TYPES <==>
           scope == Some(Equipment) || scope == Some(Accessories) || scope == Some(Consumables);
  }

  /** Both bounds are set, and the lower is above the upper. */
  predicate Crossed(low: Option<int>, high: Option<int>) {
    low.Some? && high.Some? && high.value < low.value
  }

  /** The ranges are refused if and only if the bounds of one of the six cross. */
  lemma RangesRefusedIff(f: Filters)
    ensures ValidateRanges(f).Err? <==>
            || Crossed(f.bodyMin, f.bodyMax) || Crossed(f.sweetnessMin, f.sweetnessMax)
            || Crossed(f.altitudeMin, f.altitudeMax) || Crossed(f.priceMin, f.priceMax)
            || Crossed(f.powerMin, f.powerMax) || Crossed(f.packMin, f.packMax)
  {
  }

  // ------------------------------------------------------------------- orders

  /** What standing earlier in a listing means; equal keys are told apart by the id. */
  predicate StandsEarlier(sort: Sort, collation: string -> int, a: Product, b: Product) {
    match sort
    case Newest => b.createdAt <= a.createdAt && (a.createdAt == b.createdAt ==> b.id <= a.id)
    case PriceAsc => a.price <= b.price && (a.price == b.price ==> a.id <= b.id)
    case PriceDesc => b.price <= a.price && (a.price == b.price ==> a.id <= b.id)
    case ByName => collation(a.name) <= collation(b.name) && (collation(a.name) == collation(b.name) ==> a.id <= b.id)
  }

  /** Every answer is in that order from end to end, so its first product is an extreme of all that were selected. */
  lemma AnswersAreInOrder(db: Database, sort: Sort, collation: string -> int, stmt: Select, sorted: seq<Product>)
    requires Valid(db) && IsAnswer(db, sort, collation, stmt, sorted)
    ensures forall i, j :: 0 <= i <= j < |sorted| ==> StandsEarlier(sort, collation, sorted[i], sorted[j])
    ensures forall p :: p in db.products && Selected(db, stmt, p) ==>
              sorted != [] && StandsEarlier(sort, collation, sorted[0], p)
  {
    forall i, j | 0 <= i <= j < |sorted|
      ensures StandsEarlier(sort, collation, sorted[i], sorted[j])
    {
      assert i < j ==> Order(sort, collation)(sorted[i], sorted[j]);
    }
    forall p | p in db.products && Selected(db, stmt, p)
      ensures sorted != [] && StandsEarlier(sort, collation, sorted[0], p)
    {
      AnswerIsExact(db, sort, collation, stmt, sorted, p);
      var j :| 0 <= j < |sorted| && sorted[j] == p;
      assert StandsEarlier(sort, collation, sorted[0], sorted[j]);
    }
  }

  // ------------------------------------------------------------------- options

  /** Choosing an acidity option finds the category's active coffees of these acidities. */
  lemma AcidityOptionFinds(db: Database, category: CategoryId, bucket: AcidityBucket, scope: Option<Kind>, p: Product)
    ensures Selected(db, Build(Facets.ByAcidity(category, bucket), scope), p) <==>
            var d := DetailOf(db, Coffee, p.id);
            && p.active && p.category == category && d.Some? && Acidity in d.value.number
            && d.value.number[Acidity] in match bucket case Soft => {1, 2} case Balanced => {3} case Bright => {4, 5}
  {
    CatalogExactness.SelectedIffMatches(db, Facets.ByAcidity(category, bucket), scope, p);
  }

  /** The rating filter finds the active products whose stored average, in stars, is at least the number asked for. */
  lemma RatingFilterFinds(db: Database, stars: real, p: Product)
    ensures Selected(db, Build(NO_FILTERS.(minRating := Some(stars)), None), p) <==>
            p.active && exists i :: 0 <= i < |db.ratings| && db.ratings[i].product == p.id
                                    && db.ratings[i].average as real >= 10.0 * stars
  {
    var f := NO_FILTERS.(minRating := Some(stars));
    CatalogExactness.SelectedIffMatches(db, f, None, p);
    if r :| r in db.ratings && RatedAtLeastRow(r, p.id, stars) {
      var i :| 0 <= i < |db.ratings| && db.ratings[i] == r;
      assert db.ratings[i].product == p.id;
    }
    if i :| 0 <= i < |db.ratings| && db.ratings[i].product == p.id && db.ratings[i].average as real >= 10.0 * stars {
      assert db.ratings[i] in db.ratings && RatedAtLeastRow(db.ratings[i], p.id, stars);
    }
  }
}
