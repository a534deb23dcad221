/** The conditionally joined query returns exactly the products that match every facet that is set. */
module CatalogExactness {
  import opened Wrappers
  import opened CatalogTables
  import opened CatalogFilters

  // ------------------------------------------------------------------- one condition

  lemma KeepsAppend(db: Database, before: seq<Cond>, c: Cond, p: Product, env: Env)
    ensures Keeps(db, before + [c], p, env) <==> Keeps(db, before, p, env) && Eval(db, c, p, env) == Yes
  {
    if Keeps(db, before + [c], p, env) {
      assert c in before + [c];
      assert forall d :: d in before ==> d in before + [c];
    }
  }

  lemma KeepsText(db: Database, before: seq<Cond>, kind: Kind, column: TextColumn, values: seq<string>,
                  p: Product, env: Env)
    requires kind in env
    ensures Keeps(db, before + TextConds(kind, column, values), p, env) <==>
            Keeps(db, before, p, env) && TextAsked(Some(env[kind]), column, values)
  {
    if values == [] {
      assert before + TextConds(kind, column, values) == before;
    } else {
      KeepsAppend(db, before, TextIn(kind, column, values), p, env);
    }
  }

  lemma KeepsMaterial(db: Database, before: seq<Cond>, kind: Kind, values: seq<string>, p: Product, env: Env)
    requires kind in env
    ensures Keeps(db, before + MaterialConds(kind, values), p, env) <==>
            Keeps(db, before, p, env) && (values == [] || MaterialAsked(Some(env[kind]), values))
  {
    if values == [] {
      assert before + MaterialConds(kind, values) == before;
    } else {
      KeepsAppend(db, before, LowerTextIn(kind, Material, values), p, env);
    }
  }

  lemma KeepsMin(db: Database, before: seq<Cond>, kind: Kind, column: NumberColumn, bound: Option<int>,
                 p: Product, env: Env)
    requires kind in env
    ensures Keeps(db, before + MinConds(kind, column, bound), p, env) <==>
            Keeps(db, before, p, env) && MinAsked(Some(env[kind]), column, bound)
  {
    if bound.None? {
      assert before + MinConds(kind, column, bound) == before;
    } else {
      KeepsAppend(db, before, AtLeast(kind, column, bound.value), p, env);
    }
  }

  lemma KeepsMax(db: Database, before: seq<Cond>, kind: Kind, column: NumberColumn, bound: Option<int>,
                 p: Product, env: Env)
    requires kind in env
    ensures Keeps(db, before + MaxConds(kind, column, bound), p, env) <==>
            Keeps(db, before, p, env) && MaxAsked(Some(env[kind]), column, bound)
  {
    if bound.None? {
      assert before + MaxConds(kind, column, bound) == before;
    } else {
      KeepsAppend(db, before, AtMost(kind, column, bound.value), p, env);
    }
  }

  lemma KeepsFlavor(db: Database, before: seq<Cond>, keys: seq<string>, p: Product, env: Env)
    requires Coffee in env
    ensures Keeps(db, before + FlavorConds(keys), p, env) <==>
            Keeps(db, before, p, env) && FlavorAsked(Some(env[Coffee]), keys)
  {
    if keys == [] {
      assert before + FlavorConds(keys) == before;
    } else {
      KeepsAppend(db, before, AnyFlavor(keys), p, env);
    }
  }

  lemma KeepsAcidity(db: Database, before: seq<Cond>, bucket: Option<AcidityBucket>, p: Product, env: Env)
    requires Coffee in env
    ensures Keeps(db, before + AcidityConds(bucket), p, env) <==>
            Keeps(db, before, p, env) && AcidityAsked(Some(env[Coffee]), bucket)
  {
    if bucket.None? {
      assert before + AcidityConds(bucket) == before;
    } else {
      var (low, high) := AcidityRange(bucket.value);
      KeepsAppend(db, before, Between(Coffee, Acidity, low, high), p, env);
    }
  }

  // ------------------------------------------------------------------- one table

  lemma KeepsCoffee(db: Database, before: seq<Cond>, f: Filters, p: Product, env: Env)
    requires Coffee in env
    ensures Keeps(db, WithCoffee(before, f), p, env) <==> Keeps(db, before, p, env) && CoffeeAsked(f, Some(env[Coffee]))
  {
    var w1 := before + FlavorConds(f.flavorNotes);
    var w2 := w1 + TextConds(Coffee, Region, f.region);
    var w3 := w2 + TextConds(Coffee, RoastLevel, f.roastLevel);
    var w4 := w3 + TextConds(Coffee, Processing, f.processing);
    var w5 := w4 + AcidityConds(f.acidity);
    var w6 := w5 + MinConds(Coffee, Body, f.bodyMin);
    var w7 := w6 + MaxConds(Coffee, Body, f.bodyMax);
    var w8 := w7 + MinConds(Coffee, Sweetness, f.sweetnessMin);
    var w9 := w8 + MaxConds(Coffee, Sweetness, f.sweetnessMax);
    var w10 := w9 + MinConds(Coffee, Altitude, f.altitudeMin);
    KeepsFlavor(db, before, f.flavorNotes, p, env);
    KeepsText(db, w1, Coffee, Region, f.region, p, env);
    KeepsText(db, w2, Coffee, RoastLevel, f.roastLevel, p, env);
    KeepsText(db, w3, Coffee, Processing, f.processing, p, env);
    KeepsAcidity(db, w4, f.acidity, p, env);
    KeepsMin(db, w5, Coffee, Body, f.bodyMin, p, env);
    KeepsMax(db, w6, Coffee, Body, f.bodyMax, p, env);
    KeepsMin(db, w7, Coffee, Sweetness, f.sweetnessMin, p, env);
    KeepsMax(db, w8, Coffee, Sweetness, f.sweetnessMax, p, env);
    KeepsMin(db, w9, Coffee, Altitude, f.altitudeMin, p, env);
    KeepsMax(db, w10, Coffee, Altitude, f.altitudeMax, p, env);
  }

  lemma KeepsEquipment(db: Database, before: seq<Cond>, f: Filters, p: Product, env: Env)
    requires Equipment in env
    ensures Keeps(db, WithEquipment(before, f), p, env) <==>
            Keeps(db, before, p, env) && EquipmentAsked(f, Some(env[Equipment]))
            && (f.material == [] || MaterialAsked(Some(env[Equipment]), f.material))
  {
    var w1 := before + TextConds(Equipment, EquipmentType, f.equipmentType);
    var w2 := w1 + MinConds(Equipment, PowerWatts, f.powerMin);
    var w3 := w2 + MaxConds(Equipment, PowerWatts, f.powerMax);
    var w4 := w3 + MinConds(Equipment, WarrantyMonths, f.warrantyMin);
    KeepsText(db, before, Equipment, EquipmentType, f.equipmentType, p, env);
    KeepsMin(db, w1, Equipment, PowerWatts, f.powerMin, p, env);
    KeepsMax(db, w2, Equipment, PowerWatts, f.powerMax, p, env);
    KeepsMin(db, w3, Equipment, WarrantyMonths, f.warrantyMin, p, env);
    KeepsMaterial(db, w4, Equipment, f.material, p, env);
  }

  lemma KeepsAccessories(db: Database, before: seq<Cond>, f: Filters, p: Product, env: Env)
    requires Accessories in env
    ensures Keeps(db, WithAccessories(before, f), p, env) <==>
            Keeps(db, before, p, env) && TextAsked(Some(env[Accessories]), AccessoryType, f.accessoryType)
            && (f.material == [] || MaterialAsked(Some(env[Accessories]), f.material))
  {
    KeepsText(db, before, Accessories, AccessoryType, f.accessoryType, p, env);
    KeepsMaterial(db, before + TextConds(Accessories, AccessoryType, f.accessoryType), Accessories, f.material, p, env);
  }

  lemma KeepsConsumables(db: Database, before: seq<Cond>, f: Filters, p: Product, env: Env)
    requires Consumables in env
    ensures Keeps(db, WithConsumables(before, f), p, env) <==>
            Keeps(db, before, p, env) && ConsumableAsked(f, Some(env[Consumables]))
            && (f.material == [] || MaterialAsked(Some(env[Consumables]), f.material))
  {
    var w1 := before + TextConds(Consumables, ConsumableType, f.consumableType);
    var w2 := w1 + MinConds(Consumables, QuantityPerPack, f.packMin);
    var w3 := w2 + MaxConds(Consumables, QuantityPerPack, f.packMax);
    KeepsText(db, before, Consumables, ConsumableType, f.consumableType, p, env);
    KeepsMin(db, w1, Consumables, QuantityPerPack, f.packMin, p, env);
    KeepsMax(db, w2, Consumables, QuantityPerPack, f.packMax, p, env);
    KeepsMaterial(db, w3, Consumables, f.material, p, env);
  }

  predicate UniversalAsked(db: Database, f: Filters, p: Product) {
    p.active && (f.category.None? || p.category == f.category.value) && PriceAsked(f, p) && RatingAsked(db, f, p)
  }

  lemma KeepsUniversal(db: Database, f: Filters, p: Product, env: Env)
    ensures Keeps(db, UniversalConds(f), p, env) <==> UniversalAsked(db, f, p)
  {
    var w0: seq<Cond> := [IsActive];
    var w1 := w0 + CategoryConds(f);
    var w2 := w1 + PriceMinConds(f);
    var w3 := w2 + PriceMaxConds(f);
    KeepsAppend(db, [], IsActive, p, env);
    assert [] + w0 == w0;
    KeepsOptional(db, w0, CategoryConds(f), p, env);
    KeepsOptional(db, w1, PriceMinConds(f), p, env);
    KeepsOptional(db, w2, PriceMaxConds(f), p, env);
    KeepsOptional(db, w3, RatingConds(f), p, env);
  }

  lemma KeepsOptional(db: Database, before: seq<Cond>, more: seq<Cond>, p: Product, env: Env)
    requires |more| <= 1
    ensures Keeps(db, before + more, p, env) <==>
            Keeps(db, before, p, env) && (more == [] || Eval(db, more[0], p, env) == Yes)
  {
    if more == [] {
      assert before + more == before;
    } else {
      assert more == [more[0]];
      KeepsAppend(db, before, more[0], p, env);
    }
  }

  // ------------------------------------------------------------------- the whole query

  /** The facets of the type tables and the material. */
  predicate TypeAsked(db: Database, f: Filters, scope: Option<Kind>, id: Id) {
    && EquipmentAsked(f, DetailOf(db, Equipment, id))
    && TextAsked(DetailOf(db, Accessories, id), AccessoryType, f.accessoryType)
    && ConsumableAsked(f, DetailOf(db, Consumables, id))
    && (f.material == [] || (scope.Some? && MaterialAsked(DetailOf(db, scope.value, id), f.material)))
  }

  /** `env` holds the product's own rows. */
  ghost predicate OwnRows(db: Database, id: Id, env: Env) {
    forall kind :: kind in env ==> DetailOf(db, kind, id) == Some(env[kind])
  }

  lemma CoffeePartKeeps(db: Database, stmt: Select, f: Filters, p: Product, env: Env)
    requires OwnRows(db, p.id, env) && forall kind :: kind in CoffeePart(stmt, f).joins ==> kind in env
    ensures Keeps(db, CoffeePart(stmt, f).wheres, p, env) <==>
            Keeps(db, stmt.wheres, p, env) && CoffeeAsked(f, DetailOf(db, Coffee, p.id))
  {
    if HasCoffeeFilter(f) {
      assert Coffee in CoffeePart(stmt, f).joins;
      KeepsCoffee(db, stmt.wheres, f, p, env);
    }
  }

  lemma TypePartKeeps(db: Database, stmt: Select, f: Filters, scope: Option<Kind>, p: Product, env: Env)
    requires ValidateTypeFacets(f, scope).Ok?
    requires OwnRows(db, p.id, env) && forall kind :: kind in TypePart(stmt, f, scope).joins ==> kind in env
    ensures Keeps(db, TypePart(stmt, f, scope).wheres, p, env) <==>
            Keeps(db, stmt.wheres, p, env) && TypeAsked(db, f, scope, p.id)
  {
    var joins := TypePart(stmt, f, scope).joins;
    if scope == Some(Equipment) && (HasEquipmentFilter(f) || HasMaterialFilter(f)) {
      assert Equipment in joins;
      KeepsEquipment(db, stmt.wheres, f, p, env);
    } else if scope == Some(Accessories) && (HasAccessoryFilter(f) || HasMaterialFilter(f)) {
      assert Accessories in joins;
      KeepsAccessories(db, stmt.wheres, f, p, env);
    } else if scope == Some(Consumables) && (HasConsumableFilter(f) || HasMaterialFilter(f)) {
      assert Consumables in joins;
      KeepsConsumables(db, stmt.wheres, f, p, env);
    }
  }

  /** A joined table whose row is missing belongs to a facet that is set, so the product does not match. */
  lemma MissingRowDoesNotMatch(db: Database, f: Filters, scope: Option<Kind>, p: Product)
    requires !HasAll(db, Build(f, scope).joins, p.id)
    ensures !(CoffeeAsked(f, DetailOf(db, Coffee, p.id)) && TypeAsked(db, f, scope, p.id))
  {
    var kind :| kind in Build(f, scope).joins && DetailOf(db, kind, p.id).None?;
    JoinedKinds(f, scope, kind);
    if kind == Coffee {
      assert !CoffeeAsked(f, None);
    } else {
      assert !TypeAsked(db, f, scope, p.id);
    }
  }

  /** A table is joined only for a facet of its own. */
  lemma JoinedKinds(f: Filters, scope: Option<Kind>, kind: Kind)
    requires kind in Build(f, scope).joins
    ensures kind == Coffee ==> HasCoffeeFilter(f)
    ensures kind != Coffee ==> scope == Some(kind)
    ensures kind == Equipment ==> HasEquipmentFilter(f) || HasMaterialFilter(f)
    ensures kind == Accessories ==> HasAccessoryFilter(f) || HasMaterialFilter(f)
    ensures kind == Consumables ==> HasConsumableFilter(f) || HasMaterialFilter(f)
  {
  }

  /** A product is selected exactly when it is active and has every facet that is set. */
  lemma SelectedIffMatches(db: Database, f: Filters, scope: Option<Kind>, p: Product)
    requires ValidateTypeFacets(f, scope).Ok?
    ensures Selected(db, Build(f, scope), p) <==> Matches(db, f, scope, p)
  {
    var stmt := Build(f, scope);
    assert Matches(db, f, scope, p) <==>
           UniversalAsked(db, f, p) && CoffeeAsked(f, DetailOf(db, Coffee, p.id)) && TypeAsked(db, f, scope, p.id);
    if HasAll(db, stmt.joins, p.id) {
      var env := EnvOf(db, stmt.joins, p.id);
      var universal := Select([], UniversalConds(f));
      KeepsUniversal(db, f, p, env);
      TypePartJoins(CoffeePart(universal, f), f, scope);
      CoffeePartKeeps(db, universal, f, p, env);
      TypePartKeeps(db, CoffeePart(universal, f), f, scope, p, env);
    } else {
      MissingRowDoesNotMatch(db, f, scope, p);
    }
  }

  lemma TypePartJoins(stmt: Select, f: Filters, scope: Option<Kind>)
    ensures forall kind :: kind in stmt.joins ==> kind in TypePart(stmt, f, scope).joins
  {
  }

  /**
    The listing's rows, joins and all, are the matching products in table order, each once: no
    set facet is dropped and no join repeats or loses a product.
   */
  lemma {:induction false} QueryReturnsMatches(db: Database, f: Filters, scope: Option<Kind>, products: seq<Product>)
    requires Valid(db) && ValidateTypeFacets(f, scope).Ok?
    ensures Rows(db, Build(f, scope), products) == Matching(db, f, scope, products)
  {
    if products != [] {
      OneRowEach(db, Build(f, scope), products[0]);
      SelectedIffMatches(db, f, scope, products[0]);
      QueryReturnsMatches(db, f, scope, products[1..]);
    }
  }

  lemma {:induction false} MatchingMembers(db: Database, f: Filters, scope: Option<Kind>,
                                           products: seq<Product>, p: Product)
    ensures p in Matching(db, f, scope, products) <==> p in products && Matches(db, f, scope, p)
  {
    if products != [] {
      MatchingMembers(db, f, scope, products[1..], p);
      assert p in products <==> p == products[0] || p in products[1..];
    }
  }

  lemma {:induction false} MatchingIsUnique(db: Database, f: Filters, scope: Option<Kind>, products: seq<Product>)
    requires UniqueProducts(products)
    ensures UniqueProducts(Matching(db, f, scope, products))
  {
    if products != [] {
      MatchingIsUnique(db, f, scope, products[1..]);
      var rest := Matching(db, f, scope, products[1..]);
      forall j | 0 <= j < |rest|
        ensures rest[j].id != products[0].id
      {
        MatchingMembers(db, f, scope, products[1..], rest[j]);
      }
    }
  }

  /** Membership and uniqueness of the listing, for the whole table. */
  lemma ListingIsExact(db: Database, f: Filters, scope: Option<Kind>, p: Product)
    requires Valid(db) && ValidateTypeFacets(f, scope).Ok?
    ensures var listed := Rows(db, Build(f, scope), db.products);
            && (p in listed <==> p in db.products && Matches(db, f, scope, p))
            && UniqueProducts(listed)
  {
    QueryReturnsMatches(db, f, scope, db.products);
    MatchingMembers(db, f, scope, db.products, p);
    MatchingIsUnique(db, f, scope, db.products);
  }

  ghost predicate Reads(wheres: seq<Cond>, kinds: set<Kind>) {
    forall c :: c in wheres ==> Needs(c) <= kinds
  }

  lemma CoffeeReads(before: seq<Cond>, f: Filters, kinds: set<Kind>)
    requires Reads(before, kinds) && Coffee in kinds
    ensures Reads(WithCoffee(before, f), kinds)
  {
    var first := before + FlavorConds(f.flavorNotes) + TextConds(Coffee, Region, f.region)
                 + TextConds(Coffee, RoastLevel, f.roastLevel) + TextConds(Coffee, Processing, f.processing);
    assert Reads(first, kinds);
    var second := first + AcidityConds(f.acidity) + MinConds(Coffee, Body, f.bodyMin) + MaxConds(Coffee, Body, f.bodyMax);
    assert Reads(second, kinds);
  }

  lemma TypeReads(stmt: Select, f: Filters, scope: Option<Kind>, kinds: set<Kind>)
    requires Reads(stmt.wheres, kinds) && forall kind :: kind in TypePart(stmt, f, scope).joins ==> kind in kinds
    ensures Reads(TypePart(stmt, f, scope).wheres, kinds)
  {
    var joins := TypePart(stmt, f, scope).joins;
    if joins != stmt.joins {
      assert joins[|stmt.joins|] in joins;
    }
  }

  /** The query never names a table it did not join, so it never becomes a product of tables. */
  lemma QueryIsWellJoined(f: Filters, scope: Option<Kind>)
    ensures WellJoined(Build(f, scope))
  {
    var universal := Select([], UniversalConds(f));
    var coffee := CoffeePart(universal, f);
    var kinds := set kind | kind in Build(f, scope).joins;
    assert Reads(universal.wheres, kinds);
    TypePartJoins(coffee, f, scope);
    if HasCoffeeFilter(f) {
      assert Coffee in coffee.joins;
      CoffeeReads(universal.wheres, f, kinds);
    }
    TypeReads(coffee, f, scope, kinds);
  }

  // ------------------------------------------------------------------- why the checks are needed

  function WithoutEquipment(f: Filters): Filters {
    f.(equipmentType := [], powerMin := None, powerMax := None, warrantyMin := None)
  }

  function WithoutAccessory(f: Filters): Filters {
    f.(accessoryType := [])
  }

  function WithoutConsumable(f: Filters): Filters {
    f.(consumableType := [], packMin := None, packMax := None)
  }

  function WithoutMaterial(f: Filters): Filters {
    f.(material := [])
  }

  /** The query is the same with and without a facet group that is set. */
  predicate DropsAFacet(f: Filters, scope: Option<Kind>) {
    || (HasEquipmentFilter(f) && Build(f, scope) == Build(WithoutEquipment(f), scope))
    || (HasAccessoryFilter(f) && Build(f, scope) == Build(WithoutAccessory(f), scope))
    || (HasConsumableFilter(f) && Build(f, scope) == Build(WithoutConsumable(f), scope))
    || (HasMaterialFilter(f) && Build(f, scope) == Build(WithoutMaterial(f), scope))
  }

  lemma DroppedEquipment(f: Filters, scope: Option<Kind>)
    requires HasEquipmentFilter(f)
    ensures Build(f, scope) == Build(WithoutEquipment(f), scope) <==> scope != Some(Equipment)
  {
    var g := WithoutEquipment(f);
    assert CoffeePart(Select([], UniversalConds(f)), f) == CoffeePart(Select([], UniversalConds(g)), g);
    var before := CoffeePart(Select([], UniversalConds(f)), f).wheres;
    assert |WithEquipment(before, f)| > |WithEquipment(before, g)|;
  }

  lemma DroppedAccessory(f: Filters, scope: Option<Kind>)
    requires HasAccessoryFilter(f)
    ensures Build(f, scope) == Build(WithoutAccessory(f), scope) <==> scope != Some(Accessories)
  {
    var g := WithoutAccessory(f);
    assert CoffeePart(Select([], UniversalConds(f)), f) == CoffeePart(Select([], UniversalConds(g)), g);
    var before := CoffeePart(Select([], UniversalConds(f)), f).wheres;
    assert |WithAccessories(before, f)| > |WithAccessories(before, g)|;
  }

  lemma DroppedConsumable(f: Filters, scope: Option<Kind>)
    requires HasConsumableFilter(f)
    ensures Build(f, scope) == Build(WithoutConsumable(f), scope) <==> scope != Some(Consumables)
  {
    var g := WithoutConsumable(f);
    assert CoffeePart(Select([], UniversalConds(f)), f) == CoffeePart(Select([], UniversalConds(g)), g);
    var before := CoffeePart(Select([], UniversalConds(f)), f).wheres;
    assert |WithConsumables(before, f)| > |WithConsumables(before, g)|;
  }

  lemma DroppedMaterial(f: Filters, scope: Option<Kind>)
    requires HasMaterialFilter(f)
    ensures Build(f, scope) == Build(WithoutMaterial(f), scope) <==> scope !in MATERIAL_TYPES
  {
    var g := WithoutMaterial(f);
    assert CoffeePart(Select([], UniversalConds(f)), f) == CoffeePart(Select([], UniversalConds(g)), g);
    var before := CoffeePart(Select([], UniversalConds(f)), f).wheres;
    assert |WithEquipment(before, f)| > |WithEquipment(before, g)| >= |before|;
    assert |WithAccessories(before, f)| > |WithAccessories(before, g)| >= |before|;
    assert |WithConsumables(before, f)| > |WithConsumables(before, g)| >= |before|;
  }

  /** The service accepts a filter set exactly when the query built from it drops no facet. */
  lemma AcceptedIffNothingDropped(f: Filters, scope: Option<Kind>)
    ensures ValidateTypeFacets(f, scope).Ok? <==> !DropsAFacet(f, scope)
  {
    if HasEquipmentFilter(f) {
      DroppedEquipment(f, scope);
    }
    if HasAccessoryFilter(f) {
      DroppedAccessory(f, scope);
    }
    if HasConsumableFilter(f) {
      DroppedConsumable(f, scope);
    }
    if HasMaterialFilter(f) {
      DroppedMaterial(f, scope);
    }
  }

  lemma InvertedMatchesNot(db: Database, f: Filters, scope: Option<Kind>, p: Product)
    requires ValidateRanges(f).Err?
    ensures !Matches(db, f, scope, p)
  {
  }

  /** A filter set with an inverted range would have found nothing, so refusing it loses no product. */
  lemma {:induction false} InvertedRangesFindNothing(db: Database, f: Filters, scope: Option<Kind>,
                                                     products: seq<Product>)
    requires ValidateRanges(f).Err?
    ensures Matching(db, f, scope, products) == []
  {
    if products != [] {
      InvertedMatchesNot(db, f, scope, products[0]);
      InvertedRangesFindNothing(db, f, scope, products[1..]);
    }
  }
}
