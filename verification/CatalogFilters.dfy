/** The filtered product listing: what a filter set asks for, its checks, and the query built from it. */
module CatalogFilters {
  import opened Wrappers
  import opened CatalogTables

  datatype AcidityBucket = Soft | Balanced | Bright

  function AcidityRange(bucket: AcidityBucket): (int, int) {
    match bucket
    case Soft => (1, 2)
    case Balanced => (3, 3)
    case Bright => (4, 5)
  }

  datatype Filters = Filters(
    category: Option<CategoryId>, priceMin: Option<int>, priceMax: Option<int>, minRating: Option<real>,
    flavorNotes: seq<string>, acidity: Option<AcidityBucket>, region: seq<string>, roastLevel: seq<string>,
    processing: seq<string>, bodyMin: Option<int>, bodyMax: Option<int>, sweetnessMin: Option<int>,
    sweetnessMax: Option<int>, altitudeMin: Option<int>, altitudeMax: Option<int>,
    equipmentType: seq<string>, powerMin: Option<int>, powerMax: Option<int>, warrantyMin: Option<int>,
    accessoryType: seq<string>,
    consumableType: seq<string>, packMin: Option<int>, packMax: Option<int>,
    material: seq<string>)

  const NO_FILTERS := Filters(None, None, None, None, [], None, [], [], [], None, None, None, None, None, None,
                              [], None, None, None, [], [], None, None, [])

  predicate HasCoffeeFilter(f: Filters) {
    || f.flavorNotes != [] || f.region != [] || f.roastLevel != [] || f.processing != [] || f.acidity.Some?
    || f.bodyMin.Some? || f.bodyMax.Some? || f.sweetnessMin.Some? || f.sweetnessMax.Some?
    || f.altitudeMin.Some? || f.altitudeMax.Some?
  }

  predicate HasEquipmentFilter(f: Filters) {
    f.equipmentType != [] || f.powerMin.Some? || f.powerMax.Some? || f.warrantyMin.Some?
  }

  predicate HasAccessoryFilter(f: Filters) {
    f.accessoryType != []
  }

  predicate HasConsumableFilter(f: Filters) {
    f.consumableType != [] || f.packMin.Some? || f.packMax.Some?
  }

  predicate HasMaterialFilter(f: Filters) {
    f.material != []
  }

  // ------------------------------------------------------------------- checks

  datatype FilterError = InvalidFilter(name: string)

  const MATERIAL_TYPES: set<Option<Kind>> := {Some(Equipment), Some(Accessories), Some(Consumables)}

  function ResolveScopeType(db: Database, f: Filters): Result<Option<Kind>, FilterError> {
    if f.category.None? then Ok(None)
    else if f.category.value !in db.categories then Err(InvalidFilter("product_category_id"))
    else Ok(Some(db.categories[f.category.value]))
  }

  /** A facet of one product type is accepted only in a category of that type. */
  function ValidateTypeFacets(f: Filters, scope: Option<Kind>): Result<(), FilterError> {
    if HasEquipmentFilter(f) && scope != Some(Equipment) then Err(InvalidFilter("equipment_type"))
    else if HasAccessoryFilter(f) && scope != Some(Accessories) then Err(InvalidFilter("accessory_type"))
    else if HasConsumableFilter(f) && scope != Some(Consumables) then Err(InvalidFilter("consumable_type"))
    else if HasMaterialFilter(f) && scope !in MATERIAL_TYPES then Err(InvalidFilter("material"))
    else Ok(())
  }

  predicate Inverted(low: Option<int>, high: Option<int>) {
    low.Some? && high.Some? && low.value > high.value
  }

  function ValidateRanges(f: Filters): Result<(), FilterError> {
    if Inverted(f.bodyMin, f.bodyMax) then Err(InvalidFilter("body"))
    else if Inverted(f.sweetnessMin, f.sweetnessMax) then Err(InvalidFilter("sweetness"))
    else if Inverted(f.altitudeMin, f.altitudeMax) then Err(InvalidFilter("altitude"))
    else if Inverted(f.priceMin, f.priceMax) then Err(InvalidFilter("price"))
    else if Inverted(f.powerMin, f.powerMax) then Err(InvalidFilter("power"))
    else if Inverted(f.packMin, f.packMax) then Err(InvalidFilter("pack"))
    else Ok(())
  }

  // ------------------------------------------------------------------- what a filter set asks for

  /** The attribute exists, is not NULL, and is among the values asked for. */
  predicate TextAsked(d: Option<Detail>, column: TextColumn, values: seq<string>) {
    values == [] || (d.Some? && column in d.value.text && d.value.text[column] in values)
  }

  predicate MaterialAsked(d: Option<Detail>, values: seq<string>) {
    d.Some? && Material in d.value.text && Lower(d.value.text[Material]) in values
  }

  predicate MinAsked(d: Option<Detail>, column: NumberColumn, bound: Option<int>) {
    bound.None? || (d.Some? && column in d.value.number && d.value.number[column] >= bound.value)
  }

  predicate MaxAsked(d: Option<Detail>, column: NumberColumn, bound: Option<int>) {
    bound.None? || (d.Some? && column in d.value.number && d.value.number[column] <= bound.value)
  }

  predicate FlavorAsked(d: Option<Detail>, keys: seq<string>) {
    keys == [] || (d.Some? && d.value.notes.Some? && exists key :: key in keys && key in d.value.notes.value.keys)
  }

  predicate AcidityAsked(d: Option<Detail>, bucket: Option<AcidityBucket>) {
    bucket.None? || (d.Some? && Acidity in d.value.number
                     && AcidityRange(bucket.value).0 <= d.value.number[Acidity] <= AcidityRange(bucket.value).1)
  }

  predicate CoffeeAsked(f: Filters, d: Option<Detail>) {
    && FlavorAsked(d, f.flavorNotes)
    && TextAsked(d, Region, f.region)
    && TextAsked(d, RoastLevel, f.roastLevel)
    && TextAsked(d, Processing, f.processing)
    && AcidityAsked(d, f.acidity)
    && MinAsked(d, Body, f.bodyMin)
    && MaxAsked(d, Body, f.bodyMax)
    && MinAsked(d, Sweetness, f.sweetnessMin)
    && MaxAsked(d, Sweetness, f.sweetnessMax)
    && MinAsked(d, Altitude, f.altitudeMin)
    && MaxAsked(d, Altitude, f.altitudeMax)
  }

  predicate EquipmentAsked(f: Filters, d: Option<Detail>) {
    && TextAsked(d, EquipmentType, f.equipmentType)
    && MinAsked(d, PowerWatts, f.powerMin)
    && MaxAsked(d, PowerWatts, f.powerMax)
    && MinAsked(d, WarrantyMonths, f.warrantyMin)
  }

  predicate ConsumableAsked(f: Filters, d: Option<Detail>) {
    && TextAsked(d, ConsumableType, f.consumableType)
    && MinAsked(d, QuantityPerPack, f.packMin)
    && MaxAsked(d, QuantityPerPack, f.packMax)
  }

  predicate PriceAsked(f: Filters, p: Product) {
    && (f.priceMin.None? || p.price >= f.priceMin.value)
    && (f.priceMax.None? || p.price <= f.priceMax.value)
  }

  predicate RatingAsked(db: Database, f: Filters, p: Product) {
    f.minRating.None? || exists r :: r in db.ratings && RatedAtLeastRow(r, p.id, f.minRating.value)
  }

  /**
    An active product with every facet that is set, whatever its type. A material is looked for
    in the attributes of the scoped category's type.
   */
  predicate Matches(db: Database, f: Filters, scope: Option<Kind>, p: Product) {
    && p.active
    && (f.category.None? || p.category == f.category.value)
    && PriceAsked(f, p)
    && RatingAsked(db, f, p)
    && CoffeeAsked(f, DetailOf(db, Coffee, p.id))
    && EquipmentAsked(f, DetailOf(db, Equipment, p.id))
    && TextAsked(DetailOf(db, Accessories, p.id), AccessoryType, f.accessoryType)
    && ConsumableAsked(f, DetailOf(db, Consumables, p.id))
    && (f.material == [] || (scope.Some? && MaterialAsked(DetailOf(db, scope.value, p.id), f.material)))
  }

  function Matching(db: Database, f: Filters, scope: Option<Kind>, products: seq<Product>): seq<Product> {
    if products == [] then []
    else (if Matches(db, f, scope, products[0]) then [products[0]] else []) + Matching(db, f, scope, products[1..])
  }

  // ------------------------------------------------------------------- the query

  function TextConds(kind: Kind, column: TextColumn, values: seq<string>): seq<Cond> {
    if values == [] then [] else [TextIn(kind, column, values)]
  }

  function MaterialConds(kind: Kind, values: seq<string>): seq<Cond> {
    if values == [] then [] else [LowerTextIn(kind, Material, values)]
  }

  function MinConds(kind: Kind, column: NumberColumn, bound: Option<int>): seq<Cond> {
    if bound.None? then [] else [AtLeast(kind, column, bound.value)]
  }

  function MaxConds(kind: Kind, column: NumberColumn, bound: Option<int>): seq<Cond> {
    if bound.None? then [] else [AtMost(kind, column, bound.value)]
  }

  function FlavorConds(keys: seq<string>): seq<Cond> {
    if keys == [] then [] else [AnyFlavor(keys)]
  }

  function AcidityConds(bucket: Option<AcidityBucket>): seq<Cond> {
    if bucket.None? then [] else [Between(Coffee, Acidity, AcidityRange(bucket.value).0, AcidityRange(bucket.value).1)]
  }

  function CategoryConds(f: Filters): seq<Cond> {
    if f.category.None? then [] else [InCategory(f.category.value)]
  }

  function PriceMinConds(f: Filters): seq<Cond> {
    if f.priceMin.None? then [] else [PriceAtLeast(f.priceMin.value)]
  }

  function PriceMaxConds(f: Filters): seq<Cond> {
    if f.priceMax.None? then [] else [PriceAtMost(f.priceMax.value)]
  }

  function RatingConds(f: Filters): seq<Cond> {
    if f.minRating.None? then [] else [RatedAtLeast(f.minRating.value)]
  }

  function UniversalConds(f: Filters): seq<Cond> {
    [IsActive] + CategoryConds(f) + PriceMinConds(f) + PriceMaxConds(f) + RatingConds(f)
  }

  /** The coffee conditions, after the ones already there. */
  function WithCoffee(before: seq<Cond>, f: Filters): seq<Cond> {
    before
    + FlavorConds(f.flavorNotes)
    + TextConds(Coffee, Region, f.region)
    + TextConds(Coffee, RoastLevel, f.roastLevel)
    + TextConds(Coffee, Processing, f.processing)
    + AcidityConds(f.acidity)
    + MinConds(Coffee, Body, f.bodyMin)
    + MaxConds(Coffee, Body, f.bodyMax)
    + MinConds(Coffee, Sweetness, f.sweetnessMin)
    + MaxConds(Coffee, Sweetness, f.sweetnessMax)
    + MinConds(Coffee, Altitude, f.altitudeMin)
    + MaxConds(Coffee, Altitude, f.altitudeMax)
  }

  function WithEquipment(before: seq<Cond>, f: Filters): seq<Cond> {
    before
    + TextConds(Equipment, EquipmentType, f.equipmentType)
    + MinConds(Equipment, PowerWatts, f.powerMin)
    + MaxConds(Equipment, PowerWatts, f.powerMax)
    + MinConds(Equipment, WarrantyMonths, f.warrantyMin)
    + MaterialConds(Equipment, f.material)
  }

  function WithAccessories(before: seq<Cond>, f: Filters): seq<Cond> {
    before
    + TextConds(Accessories, AccessoryType, f.accessoryType)
    + MaterialConds(Accessories, f.material)
  }

  function WithConsumables(before: seq<Cond>, f: Filters): seq<Cond> {
    before
    + TextConds(Consumables, ConsumableType, f.consumableType)
    + MinConds(Consumables, QuantityPerPack, f.packMin)
    + MaxConds(Consumables, QuantityPerPack, f.packMax)
    + MaterialConds(Consumables, f.material)
  }

  function CoffeePart(stmt: Select, f: Filters): Select {
    if HasCoffeeFilter(f) then Select(stmt.joins + [Coffee], WithCoffee(stmt.wheres, f)) else stmt
  }

  function TypePart(stmt: Select, f: Filters, scope: Option<Kind>): Select {
    if scope == Some(Equipment) && (HasEquipmentFilter(f) || HasMaterialFilter(f)) then
      Select(stmt.joins + [Equipment], WithEquipment(stmt.wheres, f))
    else if scope == Some(Accessories) && (HasAccessoryFilter(f) || HasMaterialFilter(f)) then
      Select(stmt.joins + [Accessories], WithAccessories(stmt.wheres, f))
    else if scope == Some(Consumables) && (HasConsumableFilter(f) || HasMaterialFilter(f)) then
      Select(stmt.joins + [Consumables], WithConsumables(stmt.wheres, f))
    else stmt
  }

  function Build(f: Filters, scope: Option<Kind>): Select {
    TypePart(CoffeePart(Select([], UniversalConds(f)), f), f, scope)
  }

  method WhereText(base: Select, kind: Kind, column: TextColumn, values: seq<string>) returns (stmt: Select)
    ensures stmt == base.(wheres := base.wheres + TextConds(kind, column, values))
  {
    stmt := base;
    if values != [] {
      stmt := stmt.Where(TextIn(kind, column, values));
    }
  }

  method WhereMaterial(base: Select, kind: Kind, values: seq<string>) returns (stmt: Select)
    ensures stmt == base.(wheres := base.wheres + MaterialConds(kind, values))
  {
    stmt := base;
    if values != [] {
      stmt := stmt.Where(LowerTextIn(kind, Material, values));
    }
  }

  method WhereBounds(base: Select, kind: Kind, column: NumberColumn, low: Option<int>, high: Option<int>)
    returns (stmt: Select)
    ensures stmt == base.(wheres := base.wheres + MinConds(kind, column, low) + MaxConds(kind, column, high))
  {
    stmt := base;
    if low.Some? {
      stmt := stmt.Where(AtLeast(kind, column, low.value));
    }
    if high.Some? {
      stmt := stmt.Where(AtMost(kind, column, high.value));
    }
  }

  /** Routes the type facets and the material to the scoped type's table. */
  method ApplyTypeFilters(base: Select, f: Filters, scope: Option<Kind>) returns (stmt: Select)
    ensures stmt == TypePart(base, f, scope)
  {
    stmt := base;
    if scope == Some(Equipment) && (HasEquipmentFilter(f) || HasMaterialFilter(f)) {
      stmt := stmt.Join(Equipment);
      stmt := WhereText(stmt, Equipment, EquipmentType, f.equipmentType);
      stmt := WhereBounds(stmt, Equipment, PowerWatts, f.powerMin, f.powerMax);
      stmt := WhereBounds(stmt, Equipment, WarrantyMonths, f.warrantyMin, None);
      stmt := WhereMaterial(stmt, Equipment, f.material);
    } else if scope == Some(Accessories) && (HasAccessoryFilter(f) || HasMaterialFilter(f)) {
      stmt := stmt.Join(Accessories);
      stmt := WhereText(stmt, Accessories, AccessoryType, f.accessoryType);
      stmt := WhereMaterial(stmt, Accessories, f.material);
    } else if scope == Some(Consumables) && (HasConsumableFilter(f) || HasMaterialFilter(f)) {
      stmt := stmt.Join(Consumables);
      stmt := WhereText(stmt, Consumables, ConsumableType, f.consumableType);
      stmt := WhereBounds(stmt, Consumables, QuantityPerPack, f.packMin, f.packMax);
      stmt := WhereMaterial(stmt, Consumables, f.material);
    }
  }

  method WhereFlavor(base: Select, keys: seq<string>) returns (stmt: Select)
    ensures stmt == base.(wheres := base.wheres + FlavorConds(keys))
  {
    stmt := base;
    if keys != [] {
      stmt := stmt.Where(AnyFlavor(keys));
    }
  }

  method WhereAcidity(base: Select, bucket: Option<AcidityBucket>) returns (stmt: Select)
    ensures stmt == base.(wheres := base.wheres + AcidityConds(bucket))
  {
    stmt := base;
    if bucket.Some? {
      var (low, high) := AcidityRange(bucket.value);
      stmt := stmt.Where(Between(Coffee, Acidity, low, high));
    }
  }

  /** Adds the coffee table and its conditions only when a coffee facet is set. */
  method ApplyCoffeeFilters(base: Select, f: Filters) returns (stmt: Select)
    ensures stmt == CoffeePart(base, f)
  {
    stmt := base;
    if !HasCoffeeFilter(f) {
      return;
    }
    stmt := stmt.Join(Coffee);
    stmt := WhereFlavor(stmt, f.flavorNotes);
    stmt := WhereText(stmt, Coffee, Region, f.region);
    stmt := WhereText(stmt, Coffee, RoastLevel, f.roastLevel);
    stmt := WhereText(stmt, Coffee, Processing, f.processing);
    stmt := WhereAcidity(stmt, f.acidity);
    stmt := WhereBounds(stmt, Coffee, Body, f.bodyMin, f.bodyMax);
    stmt := WhereBounds(stmt, Coffee, Sweetness, f.sweetnessMin, f.sweetnessMax);
    stmt := WhereBounds(stmt, Coffee, Altitude, f.altitudeMin, f.altitudeMax);
  }

  method WherePrice(base: Select, f: Filters) returns (stmt: Select)
    ensures stmt == base.(wheres := base.wheres + PriceMinConds(f) + PriceMaxConds(f))
  {
    stmt := base;
    if f.priceMin.Some? {
      stmt := stmt.Where(PriceAtLeast(f.priceMin.value));
    }
    if f.priceMax.Some? {
      stmt := stmt.Where(PriceAtMost(f.priceMax.value));
    }
  }

  method WhereCategory(base: Select, f: Filters) returns (stmt: Select)
    ensures stmt == base.(wheres := base.wheres + CategoryConds(f))
  {
    stmt := base;
    if f.category.Some? {
      stmt := stmt.Where(InCategory(f.category.value));
    }
  }

  method WhereRating(base: Select, f: Filters) returns (stmt: Select)
    ensures stmt == base.(wheres := base.wheres + RatingConds(f))
  {
    stmt := base;
    if f.minRating.Some? {
      stmt := stmt.Where(RatedAtLeast(f.minRating.value));
    }
  }

  method ApplyUniversalFilters(f: Filters) returns (stmt: Select)
    ensures stmt == Select([], UniversalConds(f))
  {
    stmt := ALL_PRODUCTS.Where(IsActive);
    assert stmt.wheres == [IsActive];
    stmt := WhereCategory(stmt, f);
    stmt := WherePrice(stmt, f);
    stmt := WhereRating(stmt, f);
  }

  method ApplyFilters(f: Filters, scope: Option<Kind>) returns (stmt: Select)
    ensures stmt == Build(f, scope)
  {
    stmt := ApplyUniversalFilters(f);
    stmt := ApplyCoffeeFilters(stmt, f);
    stmt := ApplyTypeFilters(stmt, f, scope);
  }
}
