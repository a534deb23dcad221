/** The catalogue's tables and the part of SQL its queries are written in. */
module CatalogTables {
  import opened Wrappers
  import LikeSearch

  type Id = nat
  type CategoryId = nat

  /** The four product types, each with its own attribute table. */
  datatype Kind = Coffee | Equipment | Accessories | Consumables

  datatype Product = Product(id: Id, name: string, category: CategoryId, price: nat, active: bool, createdAt: int)

  datatype TextColumn = Region | RoastLevel | Processing | EquipmentType | AccessoryType | ConsumableType | Material
  datatype NumberColumn = Acidity | Body | Sweetness | Altitude | PowerWatts | WarrantyMonths | QuantityPerPack

  /** The flavour notes of a coffee: normalised keys, and English labels by position. */
  datatype Notes = Notes(keys: seq<string>, labels: seq<string>)

  /** An attribute row, keyed by its product; a column it does not map is NULL. */
  datatype Detail = Detail(id: Id, text: map<TextColumn, string>, number: map<NumberColumn, int>, notes: Option<Notes>)

  /** A product's rating aggregate, its average in tenths. */
  datatype RatingRow = RatingRow(product: Id, average: nat, total: nat)

  datatype Database = Database(products: seq<Product>, coffee: seq<Detail>, equipment: seq<Detail>,
                               accessories: seq<Detail>, consumables: seq<Detail>, ratings: seq<RatingRow>,
                               categories: map<CategoryId, Kind>)

  function TableOf(db: Database, kind: Kind): seq<Detail> {
    match kind
    case Coffee => db.coffee
    case Equipment => db.equipment
    case Accessories => db.accessories
    case Consumables => db.consumables
  }

  // ------------------------------------------------------------------- keys

  ghost predicate UniqueProducts(products: seq<Product>) {
    forall i, j :: 0 <= i < j < |products| ==> products[i].id != products[j].id
  }

  ghost predicate UniqueDetails(table: seq<Detail>) {
    forall i, j :: 0 <= i < j < |table| ==> table[i].id != table[j].id
  }

  ghost predicate UniqueRatings(ratings: seq<RatingRow>) {
    forall i, j :: 0 <= i < j < |ratings| ==> ratings[i].product != ratings[j].product
  }

  /** The schema's primary keys and unique constraints. */
  ghost predicate Valid(db: Database) {
    && UniqueProducts(db.products)
    && (forall kind :: UniqueDetails(TableOf(db, kind)))
    && UniqueRatings(db.ratings)
  }

  /** A product's attribute row of one kind. */
  function DetailIn(table: seq<Detail>, id: Id): Option<Detail> {
    if table == [] then None else if table[0].id == id then Some(table[0]) else DetailIn(table[1..], id)
  }

  function DetailOf(db: Database, kind: Kind, id: Id): Option<Detail> {
    DetailIn(TableOf(db, kind), id)
  }

  // ------------------------------------------------------------------- conditions

  /** SQL's three truth values. */
  datatype Truth = Yes | No | Unknown

  datatype Cond = IsActive
                | InCategory(category: CategoryId)
                | PriceAtLeast(price: int)
                | PriceAtMost(price: int)
                | RatedAtLeast(rating: real)
                | NameILike(pattern: string)
                | AnyFlavor(keys: seq<string>)
                | TextIn(kind: Kind, text: TextColumn, values: seq<string>)
                | LowerTextIn(kind: Kind, text: TextColumn, values: seq<string>)
                | AtLeast(kind: Kind, number: NumberColumn, bound: int)
                | AtMost(kind: Kind, number: NumberColumn, bound: int)
                | Between(kind: Kind, number: NumberColumn, low: int, high: int)

  function Lower(s: string): string {
    LikeSearch.FoldAll(LikeSearch.AsciiLower, s)
  }

  function Of(b: bool): Truth {
    if b then Yes else No
  }

  /** The rating subquery: the ids of products rated high enough. */
  predicate RatedAtLeastRow(r: RatingRow, id: Id, rating: real) {
    r.product == id && r.average as real / 10.0 >= rating
  }

  /** The joined attribute rows a condition is evaluated on. */
  type Env = map<Kind, Detail>

  /** A comparison with NULL is unknown, and so is every test of a table that was not joined. */
  function Eval(db: Database, c: Cond, p: Product, env: Env): Truth {
    match c
    case IsActive => Of(p.active)
    case InCategory(category) => Of(p.category == category)
    case PriceAtLeast(price) => Of(p.price >= price)
    case PriceAtMost(price) => Of(p.price <= price)
    case RatedAtLeast(rating) => Of(exists r :: r in db.ratings && RatedAtLeastRow(r, p.id, rating))
    case NameILike(pattern) => Of(LikeSearch.ILike(LikeSearch.AsciiLower, pattern, p.name))
    case AnyFlavor(keys) =>
      if Coffee !in env || env[Coffee].notes.None? then Unknown
      else Of(exists key :: key in keys && key in env[Coffee].notes.value.keys)
    case TextIn(kind, column, values) =>
      if kind !in env || column !in env[kind].text then Unknown else Of(env[kind].text[column] in values)
    case LowerTextIn(kind, column, values) =>
      if kind !in env || column !in env[kind].text then Unknown else Of(Lower(env[kind].text[column]) in values)
    case AtLeast(kind, column, bound) =>
      if kind !in env || column !in env[kind].number then Unknown else Of(env[kind].number[column] >= bound)
    case AtMost(kind, column, bound) =>
      if kind !in env || column !in env[kind].number then Unknown else Of(env[kind].number[column] <= bound)
    case Between(kind, column, low, high) =>
      if kind !in env || column !in env[kind].number then Unknown else Of(low <= env[kind].number[column] <= high)
  }

  /** The attribute table a condition reads, if any. */
  function Needs(c: Cond): set<Kind> {
    match c
    case AnyFlavor(_) => {Coffee}
    case TextIn(kind, _, _) => {kind}
    case LowerTextIn(kind, _, _) => {kind}
    case AtLeast(kind, _, _) => {kind}
    case AtMost(kind, _, _) => {kind}
    case Between(kind, _, _, _) => {kind}
    case _ => {}
  }

  // ------------------------------------------------------------------- statements

  /** A selection of products: attribute tables joined on the product's id, and a conjunction. */
  datatype Select = Select(joins: seq<Kind>, wheres: seq<Cond>) {
    function Join(kind: Kind): Select {
      this.(joins := joins + [kind])
    }

    function Where(c: Cond): Select {
      this.(wheres := wheres + [c])
    }
  }

  const ALL_PRODUCTS := Select([], [])

  /** No condition reads a table that is missing from the joins. */
  ghost predicate WellJoined(stmt: Select) {
    forall c, kind :: c in stmt.wheres && kind in Needs(c) ==> kind in stmt.joins
  }

  /** A row is kept only when every condition is true; unknown is not enough. */
  predicate Keeps(db: Database, wheres: seq<Cond>, p: Product, env: Env) {
    forall c :: c in wheres ==> Eval(db, c, p, env) == Yes
  }

  /** One row per match, as an inner join produces them. */
  function JoinRows(envs: seq<Env>, kind: Kind, table: seq<Detail>, id: Id): seq<Env> {
    if table == [] then []
    else (if table[0].id == id then seq(|envs|, i requires 0 <= i < |envs| => envs[i][kind := table[0]]) else [])
         + JoinRows(envs, kind, table[1..], id)
  }

  function Envs(db: Database, joins: seq<Kind>, id: Id): seq<Env> {
    if joins == [] then [map[]]
    else JoinRows(Envs(db, joins[..|joins| - 1], id), joins[|joins| - 1], TableOf(db, joins[|joins| - 1]), id)
  }

  function KeptRows(db: Database, wheres: seq<Cond>, p: Product, envs: seq<Env>): seq<Product> {
    if envs == [] then []
    else (if Keeps(db, wheres, p, envs[0]) then [p] else []) + KeptRows(db, wheres, p, envs[1..])
  }

  /** The selected products, with repetitions if a join multiplies them. */
  function Rows(db: Database, stmt: Select, products: seq<Product>): seq<Product> {
    if products == [] then []
    else KeptRows(db, stmt.wheres, products[0], Envs(db, stmt.joins, products[0].id)) + Rows(db, stmt, products[1..])
  }

  // ------------------------------------------------------------------- joins on a key

  lemma {:induction false} DetailInMember(table: seq<Detail>, id: Id)
    ensures DetailIn(table, id).Some? <==> exists d :: d in table && d.id == id
    ensures DetailIn(table, id).Some? ==> DetailIn(table, id).value in table && DetailIn(table, id).value.id == id
  {
    if table != [] {
      DetailInMember(table[1..], id);
      if d :| d in table && d.id == id {
        assert d == table[0] || d in table[1..];
      }
      assert table[0] in table && forall d :: d in table[1..] ==> d in table;
    }
  }

  lemma {:induction false} NoJoinRows(envs: seq<Env>, kind: Kind, table: seq<Detail>, id: Id)
    requires forall d :: d in table ==> d.id != id
    ensures JoinRows(envs, kind, table, id) == []
  {
    if table != [] {
      assert table[0] in table && forall d :: d in table[1..] ==> d in table;
      NoJoinRows(envs, kind, table[1..], id);
    }
  }

  /** A join on a key neither repeats a row nor drops one that has a match. */
  lemma {:induction false} JoinOnKey(env: Env, kind: Kind, table: seq<Detail>, id: Id)
    requires UniqueDetails(table)
    ensures JoinRows([env], kind, table, id) ==
            var d := DetailIn(table, id); if d.None? then [] else [env[kind := d.value]]
  {
    if table != [] {
      if table[0].id == id {
        assert forall d :: d in table[1..] ==> d.id != id;
        NoJoinRows([env], kind, table[1..], id);
        assert seq(1, i requires 0 <= i < 1 => [env][i][kind := table[0]]) == [env[kind := table[0]]];
      } else {
        JoinOnKey(env, kind, table[1..], id);
      }
    }
  }

  lemma {:induction false} JoinNothing(kind: Kind, table: seq<Detail>, id: Id)
    ensures JoinRows([], kind, table, id) == []
  {
    if table != [] {
      JoinNothing(kind, table[1..], id);
    }
  }

  ghost predicate HasAll(db: Database, joins: seq<Kind>, id: Id) {
    forall kind :: kind in joins ==> DetailOf(db, kind, id).Some?
  }

  /** The single environment of a product that has all the joined rows. */
  ghost function EnvOf(db: Database, joins: seq<Kind>, id: Id): Env
    requires HasAll(db, joins, id)
  {
    map kind | kind in joins :: DetailOf(db, kind, id).value
  }

  lemma EnvOfAppend(db: Database, before: seq<Kind>, last: Kind, id: Id)
    ensures HasAll(db, before + [last], id) <==> HasAll(db, before, id) && DetailOf(db, last, id).Some?
    ensures HasAll(db, before + [last], id) ==>
              EnvOf(db, before + [last], id) == EnvOf(db, before, id)[last := DetailOf(db, last, id).value]
  {
    assert last in before + [last];
    assert forall kind :: kind in before ==> kind in before + [last];
  }

  /** Any series of such joins yields one row, or none if a table has no row for the product. */
  lemma {:induction false} EnvsOnKeys(db: Database, joins: seq<Kind>, id: Id)
    requires Valid(db)
    ensures Envs(db, joins, id) == if HasAll(db, joins, id) then [EnvOf(db, joins, id)] else []
    decreases |joins|
  {
    if joins == [] {
      assert EnvOf(db, joins, id) == map[];
    } else {
      var before, last := joins[..|joins| - 1], joins[|joins| - 1];
      assert joins == before + [last];
      EnvsOnKeys(db, before, id);
      EnvOfAppend(db, before, last, id);
      if HasAll(db, before, id) {
        JoinOnKey(EnvOf(db, before, id), last, TableOf(db, last), id);
      } else {
        JoinNothing(last, TableOf(db, last), id);
      }
    }
  }

  /** Whether a product is selected, said without rows. */
  ghost predicate Selected(db: Database, stmt: Select, p: Product) {
    HasAll(db, stmt.joins, p.id) && Keeps(db, stmt.wheres, p, EnvOf(db, stmt.joins, p.id))
  }

  lemma OneRowEach(db: Database, stmt: Select, p: Product)
    requires Valid(db)
    ensures KeptRows(db, stmt.wheres, p, Envs(db, stmt.joins, p.id)) == if Selected(db, stmt, p) then [p] else []
  {
    EnvsOnKeys(db, stmt.joins, p.id);
    if HasAll(db, stmt.joins, p.id) {
      assert [EnvOf(db, stmt.joins, p.id)][1..] == [];
    }
  }
}
