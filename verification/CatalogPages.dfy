/** Ordering and paging of listings and searches, with each product's rating aggregate beside it. */
module CatalogPages {
  import opened Wrappers
  import opened CatalogTables
  import opened CatalogFilters
  import CatalogExactness
  import LikeSearch
  import Sorting

  datatype Sort = Newest | PriceAsc | PriceDesc | ByName

  datatype ProductRow = ProductRow(product: Product, rating: Option<RatingRow>)

  datatype Page = Page(items: seq<ProductRow>, total: nat, limit: nat, offset: nat)

  /** The order of a listing; the id decides between equal keys. `collation` ranks names. */
  predicate Before(sort: Sort, collation: string -> int, a: Product, b: Product) {
    match sort
    case Newest => a.createdAt > b.createdAt || (a.createdAt == b.createdAt && a.id > b.id)
    case PriceAsc => a.price < b.price || (a.price == b.price && a.id < b.id)
    case PriceDesc => a.price > b.price || (a.price == b.price && a.id < b.id)
    case ByName => collation(a.name) < collation(b.name) || (collation(a.name) == collation(b.name) && a.id < b.id)
  }

  function Order(sort: Sort, collation: string -> int): (Product, Product) -> bool {
    (a: Product, b: Product) => Before(sort, collation, a, b)
  }

  /** The database's ordered answer to a statement. */
  ghost predicate IsAnswer(db: Database, sort: Sort, collation: string -> int, stmt: Select, sorted: seq<Product>) {
    && multiset(sorted) == multiset(Rows(db, stmt, db.products))
    && Sorting.IsSorted(Order(sort, collation), sorted)
  }

  // ------------------------------------------------------------------- the rating beside the product

  function RatingOf(ratings: seq<RatingRow>, id: Id): Option<RatingRow> {
    if ratings == [] then None else if ratings[0].product == id then Some(ratings[0]) else RatingOf(ratings[1..], id)
  }

  function RatedRows(ratings: seq<RatingRow>, p: Product): seq<ProductRow> {
    if ratings == [] then []
    else (if ratings[0].product == p.id then [ProductRow(p, Some(ratings[0]))] else []) + RatedRows(ratings[1..], p)
  }

  /** An outer join: a product without a rating keeps one row. */
  function OuterRows(ratings: seq<RatingRow>, p: Product): seq<ProductRow> {
    if RatedRows(ratings, p) == [] then [ProductRow(p, None)] else RatedRows(ratings, p)
  }

  function OuterJoin(ratings: seq<RatingRow>, products: seq<Product>): seq<ProductRow> {
    if products == [] then [] else OuterRows(ratings, products[0]) + OuterJoin(ratings, products[1..])
  }

  lemma {:induction false} RatedRowsOnKey(ratings: seq<RatingRow>, p: Product)
    requires UniqueRatings(ratings)
    ensures RatedRows(ratings, p) ==
            if RatingOf(ratings, p.id).None? then [] else [ProductRow(p, RatingOf(ratings, p.id))]
  {
    if ratings != [] {
      RatedRowsOnKey(ratings[1..], p);
      if ratings[0].product == p.id {
        NotRated(ratings[1..], p.id);
      }
    }
  }

  lemma {:induction false} NotRated(ratings: seq<RatingRow>, id: Id)
    requires forall i :: 0 <= i < |ratings| ==> ratings[i].product != id
    ensures RatingOf(ratings, id).None?
  {
    if ratings != [] {
      NotRated(ratings[1..], id);
    }
  }

  /** The outer join neither repeats a product nor moves one, so a page's length counts products. */
  lemma {:induction false} OuterJoinKeepsRows(ratings: seq<RatingRow>, products: seq<Product>)
    requires UniqueRatings(ratings)
    ensures |OuterJoin(ratings, products)| == |products|
    ensures forall i :: 0 <= i < |products| ==>
              OuterJoin(ratings, products)[i] == ProductRow(products[i], RatingOf(ratings, products[i].id))
  {
    if products != [] {
      RatedRowsOnKey(ratings, products[0]);
      OuterJoinKeepsRows(ratings, products[1..]);
    }
  }

  // ------------------------------------------------------------------- pages

  /** LIMIT and OFFSET. */
  function Slice<T>(s: seq<T>, limit: nat, offset: nat): seq<T> {
    s[Min(offset, |s|)..Min(offset + limit, |s|)]
  }

  function Flatten<T>(pages: seq<seq<T>>): seq<T> {
    if pages == [] then [] else Flatten(pages[..|pages| - 1]) + pages[|pages| - 1]
  }

  /** The offset of page `k`: `k` times the limit. */
  function PageStart(limit: nat, k: nat): nat {
    if k == 0 then 0 else PageStart(limit, k - 1) + limit
  }

  lemma {:induction false} PageStartIsMultiple(limit: nat, k: nat)
    ensures PageStart(limit, k) == k * limit
  {
    if k > 0 {
      PageStartIsMultiple(limit, k - 1);
      assert (k - 1) * limit + limit == k * limit;
    }
  }

  /** A slice continues the prefix that ends where it starts. */
  lemma SliceContinues<T>(s: seq<T>, limit: nat, offset: nat)
    ensures s[..Min(offset, |s|)] + Slice(s, limit, offset) == s[..Min(offset + limit, |s|)]
  {
  }

  lemma {:induction false} SlicesJoinUp<T>(s: seq<T>, limit: nat, pages: seq<seq<T>>)
    requires forall k :: 0 <= k < |pages| ==> pages[k] == Slice(s, limit, PageStart(limit, k))
    ensures Flatten(pages) == s[..Min(PageStart(limit, |pages|), |s|)]
    decreases |pages|
  {
    if pages != [] {
      var before, last := pages[..|pages| - 1], pages[|pages| - 1];
      SlicesJoinUp(s, limit, before);
      SliceContinues(s, limit, PageStart(limit, |before|));
      assert last == Slice(s, limit, PageStart(limit, |before|));
    }
  }

  /** Each page came from its own query; every answer is the same sequence. */
  lemma AnswersAgree(db: Database, sort: Sort, collation: string -> int, stmt: Select, a: seq<Product>, b: seq<Product>)
    requires IsAnswer(db, sort, collation, stmt, a) && IsAnswer(db, sort, collation, stmt, b)
    ensures a == b
  {
    var less := Order(sort, collation);
    assert Sorting.Asymmetric(less);
    Sorting.SortedIsUnique(less, a, b);
  }

  /** Page `k`, read by its own query, whose rows came back as `answer`. */
  ghost predicate IsPage(db: Database, sort: Sort, collation: string -> int, stmt: Select, limit: nat, k: nat,
                         answer: seq<Product>, page: seq<ProductRow>) {
    && IsAnswer(db, sort, collation, stmt, answer)
    && page == Slice(OuterJoin(db.ratings, answer), limit, PageStart(limit, k))
  }

  /** The pages were read one by one. */
  ghost predicate ArePages(db: Database, sort: Sort, collation: string -> int, stmt: Select, limit: nat,
                           answers: seq<seq<Product>>, pages: seq<seq<ProductRow>>) {
    && |answers| == |pages|
    && forall k :: 0 <= k < |pages| ==> IsPage(db, sort, collation, stmt, limit, k, answers[k], pages[k])
  }

  lemma PagesAreSlices(db: Database, sort: Sort, collation: string -> int, stmt: Select, limit: nat,
                       answers: seq<seq<Product>>, pages: seq<seq<ProductRow>>, whole: seq<Product>)
    requires ArePages(db, sort, collation, stmt, limit, answers, pages) && IsAnswer(db, sort, collation, stmt, whole)
    ensures Flatten(pages) ==
            OuterJoin(db.ratings, whole)[..Min(PageStart(limit, |pages|), |OuterJoin(db.ratings, whole)|)]
  {
    var rows := OuterJoin(db.ratings, whole);
    forall k | 0 <= k < |pages|
      ensures pages[k] == Slice(rows, limit, PageStart(limit, k))
    {
      assert IsPage(db, sort, collation, stmt, limit, k, answers[k], pages[k]);
      AnswersAgree(db, sort, collation, stmt, answers[k], whole);
    }
    SlicesJoinUp(rows, limit, pages);
  }

  lemma AnswerLength(db: Database, sort: Sort, collation: string -> int, stmt: Select, whole: seq<Product>)
    requires IsAnswer(db, sort, collation, stmt, whole)
    ensures |whole| == |Rows(db, stmt, db.products)|
  {
    assert |multiset(whole)| == |whole|;
    assert |multiset(Rows(db, stmt, db.products))| == |Rows(db, stmt, db.products)|;
  }

  /**
    Reading page after page visits every selected product exactly once, in order, with its
    aggregate; and every page's total is how many there are.
   */
  lemma PagesCoverTheListing(db: Database, sort: Sort, collation: string -> int, stmt: Select, limit: nat,
                             answers: seq<seq<Product>>, pages: seq<seq<ProductRow>>, whole: seq<Product>)
    requires UniqueRatings(db.ratings) && IsAnswer(db, sort, collation, stmt, whole)
    requires ArePages(db, sort, collation, stmt, limit, answers, pages)
    requires |Rows(db, stmt, db.products)| <= PageStart(limit, |pages|)
    ensures var all := Flatten(pages);
            && |all| == |Rows(db, stmt, db.products)| == |whole|
            && forall i :: 0 <= i < |all| ==> all[i] == ProductRow(whole[i], RatingOf(db.ratings, whole[i].id))
  {
    PagesAreSlices(db, sort, collation, stmt, limit, answers, pages, whole);
    OuterJoinKeepsRows(db.ratings, whole);
    AnswerLength(db, sort, collation, stmt, whole);
    var rows := OuterJoin(db.ratings, whole);
    assert rows[..|rows|] == rows;
  }

  /** Every statement has an ordered answer, for every order and collation. */
  lemma AnswerExists(db: Database, sort: Sort, collation: string -> int, stmt: Select) returns (sorted: seq<Product>)
    requires Valid(db)
    ensures IsAnswer(db, sort, collation, stmt, sorted)
  {
    var less, rows := Order(sort, collation), Rows(db, stmt, db.products);
    RowsAreUnique(db, stmt, db.products);
    forall i, j | 0 <= i < j < |rows|
      ensures less(rows[i], rows[j]) || less(rows[j], rows[i])
    {
      assert Before(sort, collation, rows[i], rows[j]) || Before(sort, collation, rows[j], rows[i]);
    }
    assert Sorting.Transitive(less);
    sorted := Sorting.SortExists(less, rows);
  }

  // ------------------------------------------------------------------- the two reads

  /**
    Lists one page. `execute` is the database: any function that answers a statement with its rows in order.
   */
  method ListProducts(db: Database, sort: Sort, collation: string -> int, execute: Select -> seq<Product>,
                      f: Filters, limit: nat, offset: nat) returns (result: Result<Page, FilterError>)
    requires Valid(db) && forall stmt :: IsAnswer(db, sort, collation, stmt, execute(stmt))
    ensures result.Err? <==> ResolveScopeType(db, f).Err? || ValidateTypeFacets(f, ResolveScopeType(db, f).value).Err?
    ensures result.Ok? ==>
              && result.value.total == |Matching(db, f, ResolveScopeType(db, f).value, db.products)|
              && result.value.items ==
                 Slice(OuterJoin(db.ratings, execute(Build(f, ResolveScopeType(db, f).value))), limit, offset)
              && result.value.limit == limit && result.value.offset == offset
  {
    var scope := ResolveScopeType(db, f);
    if scope.Err? {
      return Err(scope.error);
    }
    var valid := ValidateTypeFacets(f, scope.value);
    if valid.Err? {
      return Err(valid.error);
    }
    var stmt := ApplyFilters(f, scope.value);
    var total := |Rows(db, stmt, db.products)|;
    var rows := Slice(OuterJoin(db.ratings, execute(stmt)), limit, offset);
    CatalogExactness.QueryReturnsMatches(db, f, scope.value, db.products);
    result := Ok(Page(rows, total, limit, offset));
  }

  lemma {:induction false} RowsAreSelected(db: Database, stmt: Select, products: seq<Product>, p: Product)
    requires Valid(db)
    ensures p in Rows(db, stmt, products) <==> p in products && Selected(db, stmt, p)
  {
    if products != [] {
      OneRowEach(db, stmt, products[0]);
      RowsAreSelected(db, stmt, products[1..], p);
      assert p in products <==> p == products[0] || p in products[1..];
    }
  }

  lemma {:induction false} RowsAreUnique(db: Database, stmt: Select, products: seq<Product>)
    requires Valid(db) && UniqueProducts(products)
    ensures UniqueProducts(Rows(db, stmt, products))
  {
    if products != [] {
      OneRowEach(db, stmt, products[0]);
      RowsAreUnique(db, stmt, products[1..]);
      var rest := Rows(db, stmt, products[1..]);
      forall j | 0 <= j < |rest|
        ensures rest[j].id != products[0].id
      {
        RowsAreSelected(db, stmt, products[1..], rest[j]);
      }
    }
  }

  /** An ordered answer holds exactly the selected products, each once. */
  lemma AnswerIsExact(db: Database, sort: Sort, collation: string -> int, stmt: Select, whole: seq<Product>, p: Product)
    requires Valid(db) && IsAnswer(db, sort, collation, stmt, whole)
    ensures p in whole <==> p in db.products && Selected(db, stmt, p)
    ensures multiset(whole)[p] <= 1 && |whole| == |Rows(db, stmt, db.products)|
  {
    RowsAreSelected(db, stmt, db.products, p);
    RowsAreUnique(db, stmt, db.products);
    OnceAtMost(Rows(db, stmt, db.products), p);
    AnswerLength(db, sort, collation, stmt, whole);
    assert p in whole <==> p in multiset(whole);
  }

  /** What all pages of a listing show together. */
  lemma ListingShowsMatches(db: Database, sort: Sort, collation: string -> int, f: Filters, scope: Option<Kind>,
                            whole: seq<Product>, p: Product)
    requires Valid(db) && ValidateTypeFacets(f, scope).Ok? && IsAnswer(db, sort, collation, Build(f, scope), whole)
    ensures p in whole <==> p in db.products && Matches(db, f, scope, p)
    ensures |whole| == |Matching(db, f, scope, db.products)| && multiset(whole)[p] <= 1
  {
    AnswerIsExact(db, sort, collation, Build(f, scope), whole, p);
    CatalogExactness.SelectedIffMatches(db, f, scope, p);
    CatalogExactness.QueryReturnsMatches(db, f, scope, db.products);
  }

  lemma {:induction false} OnceAtMost(rows: seq<Product>, p: Product)
    requires UniqueProducts(rows)
    ensures multiset(rows)[p] <= 1
  {
    if rows != [] {
      Sorting.TailOf(rows);
      OnceAtMost(rows[1..], p);
      if rows[0] == p {
        assert forall j :: 0 <= j < |rows[1..]| ==> rows[1..][j] != p;
        assert p !in rows[1..];
      }
    }
  }

  function SearchStmt(term: string): Select {
    Select([], [IsActive, NameILike(LikeSearch.Pattern(term))])
  }

  lemma SearchSelects(db: Database, term: string, p: Product)
    ensures Selected(db, SearchStmt(term), p) <==> p.active && LikeSearch.Contains(Lower(p.name), Lower(term))
  {
    var stmt := SearchStmt(term);
    var env := EnvOf(db, [], p.id);
    LikeSearch.AsciiLowerLeavesSpecials();
    LikeSearch.SearchMatchesLiterally(LikeSearch.AsciiLower, term, p.name);
    assert stmt.wheres[0] in stmt.wheres && stmt.wheres[1] in stmt.wheres;
    assert Keeps(db, stmt.wheres, p, env) <==>
           Eval(db, IsActive, p, env) == Yes && Eval(db, NameILike(LikeSearch.Pattern(term)), p, env) == Yes;
  }

  /**
    What all pages of a search show together: exactly the active products whose name holds the
    term, specials taken literally, each once and by name, and as many as the total says.
   */
  lemma SearchFindsLiterally(db: Database, collation: string -> int, term: string, whole: seq<Product>, p: Product)
    requires Valid(db) && IsAnswer(db, ByName, collation, SearchStmt(term), whole)
    ensures p in whole <==> p in db.products && p.active && LikeSearch.Contains(Lower(p.name), Lower(term))
    ensures multiset(whole)[p] <= 1 && |whole| == |Rows(db, SearchStmt(term), db.products)|
    ensures forall i, j :: 0 <= i < j < |whole| ==> Before(ByName, collation, whole[i], whole[j])
  {
    AnswerIsExact(db, ByName, collation, SearchStmt(term), whole, p);
    SearchSelects(db, term, p);
    forall i, j | 0 <= i < j < |whole|
      ensures Before(ByName, collation, whole[i], whole[j])
    {
      assert Order(ByName, collation)(whole[i], whole[j]);
    }
  }

  /** Searches for one page; the term is escaped before it becomes a pattern. */
  method SearchProducts(db: Database, collation: string -> int, execute: Select -> seq<Product>, term: string,
                        limit: nat, offset: nat) returns (page: Page)
    requires Valid(db) && forall stmt :: IsAnswer(db, ByName, collation, stmt, execute(stmt))
    ensures page.total == |execute(SearchStmt(term))| && page.limit == limit && page.offset == offset
    ensures page.items == Slice(OuterJoin(db.ratings, execute(SearchStmt(term))), limit, offset)
    ensures forall i :: 0 <= i < |page.items| ==>
              var p := page.items[i].product;
              p in db.products && p.active && LikeSearch.Contains(Lower(p.name), Lower(term))
  {
    var pattern := "%" + LikeSearch.EscapeLike(term) + "%";
    var base := ALL_PRODUCTS.Where(IsActive).Where(NameILike(pattern));
    assert base.wheres == [IsActive, NameILike(pattern)];
    var whole := execute(base);
    var rows := OuterJoin(db.ratings, whole);
    page := Page(Slice(rows, limit, offset), |Rows(db, base, db.products)|, limit, offset);
    AnswerLength(db, ByName, collation, base, whole);
    OuterJoinKeepsRows(db.ratings, whole);
    forall i | 0 <= i < |page.items|
      ensures var p := page.items[i].product;
              p in db.products && p.active && LikeSearch.Contains(Lower(p.name), Lower(term))
    {
      var p := page.items[i].product;
      assert page.items[i] in rows;
      assert p in whole;
      SearchFindsLiterally(db, collation, term, whole, p);
    }
  }
}
