/**
  The flavour facet of one category's active coffees: the counting loop, the order and labels of
  its options, and the counts against what choosing an option then finds.
 */
module FlavorFacets {
  import opened Wrappers
  import opened CatalogTables
  import opened CatalogFilters
  import opened Facets
  import CatalogExactness
  import LikeSearch
  import QueryTerms
  import Sorting

  // ------------------------------------------------------------------- counting

  function Occurrences(keys: seq<string>, key: string): nat {
    if keys == [] then 0
    else Occurrences(keys[..|keys| - 1], key) + if keys[|keys| - 1] == key then 1 else 0
  }

  function TotalOccurrences(rows: seq<Notes>, key: string): nat {
    if rows == [] then 0 else TotalOccurrences(rows[..|rows| - 1], key) + Occurrences(rows[|rows| - 1].keys, key)
  }

  function CountFor(counts: map<string, nat>, key: string): nat {
    if key in counts then counts[key] else 0
  }

  /** The counts dictionary: an entry for every key seen, holding how often. */
  ghost predicate Counts(counts: map<string, nat>, rows: seq<Notes>) {
    && (forall key :: CountFor(counts, key) == TotalOccurrences(rows, key))
    && (forall key :: key in counts ==> counts[key] > 0)
  }

  // ------------------------------------------------------------------- labels

  /** The label made of a key that has none; `title` capitalises words. */
  function DefaultLabel(key: string, title: string -> string): string {
    title(LikeSearch.Replace(LikeSearch.Replace(key, '-', " "), '_', " "))
  }

  /** The label beside the key where it first stands among the first `n`. */
  function LabelIn(notes: Notes, n: nat, key: string, title: string -> string): Option<string>
    requires n <= |notes.keys|
  {
    if n == 0 then None
    else
      var before := LabelIn(notes, n - 1, key, title);
      if before.Some? then before
      else if notes.keys[n - 1] != key then None
      else Some(if n - 1 < |notes.labels| then notes.labels[n - 1] else DefaultLabel(key, title))
  }

  /** The label of the first row that has the key. */
  function FirstLabel(rows: seq<Notes>, key: string, title: string -> string): Option<string> {
    if rows == [] then None
    else
      var before, last := FirstLabel(rows[..|rows| - 1], key, title), rows[|rows| - 1];
      if before.Some? then before else LabelIn(last, |last.keys|, key, title)
  }

  function LabelFor(labels: map<string, string>, key: string): Option<string> {
    if key in labels then Some(labels[key]) else None
  }

  function OrElse(a: Option<string>, b: Option<string>): Option<string> {
    if a.Some? then a else b
  }

  // ------------------------------------------------------------------- order

  /** Lexicographic order by character code. */
  predicate StringLess(a: string, b: string) {
    b != "" && (a == "" || a[0] < b[0] || (a[0] == b[0] && StringLess(a[1..], b[1..])))
  }

  /** Most frequent first, then by key. */
  predicate ShownBefore(counts: map<string, nat>, a: string, b: string) {
    CountFor(counts, a) > CountFor(counts, b) || (CountFor(counts, a) == CountFor(counts, b) && StringLess(a, b))
  }

  function OptionOrder(counts: map<string, nat>): (string, string) -> bool {
    (a: string, b: string) => ShownBefore(counts, a, b)
  }

  /** What sorting the dictionary's keys returns. */
  ghost predicate IsOrdered(counts: map<string, nat>, ordered: seq<string>) {
    multiset(ordered) == multiset(counts.Keys) && Sorting.IsSorted(OptionOrder(counts), ordered)
  }

  lemma OrderedKeys(counts: map<string, nat>, ordered: seq<string>)
    requires IsOrdered(counts, ordered)
    ensures forall i :: 0 <= i < |ordered| ==> ordered[i] in counts
  {
    forall i | 0 <= i < |ordered|
      ensures ordered[i] in counts
    {
      assert ordered[i] in multiset(ordered);
      assert ordered[i] in multiset(counts.Keys);
    }
  }

  lemma {:induction false} StringLessIsAsymmetric(a: string, b: string)
    ensures !(StringLess(a, b) && StringLess(b, a))
  {
    if a != "" && b != "" && a[0] == b[0] {
      StringLessIsAsymmetric(a[1..], b[1..]);
    }
  }

  /** Strings compare at the first place they differ; a proper prefix comes first. */
  lemma {:induction false} StringLessMeans(a: string, b: string)
    ensures StringLess(a, b) <==> a < b || exists n :: DiffersUpwards(a, b, n)
  {
    if a != "" && b != "" && a[0] == b[0] {
      StringLessMeans(a[1..], b[1..]);
      PrefixOfTails(a, b);
      if n :| DiffersUpwards(a[1..], b[1..], n) {
        assert [a[0]] + a[1..][..n] == a[..n + 1] && [b[0]] + b[1..][..n] == b[..n + 1];
        assert DiffersUpwards(a, b, n + 1);
      }
      if n :| DiffersUpwards(a, b, n) {
        assert a[1..][..n - 1] == a[..n][1..] && b[1..][..n - 1] == b[..n][1..];
        assert DiffersUpwards(a[1..], b[1..], n - 1);
      }
    } else if a != "" && b != "" {
      assert DiffersUpwards(a, b, 0) <==> a[0] < b[0];
    }
  }

  /** The strings agree on their first `n` characters, and then `a` has the smaller one. */
  ghost predicate DiffersUpwards(a: string, b: string, n: int) {
    0 <= n < |a| && n < |b| && a[..n] == b[..n] && a[n] < b[n]
  }

  lemma PrefixOfTails(a: string, b: string)
    requires a != "" && b != "" && a[0] == b[0]
    ensures a < b <==> a[1..] < b[1..]
  {
    if a[1..] < b[1..] {
      assert a == [a[0]] + a[1..] && b == [b[0]] + b[1..];
    }
  }

  /** The options come in one order only: falling counts, ties by key, every key once. */
  lemma OptionsAreOrdered(counts: map<string, nat>, a: seq<string>, b: seq<string>)
    requires IsOrdered(counts, a) && IsOrdered(counts, b)
    ensures a == b
    ensures forall i, j :: 0 <= i < j < |a| ==>
              && a[i] in counts && a[j] in counts
              && (counts[a[i]] > counts[a[j]] || (counts[a[i]] == counts[a[j]] && StringLess(a[i], a[j])))
  {
    var less := OptionOrder(counts);
    forall x: string, y: string
      ensures !(less(x, y) && less(y, x))
    {
      StringLessIsAsymmetric(x, y);
    }
    Sorting.SortedIsUnique(less, a, b);
    OrderedKeys(counts, a);
    forall i, j | 0 <= i < j < |a|
      ensures counts[a[i]] > counts[a[j]] || (counts[a[i]] == counts[a[j]] && StringLess(a[i], a[j]))
    {
      assert less(a[i], a[j]);
      assert ShownBefore(counts, a[i], a[j]);
    }
  }

  // ------------------------------------------------------------------- the loop

  datatype FlavorOption = FlavorOption(value: string, caption: string, count: nat)

  /** `after` is `before` with the first `n` keys counted. */
  ghost predicate CountedTo(before: map<string, nat>, after: map<string, nat>, keys: seq<string>, n: nat)
    requires n <= |keys|
  {
    forall key :: CountFor(after, key) == CountFor(before, key) + Occurrences(keys[..n], key)
  }

  lemma CountOneKey(before: map<string, nat>, after: map<string, nat>, keys: seq<string>, i: nat)
    requires i < |keys| && CountedTo(before, after, keys, i)
    ensures CountedTo(before, after[keys[i] := CountFor(after, keys[i]) + 1], keys, i + 1)
  {
    assert keys[..i + 1][..i] == keys[..i];
  }

  /** `after` is `before` with the first `n` keys labelled, unless they were. */
  ghost predicate LabelledTo(before: map<string, string>, after: map<string, string>, notes: Notes, n: nat,
                             title: string -> string)
    requires n <= |notes.keys|
  {
    forall key :: LabelFor(after, key) == OrElse(LabelFor(before, key), LabelIn(notes, n, key, title))
  }

  /** The inner loop: the keys of one row. */
  method CountKeys(counts: map<string, nat>, labels: map<string, string>, notes: Notes, title: string -> string)
    returns (newCounts: map<string, nat>, newLabels: map<string, string>)
    requires labels.Keys == counts.Keys && forall key :: key in counts ==> counts[key] > 0
    ensures newLabels.Keys == newCounts.Keys && forall key :: key in newCounts ==> newCounts[key] > 0
    ensures forall key :: CountFor(newCounts, key) == CountFor(counts, key) + Occurrences(notes.keys, key)
    ensures LabelledTo(labels, newLabels, notes, |notes.keys|, title)
  {
    newCounts, newLabels := counts, labels;
    var keys := notes.keys;
    for i := 0 to |keys|
      invariant newLabels.Keys == newCounts.Keys && forall key :: key in newCounts ==> newCounts[key] > 0
      invariant CountedTo(counts, newCounts, keys, i)
      invariant LabelledTo(labels, newLabels, notes, i, title)
    {
      var key := keys[i];
      CountOneKey(counts, newCounts, keys, i);
      newCounts := newCounts[key := CountFor(newCounts, key) + 1];
      if key !in newLabels {
        newLabels := newLabels[key := if i < |notes.labels| then notes.labels[i] else DefaultLabel(key, title)];
      }
    }
    assert keys[..|keys|] == keys;
  }

  /** Counts every occurrence of every key and labels it where it first stands. `order` is the library's sort. */
  method FlavorFacet(rows: seq<Notes>, order: map<string, nat> -> seq<string>, title: string -> string)
    returns (options: seq<FlavorOption>, counts: map<string, nat>)
    requires forall c :: IsOrdered(c, order(c))
    ensures Counts(counts, rows)
    ensures |options| == |order(counts)|
    ensures forall i :: 0 <= i < |options| ==>
              && options[i].value == order(counts)[i]
              && options[i].count == TotalOccurrences(rows, options[i].value)
              && FirstLabel(rows, options[i].value, title) == Some(options[i].caption)
  {
    var labels: map<string, string> := map[];
    counts := map[];
    for i := 0 to |rows|
      invariant Counts(counts, rows[..i]) && labels.Keys == counts.Keys
      invariant forall key :: LabelFor(labels, key) == FirstLabel(rows[..i], key, title)
    {
      assert rows[..i + 1][..i] == rows[..i];
      counts, labels := CountKeys(counts, labels, rows[i], title);
    }
    assert rows[..|rows|] == rows;
    var ordered := order(counts);
    OrderedKeys(counts, ordered);
    options := [];
    for i := 0 to |ordered|
      invariant |options| == i
      invariant forall k :: 0 <= k < i ==>
                  options[k] == FlavorOption(ordered[k], labels[ordered[k]], counts[ordered[k]])
    {
      options := options + [FlavorOption(ordered[i], labels[ordered[i]], counts[ordered[i]])];
    }
    forall k | 0 <= k < |options|
      ensures options[k].count == TotalOccurrences(rows, options[k].value)
      ensures FirstLabel(rows, options[k].value, title) == Some(options[k].caption)
    {
      assert CountFor(counts, ordered[k]) == counts[ordered[k]];
      assert LabelFor(labels, ordered[k]) == Some(labels[ordered[k]]);
    }
  }

  // ------------------------------------------------------------------- which label

  /** The key with its dashes and underscores turned into blanks. */
  function Spaced(key: string): string {
    seq(|key|, i requires 0 <= i < |key| => if key[i] == '-' || key[i] == '_' then ' ' else key[i])
  }

  lemma {:induction false} DefaultLabelSpaces(key: string)
    ensures LikeSearch.Replace(LikeSearch.Replace(key, '-', " "), '_', " ") == Spaced(key)
  {
    if key != "" {
      DefaultLabelSpaces(key[1..]);
      var head := if key[0] == '-' then " " else [key[0]];
      var rest := LikeSearch.Replace(key[1..], '-', " ");
      assert (head + rest)[0] == head[0] && (head + rest)[1..] == rest;
      assert Spaced(key) == [if key[0] == '-' || key[0] == '_' then ' ' else key[0]] + Spaced(key[1..]);
    }
  }

  lemma {:induction false} LabelInFirst(notes: Notes, n: nat, key: string, title: string -> string, i: nat)
    requires n <= |notes.keys| && i < |notes.keys| && notes.keys[i] == key
    requires forall h :: 0 <= h < i ==> notes.keys[h] != key
    ensures LabelIn(notes, n, key, title) ==
            if n <= i then None
            else Some(if i < |notes.labels| then notes.labels[i] else DefaultLabel(key, title))
    decreases n
  {
    if n > 0 {
      LabelInFirst(notes, n - 1, key, title, i);
    }
  }

  lemma {:induction false} NoLabelIn(notes: Notes, n: nat, key: string, title: string -> string)
    requires n <= |notes.keys| && key !in notes.keys
    ensures LabelIn(notes, n, key, title).None?
    decreases n
  {
    if n > 0 {
      NoLabelIn(notes, n - 1, key, title);
    }
  }

  /**
    The label of a key is the one beside it in the first row that has it, where it first stands there;
    or, if there is none beside it, its words capitalised.
   */
  lemma {:induction false} LabelIsTheFirst(rows: seq<Notes>, key: string, title: string -> string, r: nat, i: nat)
    requires r < |rows| && i < |rows[r].keys| && rows[r].keys[i] == key
    requires forall q :: 0 <= q < r ==> key !in rows[q].keys
    requires forall h :: 0 <= h < i ==> rows[r].keys[h] != key
    ensures FirstLabel(rows, key, title) ==
            Some(if i < |rows[r].labels| then rows[r].labels[i] else title(Spaced(key)))
    decreases |rows|
  {
    var n := |rows| - 1;
    if r < n {
      LabelIsTheFirst(rows[..n], key, title, r, i);
    } else {
      NoFirstLabel(rows[..n], key, title);
      LabelInFirst(rows[r], |rows[r].keys|, key, title, i);
      DefaultLabelSpaces(key);
    }
  }

  lemma {:induction false} NoFirstLabel(rows: seq<Notes>, key: string, title: string -> string)
    requires forall q :: 0 <= q < |rows| ==> key !in rows[q].keys
    ensures FirstLabel(rows, key, title).None?
    decreases |rows|
  {
    if rows != [] {
      NoFirstLabel(rows[..|rows| - 1], key, title);
      NoLabelIn(rows[|rows| - 1], |rows[|rows| - 1].keys|, key, title);
    }
  }

  // ------------------------------------------------------------------- against the filter

  /** The notes of one row; a missing object counts as no keys. */
  function NotesOf(d: Detail): Notes {
    if d.notes.None? then Notes([], []) else d.notes.value
  }

  function NoteRows(coffees: seq<Detail>): seq<Notes> {
    seq(|coffees|, i requires 0 <= i < |coffees| => NotesOf(coffees[i]))
  }

  predicate ListsAny(d: Detail, terms: seq<string>) {
    exists t :: t in terms && t in NotesOf(d).keys
  }

  function Listing(coffees: seq<Detail>, terms: seq<string>): nat {
    if coffees == [] then 0 else (if ListsAny(coffees[0], terms) then 1 else 0) + Listing(coffees[1..], terms)
  }

  function ByFlavors(category: CategoryId, terms: seq<string>): Filters {
    NO_FILTERS.(category := Some(category), flavorNotes := terms)
  }

  /** The filter set when a customer chooses a flavour option: its key goes through the parameter's parsing. */
  function ByFlavor(category: CategoryId, key: string): Filters {
    ByFlavors(category, QueryTerms.SplitCsv(key))
  }

  lemma FlavorMatches(db: Database, category: CategoryId, terms: seq<string>, scope: Option<Kind>, p: Product)
    ensures var d := DetailOf(db, Coffee, p.id);
            Matches(db, ByFlavors(category, terms), scope, p) <==>
            p.active && p.category == category && (terms == [] || (d.Some? && ListsAny(d.value, terms)))
  {
  }

  lemma {:induction false} FilteredByFlavors(db: Database, category: CategoryId, terms: seq<string>,
                                             scope: Option<Kind>,
                                             products: seq<Product>)
    requires terms != []
    ensures |Matching(db, ByFlavors(category, terms), scope, products)| ==
            Listing(ActiveCoffees(db, category, products), terms)
  {
    if products != [] {
      var p := products[0];
      FilteredByFlavors(db, category, terms, scope, products[1..]);
      FlavorMatches(db, category, terms, scope, p);
      var coffees, later := ActiveCoffees(db, category, products), ActiveCoffees(db, category, products[1..]);
      var d := DetailOf(db, Coffee, p.id);
      if p.active && p.category == category && d.Some? {
        assert coffees == [d.value] + later && coffees[1..] == later;
      } else {
        assert coffees == later;
      }
    }
  }

  lemma {:induction false} OccursIffIn(keys: seq<string>, key: string)
    ensures Occurrences(keys, key) > 0 <==> key in keys
  {
    if keys != [] {
      OccursIffIn(keys[..|keys| - 1], key);
      assert keys == keys[..|keys| - 1] + [keys[|keys| - 1]];
    }
  }

  lemma {:induction false} TotalFromFront(rows: seq<Notes>, key: string)
    requires rows != []
    ensures TotalOccurrences(rows, key) == Occurrences(rows[0].keys, key) + TotalOccurrences(rows[1..], key)
  {
    if |rows| > 1 {
      var before := rows[..|rows| - 1];
      TotalFromFront(before, key);
      assert rows[1..][..|rows| - 2] == before[1..];
    }
  }

  lemma {:induction false} CountsAgainstListing(coffees: seq<Detail>, key: string)
    ensures Listing(coffees, [key]) <= TotalOccurrences(NoteRows(coffees), key)
    ensures Listing(coffees, [key]) == TotalOccurrences(NoteRows(coffees), key)
            <==> forall d :: d in coffees ==> Occurrences(NotesOf(d).keys, key) <= 1
  {
    if coffees != [] {
      var rows := NoteRows(coffees);
      assert rows[1..] == NoteRows(coffees[1..]);
      TotalFromFront(rows, key);
      OccursIffIn(NotesOf(coffees[0]).keys, key);
      assert ListsAny(coffees[0], [key]) <==> key in NotesOf(coffees[0]).keys by {
        assert key in [key];
      }
      CountsAgainstListing(coffees[1..], key);
      assert forall d :: d in coffees <==> d == coffees[0] || d in coffees[1..];
    }
  }

  /** What the facet shows beside a key, and what the query of the chosen option finds. */
  function Shown(db: Database, category: CategoryId, key: string): nat {
    TotalOccurrences(NoteRows(ActiveCoffees(db, category, db.products)), key)
  }

  function Found(db: Database, category: CategoryId, key: string, scope: Option<Kind>): nat {
    |Rows(db, Build(ByFlavor(category, key), scope), db.products)|
  }

  ghost predicate ListedOnceEach(db: Database, category: CategoryId, key: string) {
    forall d :: d in ActiveCoffees(db, category, db.products) ==> Occurrences(NotesOf(d).keys, key) <= 1
  }

  /**
    For a key that the parameter's parsing leaves alone, the number beside the option is never less
    than what choosing it finds, and it is exactly that when no active coffee of the category lists
    the flavour twice.
   */
  lemma FlavorCountIsFilteredTotalIff(db: Database, category: CategoryId, key: string, scope: Option<Kind>)
    requires Valid(db) && QueryTerms.IsTerm(key)
    ensures Found(db, category, key, scope) <= Shown(db, category, key)
    ensures Found(db, category, key, scope) == Shown(db, category, key) <==> ListedOnceEach(db, category, key)
  {
    QueryTerms.SplitCsvFixes(key);
    FoundListing(db, category, key, scope);
    CountsAgainstListing(ActiveCoffees(db, category, db.products), key);
  }

  // ------------------------------------------------------------------- keys that the parsing changes

  /** Two active coffees of one category, with the given keys. */
  function Shelf(first: seq<string>, second: seq<string>): Database {
    Database([Product(0, "A", 0, 1000, true, 0), Product(1, "B", 0, 1000, true, 0)],
             [Detail(0, map[], map[], Some(Notes(first, []))), Detail(1, map[], map[], Some(Notes(second, [])))],
             [], [], [], [], map[0 := Coffee])
  }

  lemma ShelfCoffees(first: seq<string>, second: seq<string>)
    ensures Valid(Shelf(first, second))
    ensures ActiveCoffees(Shelf(first, second), 0, Shelf(first, second).products) == Shelf(first, second).coffee
  {
    var db := Shelf(first, second);
    assert DetailOf(db, Coffee, 0) == Some(db.coffee[0]);
    assert DetailIn(db.coffee[1..], 1) == Some(db.coffee[1]);
    assert DetailOf(db, Coffee, 1) == Some(db.coffee[1]);
    assert db.products[1..][1..] == [];
    assert ActiveCoffees(db, 0, db.products[1..]) == [db.coffee[1]];
  }

  lemma TwoCounted(a: Detail, b: Detail, key: string)
    ensures TotalOccurrences(NoteRows([a, b]), key) ==
            Occurrences(NotesOf(a).keys, key) + Occurrences(NotesOf(b).keys, key)
  {
    var rows := NoteRows([a, b]);
    assert rows[1..] == [NotesOf(b)] && rows[1..][..0] == [];
    TotalFromFront(rows, key);
    assert TotalOccurrences(rows[1..], key) == Occurrences(NotesOf(b).keys, key);
  }

  lemma TwoListed(a: Detail, b: Detail, terms: seq<string>)
    ensures Listing([a, b], terms) == (if ListsAny(a, terms) then 1 else 0) + (if ListsAny(b, terms) then 1 else 0)
  {
    var both, one := [a, b], [b];
    assert both[1..] == one && one[1..] == [];
    assert Listing(one, terms) == if ListsAny(b, terms) then 1 else 0;
  }

  lemma ShownOnShelf(first: seq<string>, second: seq<string>, key: string)
    ensures Shown(Shelf(first, second), 0, key) == Occurrences(first, key) + Occurrences(second, key)
  {
    var coffee := Shelf(first, second).coffee;
    ShelfCoffees(first, second);
    TwoCounted(coffee[0], coffee[1], key);
    assert coffee == [coffee[0], coffee[1]];
  }

  /** No terms, no coffee filter: every active product of the category is found. */
  lemma {:induction false} NoTermsFindAll(db: Database, category: CategoryId, scope: Option<Kind>,
                                          products: seq<Product>)
    requires forall i :: 0 <= i < |products| ==> products[i].active && products[i].category == category
    ensures |Matching(db, ByFlavors(category, []), scope, products)| == |products|
  {
    if products != [] {
      FlavorMatches(db, category, [], scope, products[0]);
      NoTermsFindAll(db, category, scope, products[1..]);
    }
  }

  /** What choosing a key finds, in terms of the category's coffees. */
  lemma FoundListing(db: Database, category: CategoryId, key: string, scope: Option<Kind>)
    requires Valid(db) && QueryTerms.SplitCsv(key) != []
    ensures Found(db, category, key, scope) ==
            Listing(ActiveCoffees(db, category, db.products), QueryTerms.SplitCsv(key))
  {
    CatalogExactness.QueryReturnsMatches(db, ByFlavor(category, key), scope, db.products);
    FilteredByFlavors(db, category, QueryTerms.SplitCsv(key), scope, db.products);
  }

  lemma FoundAll(db: Database, category: CategoryId, key: string, scope: Option<Kind>)
    requires Valid(db) && QueryTerms.SplitCsv(key) == []
    requires forall i :: 0 <= i < |db.products| ==> db.products[i].active && db.products[i].category == category
    ensures Found(db, category, key, scope) == |db.products|
  {
    CatalogExactness.QueryReturnsMatches(db, ByFlavor(category, key), scope, db.products);
    NoTermsFindAll(db, category, scope, db.products);
  }

  lemma FoundOnShelf(first: seq<string>, second: seq<string>, key: string, scope: Option<Kind>)
    ensures var db, terms := Shelf(first, second), QueryTerms.SplitCsv(key);
            Found(db, 0, key, scope) == if terms == [] then 2 else Listing(db.coffee, terms)
  {
    ShelfCoffees(first, second);
    if QueryTerms.SplitCsv(key) == [] {
      FoundAll(Shelf(first, second), 0, key, scope);
    } else {
      FoundListing(Shelf(first, second), 0, key, scope);
    }
  }

  /**
    For any other key the facet is wrong of some category that lists it once only: choosing "Nutty"
    looks for "nutty" and finds nothing, choosing a blank key sets no filter and finds everything.
   */
  lemma ChangedKeyMiscounts(key: string, scope: Option<Kind>)
    requires !QueryTerms.IsTerm(key)
    ensures var db := Shelf([key], []);
            && Valid(db) && ListedOnceEach(db, 0, key)
            && Shown(db, 0, key) == 1 && Found(db, 0, key, scope) != 1
  {
    OneListing(key);
    ShelfListsOnce(key);
    ShownOnShelf([key], [], key);
    FoundOnShelf([key], [], key, scope);
    NotListedAsParsed(key);
  }

  lemma ShelfListsOnce(key: string)
    ensures Valid(Shelf([key], [])) && ListedOnceEach(Shelf([key], []), 0, key)
  {
    var coffee := Shelf([key], []).coffee;
    ShelfCoffees([key], []);
    OneListing(key);
    assert forall d :: d in coffee ==> d == coffee[0] || d == coffee[1];
  }

  lemma OneListing(key: string)
    ensures Occurrences([key], key) == 1 && Occurrences([], key) == 0
  {
    var keys := [key];
    assert keys[..0] == [];
  }

  /** No coffee of the shelf lists what the changed key is parsed into. */
  lemma NotListedAsParsed(key: string)
    requires !QueryTerms.IsTerm(key)
    ensures Listing(Shelf([key], []).coffee, QueryTerms.SplitCsv(key)) == 0
  {
    var coffee, terms := Shelf([key], []).coffee, QueryTerms.SplitCsv(key);
    QueryTerms.SplitCsvFixes(key);
    assert key !in terms;
    TwoListed(coffee[0], coffee[1], terms);
    assert coffee == [coffee[0], coffee[1]];
  }

  /** So the parsing leaves a key alone exactly when its count can be trusted in every catalogue that lists it once each. */
  lemma CountCanBeTrustedIff(key: string, scope: Option<Kind>)
    ensures QueryTerms.SplitCsv(key) == [key] <==>
            forall db: Database, category: CategoryId ::
              Valid(db) && ListedOnceEach(db, category, key) ==> Found(db, category, key, scope) == Shown(db, category, key)
  {
    QueryTerms.SplitCsvFixes(key);
    if QueryTerms.IsTerm(key) {
      forall db: Database, category: CategoryId | Valid(db) && ListedOnceEach(db, category, key)
        ensures Found(db, category, key, scope) == Shown(db, category, key)
      {
        FlavorCountIsFilteredTotalIff(db, category, key, scope);
      }
    } else {
      ChangedKeyMiscounts(key, scope);
    }
  }

  /** And a key that one coffee lists twice is counted twice and found once. */
  lemma RepeatedKeyIsCountedTwice(key: string, scope: Option<Kind>)
    requires QueryTerms.IsTerm(key)
    ensures var db := Shelf([key, key], []);
            Valid(db) && Shown(db, 0, key) == 2 && Found(db, 0, key, scope) == 1
  {
    var keys, coffee := [key, key], Shelf([key, key], []).coffee;
    assert keys[..1] == [key] && keys[..1][..0] == [];
    QueryTerms.SplitCsvFixes(key);
    ShelfCoffees(keys, []);
    ShownOnShelf(keys, [], key);
    FoundOnShelf(keys, [], key, scope);
    TwoListed(coffee[0], coffee[1], [key]);
    assert coffee == [coffee[0], coffee[1]];
    assert keys[0] in keys;
  }

  lemma LowerIsItself(s: string)
    requires forall i :: 0 <= i < |s| ==> !('A' <= s[i] <= 'Z')
    ensures Lower(s) == s
  {
    forall i | 0 <= i < |s|
      ensures Lower(s)[i] == s[i]
    {
      assert Lower(s)[i] == LikeSearch.AsciiLower(s[i]);
    }
  }

  lemma CapitalIsNoTerm(s: string)
    requires s != "" && 'A' <= s[0] <= 'Z'
    ensures !QueryTerms.IsTerm(s)
  {
    assert Lower(s)[0] == LikeSearch.AsciiLower(s[0]);
    assert LikeSearch.AsciiLower(s[0]) as int == s[0] as int + 32;
  }

  lemma SmallIsTerm(s: string)
    requires s != "" && forall i :: 0 <= i < |s| ==> 'a' <= s[i] <= 'z'
    ensures QueryTerms.IsTerm(s)
  {
    LowerIsItself(s);
  }

  /** As in "nutty" listed twice, or "Nutty" listed once. */
  lemma ExampleKeys()
    ensures QueryTerms.IsTerm("nutty") && !QueryTerms.IsTerm("Nutty")
  {
    SmallIsTerm("nutty");
    CapitalIsNoTerm("Nutty");
  }
}
