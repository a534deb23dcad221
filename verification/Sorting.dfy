/** Sorting by a strict order: what a sorted result is, and that there is only one. */
module Sorting {

  ghost predicate IsSorted<T(!new)>(less: (T, T) -> bool, s: seq<T>) {
    forall i, j :: 0 <= i < j < |s| ==> less(s[i], s[j])
  }

  ghost predicate Asymmetric<T(!new)>(less: (T, T) -> bool) {
    forall x, y :: !(less(x, y) && less(y, x))
  }

  lemma TailOf<T>(s: seq<T>)
    requires s != []
    ensures multiset(s) == multiset{s[0]} + multiset(s[1..])
    ensures multiset(s[1..]) == multiset(s) - multiset{s[0]}
    ensures s == [s[0]] + s[1..]
  {
    assert s == [s[0]] + s[1..];
  }

  lemma TailSorted<T(!new)>(less: (T, T) -> bool, s: seq<T>)
    requires IsSorted(less, s) && s != []
    ensures IsSorted(less, s[1..])
  {
  }

  lemma SameLength<T>(a: seq<T>, b: seq<T>)
    requires multiset(a) == multiset(b)
    ensures |a| == |b|
  {
    assert |multiset(a)| == |a| && |multiset(b)| == |b|;
  }

  lemma FirstsAgree<T(!new)>(less: (T, T) -> bool, a: seq<T>, b: seq<T>)
    requires Asymmetric(less) && IsSorted(less, a) && IsSorted(less, b)
    requires multiset(a) == multiset(b) && a != [] && b != []
    ensures a[0] == b[0]
  {
    assert a[0] in multiset(b) && b[0] in multiset(a);
    var j :| 0 <= j < |b| && b[j] == a[0];
    var i :| 0 <= i < |a| && a[i] == b[0];
  }

  /** Two sorted arrangements of the same elements are the same sequence. */
  lemma {:induction false} SortedIsUnique<T(!new)>(less: (T, T) -> bool, a: seq<T>, b: seq<T>)
    requires Asymmetric(less) && IsSorted(less, a) && IsSorted(less, b) && multiset(a) == multiset(b)
    ensures a == b
    decreases |a|
  {
    SameLength(a, b);
    if a != [] {
      FirstsAgree(less, a, b);
      TailOf(a);
      TailOf(b);
      TailSorted(less, a);
      TailSorted(less, b);
      SortedIsUnique(less, a[1..], b[1..]);
    }
  }

  // ------------------------------------------------------------------- a sorted arrangement exists

  ghost predicate Transitive<T(!new)>(less: (T, T) -> bool) {
    forall x, y, z :: less(x, y) && less(y, z) ==> less(x, z)
  }

  ghost predicate Comparable<T(!new)>(less: (T, T) -> bool, s: seq<T>) {
    forall i, j :: 0 <= i < j < |s| ==> less(s[i], s[j]) || less(s[j], s[i])
  }

  function Insert<T>(less: (T, T) -> bool, x: T, s: seq<T>): seq<T> {
    if s == [] || less(x, s[0]) then [x] + s else [s[0]] + Insert(less, x, s[1..])
  }

  lemma {:induction false} InsertKeepsElements<T>(less: (T, T) -> bool, x: T, s: seq<T>)
    ensures multiset(Insert(less, x, s)) == multiset{x} + multiset(s)
  {
    if s != [] && !less(x, s[0]) {
      InsertKeepsElements(less, x, s[1..]);
      TailOf(s);
    }
  }

  lemma {:induction false} InsertSorts<T(!new)>(less: (T, T) -> bool, x: T, s: seq<T>)
    requires Transitive(less) && IsSorted(less, s)
    requires forall i :: 0 <= i < |s| ==> less(x, s[i]) || less(s[i], x)
    ensures IsSorted(less, Insert(less, x, s))
  {
    if s != [] && !less(x, s[0]) {
      TailSorted(less, s);
      InsertSorts(less, x, s[1..]);
      InsertKeepsElements(less, x, s[1..]);
      var rest := Insert(less, x, s[1..]);
      forall j | 0 <= j < |rest|
        ensures less(s[0], rest[j])
      {
        assert rest[j] in multiset(rest);
        assert rest[j] == x || rest[j] in s[1..];
      }
    }
  }

  /** Any rows that the order tells apart can be sorted by it. */
  lemma {:induction false} SortExists<T(!new)>(less: (T, T) -> bool, rows: seq<T>) returns (sorted: seq<T>)
    requires Transitive(less) && Comparable(less, rows)
    ensures multiset(sorted) == multiset(rows) && IsSorted(less, sorted)
    decreases |rows|
  {
    if rows == [] {
      sorted := [];
    } else {
      var before := SortExists(less, rows[1..]);
      TailOf(rows);
      forall i | 0 <= i < |before|
        ensures less(rows[0], before[i]) || less(before[i], rows[0])
      {
        assert before[i] in multiset(before);
        var j :| 0 <= j < |rows[1..]| && rows[1..][j] == before[i];
        assert rows[j + 1] == before[i];
      }
      InsertSorts(less, rows[0], before);
      InsertKeepsElements(less, rows[0], before);
      sorted := Insert(less, rows[0], before);
    }
  }
}
