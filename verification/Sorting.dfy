/** ORDER BY: insertion from the right, so rows with equal keys keep the table's order. */
module Sorting {

  function Insert<T>(before: (T, T) -> bool, sorted: seq<T>, x: T): seq<T> {
    if sorted == [] || before(sorted[|sorted| - 1], x) then sorted + [x]
    else Insert(before, sorted[..|sorted| - 1], x) + [sorted[|sorted| - 1]]
  }

  function Sort<T>(before: (T, T) -> bool, s: seq<T>): seq<T> {
    if s == [] then [] else Insert(before, Sort(before, s[..|s| - 1]), s[|s| - 1])
  }

  ghost predicate Ordered<T(!new)>(before: (T, T) -> bool, s: seq<T>) {
    forall i, j :: 0 <= i < j < |s| ==> before(s[i], s[j])
  }

  ghost predicate Transitive<T(!new)>(before: (T, T) -> bool) {
    forall a, b, c :: before(a, b) && before(b, c) ==> before(a, c)
  }

  ghost predicate Comparable<T(!new)>(before: (T, T) -> bool, s: seq<T>) {
    forall i, j :: 0 <= i < j < |s| ==> before(s[i], s[j]) || before(s[j], s[i])
  }

  lemma {:induction false} InsertKeepsElements<T(!new)>(before: (T, T) -> bool, sorted: seq<T>, x: T)
    ensures multiset(Insert(before, sorted, x)) == multiset(sorted) + multiset{x}
  {
    if sorted != [] && !before(sorted[|sorted| - 1], x) {
      var front, last := sorted[..|sorted| - 1], sorted[|sorted| - 1];
      InsertKeepsElements(before, front, x);
      assert sorted == front + [last];
    }
  }

  lemma InsertAddsOne<T(!new)>(before: (T, T) -> bool, sorted: seq<T>, x: T)
    ensures forall y :: y in Insert(before, sorted, x) ==> y == x || y in sorted
  {
    InsertKeepsElements(before, sorted, x);
    forall y | y in Insert(before, sorted, x) ensures y == x || y in sorted {
      assert y in multiset(sorted) + multiset{x};
    }
  }

  lemma {:induction false} InsertKeepsOrder<T(!new)>(before: (T, T) -> bool, sorted: seq<T>, x: T)
    requires Transitive(before) && Ordered(before, sorted)
    requires forall y :: y in sorted ==> before(y, x) || before(x, y)
    ensures Ordered(before, Insert(before, sorted, x))
  {
    if sorted != [] && !before(sorted[|sorted| - 1], x) {
      var front, last := sorted[..|sorted| - 1], sorted[|sorted| - 1];
      InsertKeepsOrder(before, front, x);
      InsertAddsOne(before, front, x);
      var r := Insert(before, front, x);
      forall k | 0 <= k < |r| ensures before(r[k], last) {
        assert r[k] in r;
        if r[k] != x {
          var l :| 0 <= l < |front| && front[l] == r[k];
          assert before(sorted[l], sorted[|sorted| - 1]);
        }
      }
    } else {
      forall k | 0 <= k < |sorted| ensures before(sorted[k], x) {
        if k < |sorted| - 1 {
          assert before(sorted[k], sorted[|sorted| - 1]);
        }
      }
    }
  }

  lemma {:induction false} SortKeepsElements<T(!new)>(before: (T, T) -> bool, s: seq<T>)
    ensures multiset(Sort(before, s)) == multiset(s)
    ensures forall y :: y in Sort(before, s) ==> y in s
  {
    if s != [] {
      var front, last := s[..|s| - 1], s[|s| - 1];
      SortKeepsElements(before, front);
      InsertKeepsElements(before, Sort(before, front), last);
      InsertAddsOne(before, Sort(before, front), last);
      assert s == front + [last];
      assert forall y :: y in front ==> y in s;
    }
  }

  /** The answer is in order and holds exactly the given rows. */
  lemma {:induction false} SortIsOrderedPermutation<T(!new)>(before: (T, T) -> bool, s: seq<T>)
    requires Transitive(before) && Comparable(before, s)
    ensures Ordered(before, Sort(before, s)) && multiset(Sort(before, s)) == multiset(s)
  {
    SortKeepsElements(before, s);
    if s != [] {
      var front, last := s[..|s| - 1], s[|s| - 1];
      SortIsOrderedPermutation(before, front);
      SortKeepsElements(before, front);
      forall y | y in Sort(before, front) ensures before(y, last) || before(last, y) {
        var i :| 0 <= i < |front| && front[i] == y;
        assert before(s[i], s[|s| - 1]) || before(s[|s| - 1], s[i]);
      }
      InsertKeepsOrder(before, Sort(before, front), last);
    }
  }
}
