/** Small value types and sequence helpers shared by the models. */
module Common {

  datatype Option<+T> = None | Some(value: T) {
    function GetOr(default: T): T {
      if Some? then value else default
    }
  }

  datatype Result<+T, +E> = Success(value: T) | Failure(error: E)

  /** Elements satisfying `p`, in order (a query's WHERE clause, an array's filter). */
  function Filter<T(!new)>(p: T -> bool, s: seq<T>): (r: seq<T>)
    ensures forall x :: x in r <==> x in s && p(x)
  {
    if s == [] then []
    else
      var rest := Filter(p, s[..|s| - 1]);
      var last := s[|s| - 1];
      assert s == s[..|s| - 1] + [last];
      if p(last) then rest + [last] else rest
  }

  /** A relation between earlier and later elements survives filtering. */
  lemma {:induction false} FilterPairwise<T(!new)>(p: T -> bool, s: seq<T>, rel: (T, T) -> bool)
    requires forall i, j :: 0 <= i < j < |s| ==> rel(s[i], s[j])
    ensures forall i, j :: 0 <= i < j < |Filter(p, s)| ==> rel(Filter(p, s)[i], Filter(p, s)[j])
  {
    if s != [] {
      var front, last := s[..|s| - 1], s[|s| - 1];
      FilterPairwise(p, front, rel);
      forall x | x in Filter(p, front) ensures rel(x, last) {
        var i :| 0 <= i < |front| && front[i] == x;
      }
    }
  }

  lemma {:induction false} FilterNothing<T(!new)>(p: T -> bool, s: seq<T>)
    requires forall k :: 0 <= k < |s| ==> !p(s[k])
    ensures Filter(p, s) == []
  {
    if s != [] {
      FilterNothing(p, s[..|s| - 1]);
    }
  }

  lemma {:induction false} FilterEverything<T(!new)>(p: T -> bool, s: seq<T>)
    requires forall k :: 0 <= k < |s| ==> p(s[k])
    ensures Filter(p, s) == s
  {
    if s != [] {
      FilterEverything(p, s[..|s| - 1]);
      assert s == s[..|s| - 1] + [s[|s| - 1]];
    }
  }

  lemma {:induction false} FilterAppend<T(!new)>(p: T -> bool, a: seq<T>, b: seq<T>)
    ensures Filter(p, a + b) == Filter(p, a) + Filter(p, b)
  {
    if b == [] {
      assert a + b == a;
    } else {
      assert (a + b)[..|a + b| - 1] == a + b[..|b| - 1];
      FilterAppend(p, a, b[..|b| - 1]);
    }
  }

  /** A condition that holds of a prefix and of nothing after it selects the prefix. */
  lemma FilterIsPrefix<T(!new)>(p: T -> bool, s: seq<T>, m: nat)
    requires m <= |s| && forall k :: 0 <= k < |s| ==> (p(s[k]) <==> k < m)
    ensures Filter(p, s) == s[..m]
  {
    var a, b := s[..m], s[m..];
    assert forall k :: 0 <= k < |a| ==> a[k] == s[k];
    assert forall k :: 0 <= k < |b| ==> b[k] == s[m + k];
    FilterEverything(p, a);
    FilterNothing(p, b);
    calc {
      Filter(p, s);
      { assert s == a + b; }
      Filter(p, a + b);
      { FilterAppend(p, a, b); }
      Filter(p, a) + Filter(p, b);
    }
  }

  /** Images of the elements, in order. */
  function Map<T, U>(f: T -> U, s: seq<T>): (r: seq<U>)
    ensures |r| == |s|
    ensures forall i :: 0 <= i < |s| ==> r[i] == f(s[i])
  {
    seq(|s|, i requires 0 <= i < |s| => f(s[i]))
  }

  /** Concatenated images of the elements, in order. */
  function FlatMap<T, U>(f: T -> seq<U>, s: seq<T>): seq<U> {
    if s == [] then [] else FlatMap(f, s[..|s| - 1]) + f(s[|s| - 1])
  }

  /** `w` lists, in increasing order, exactly the numbers below `n` that satisfy `wins`. */
  ghost predicate Enumerates(w: seq<nat>, n: nat, wins: nat -> bool) {
    && (forall k, l :: 0 <= k < l < |w| ==> w[k] < w[l])
    && (forall k :: 0 <= k < |w| ==> w[k] < n && wins(w[k]))
    && (forall i {:trigger i in w} :: 0 <= i < n && wins(i) ==> i in w)
  }

  lemma EnumeratesNext(w: seq<nat>, n: nat, wins: nat -> bool)
    requires Enumerates(w, n, wins)
    ensures Enumerates(if wins(n) then w + [n] else w, n + 1, wins)
  {
    var v := if wins(n) then w + [n] else w;
    forall i: nat | i <= n && wins(i) ensures i in v {
      assert i in w || i == n;
    }
  }

  ghost predicate Distinct<T>(s: seq<T>) {
    forall i, j :: 0 <= i < j < |s| ==> s[i] != s[j]
  }

  lemma {:induction false} FilterImages<T(!new), U>(p: T -> bool, f: T -> U, s: seq<T>, y: U)
    ensures y in Map(f, Filter(p, s)) <==> exists k :: 0 <= k < |s| && p(s[k]) && f(s[k]) == y
  {
    if s != [] {
      var front, last := s[..|s| - 1], s[|s| - 1];
      FilterImages(p, f, front, y);
      assert forall k :: 0 <= k < |front| ==> front[k] == s[k];
      assert Map(f, Filter(p, s)) == Map(f, Filter(p, front)) + if p(last) then [f(last)] else [];
    }
  }

  /** The images of the selected elements differ exactly if no two selected elements share theirs. */
  lemma {:induction false} FilterDistinctImages<T(!new), U>(p: T -> bool, f: T -> U, s: seq<T>)
    ensures Distinct(Map(f, Filter(p, s)))
      <==> forall j, k :: 0 <= j < k < |s| ==> !(p(s[j]) && p(s[k]) && f(s[j]) == f(s[k]))
  {
    if s != [] {
      var front, last := s[..|s| - 1], s[|s| - 1];
      FilterDistinctImages(p, f, front);
      FilterImages(p, f, front, f(last));
      assert forall k :: 0 <= k < |front| ==> front[k] == s[k];
      assert Map(f, Filter(p, s)) == Map(f, Filter(p, front)) + if p(last) then [f(last)] else [];
      DistinctAppend(Map(f, Filter(p, front)), f(last));
    }
  }

  lemma DistinctAppend<T>(s: seq<T>, x: T)
    ensures Distinct(s + [x]) <==> Distinct(s) && x !in s
  {
    assert forall k :: 0 <= k < |s| ==> (s + [x])[k] == s[k];
    assert (s + [x])[|s|] == x;
  }

  ghost function Elements<T>(s: seq<T>): set<T> {
    set x | x in s
  }

  lemma {:induction false} DistinctCardinality<T>(s: seq<T>)
    requires Distinct(s)
    ensures |Elements(s)| == |s|
  {
    if s != [] {
      var front, last := s[..|s| - 1], s[|s| - 1];
      DistinctCardinality(front);
      assert Elements(s) == Elements(front) + {last};
    }
  }
}
