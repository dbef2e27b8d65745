/** Each slot in turn takes the first remaining item that fits it. */
module GreedyMatching {
  import opened Common

  /** Which item (by its place in the list) each slot holds, and which are left. */
  datatype Assignment = Assignment(holders: seq<Option<nat>>, rest: seq<nat>)

  /** The place in `items` of the first item that matches. */
  function FindIndex<S, I>(fits: (S, I) -> bool, s: S, items: seq<I>): (at: Option<nat>)
    ensures at.Some? ==> at.value < |items| && fits(s, items[at.value])
    ensures at.Some? ==> forall k :: 0 <= k < at.value ==> !fits(s, items[k])
    ensures at.None? ==> forall k :: 0 <= k < |items| ==> !fits(s, items[k])
  {
    if items == [] then None
    else
      var earlier := FindIndex(fits, s, items[..|items| - 1]);
      if earlier.Some? then earlier
      else if fits(s, items[|items| - 1]) then Some(|items| - 1)
      else None
  }

  function Pick<I>(master: seq<I>, ids: seq<nat>): seq<I>
    requires forall k :: 0 <= k < |ids| ==> ids[k] < |master|
  {
    seq(|ids|, k requires 0 <= k < |ids| => master[ids[k]])
  }

  function AllIds(n: nat): seq<nat> { seq(n, k => k) }

  /** One more slot, holding the left-over item at place `at` if any. */
  function Take(a: Assignment, at: Option<nat>): Assignment
    requires at.Some? ==> at.value < |a.rest|
  {
    if at.None? then a.(holders := a.holders + [None])
    else Assignment(a.holders + [Some(a.rest[at.value])], a.rest[..at.value] + a.rest[at.value + 1..])
  }

  function Greedy<S, I>(fits: (S, I) -> bool, slots: seq<S>, master: seq<I>): (a: Assignment)
    ensures |a.holders| == |slots|
    ensures forall k :: 0 <= k < |a.rest| ==> a.rest[k] < |master|
  {
    if slots == [] then Assignment([], AllIds(|master|))
    else
      var a := Greedy(fits, slots[..|slots| - 1], master);
      var at := FindIndex(fits, slots[|slots| - 1], Pick(master, a.rest));
      Take(a, at)
  }

  // ---------------------------------------------------------------- stability

  /** Slots hold different items that match them. */
  ghost predicate Feasible<S, I>(fits: (S, I) -> bool, slots: seq<S>, master: seq<I>, m: seq<Option<nat>>) {
    && |m| == |slots|
    && (forall p :: 0 <= p < |m| && m[p].Some? ==> m[p].value < |master| && fits(slots[p], master[m[p].value]))
    && (forall p, q :: 0 <= p < q < |m| && m[p].Some? ==> m[p] != m[q])
  }

  /** Slot `p` is empty or holds a later item, while the matching item `i` is unassigned or in a later slot. */
  ghost predicate Blocks<S, I>(fits: (S, I) -> bool, slots: seq<S>, master: seq<I>, m: seq<Option<nat>>, p: nat, i: nat)
    requires |m| == |slots| && p < |slots| && i < |master|
  {
    && fits(slots[p], master[i])
    && (m[p].Some? ==> i < m[p].value)
    && (forall q :: 0 <= q < |m| && m[q] == Some(i) ==> p < q)
  }

  ghost predicate Stable<S, I>(fits: (S, I) -> bool, slots: seq<S>, master: seq<I>, m: seq<Option<nat>>) {
    && Feasible(fits, slots, master, m)
    && forall p, i :: 0 <= p < |slots| && 0 <= i < |master| ==> !Blocks(fits, slots, master, m, p, i)
  }

  ghost predicate Increasing(s: seq<nat>) {
    forall k, l :: 0 <= k < l < |s| ==> s[k] < s[l]
  }

  /** Conservation: the left-over items are, in list order, exactly those no slot holds. */
  ghost predicate Conserved<I>(master: seq<I>, a: Assignment) {
    && Increasing(a.rest)
    && forall i :: 0 <= i < |master| ==> (i in a.rest <==> Some(i) !in a.holders)
  }

  lemma SpliceAt<I>(master: seq<I>, a: Assignment, k: nat)
    requires Conserved(master, a) && k < |a.rest| && forall j :: 0 <= j < |a.rest| ==> a.rest[j] < |master|
    ensures Conserved(master, Assignment(a.holders + [Some(a.rest[k])], a.rest[..k] + a.rest[k + 1..]))
  {
    var i, rest := a.rest[k], a.rest[..k] + a.rest[k + 1..];
    forall j | 0 <= j < |master| ensures j in rest <==> Some(j) !in a.holders + [Some(i)] {
      RemovedAt(a.rest, k, j);
      assert Some(j) in a.holders + [Some(i)] <==> Some(j) in a.holders || j == i;
    }
  }

  lemma RemovedAt(ids: seq<nat>, k: nat, j: nat)
    requires Increasing(ids) && k < |ids|
    ensures j in ids[..k] + ids[k + 1..] <==> j in ids && j != ids[k]
  {
    var rest := ids[..k] + ids[k + 1..];
    if j in ids && j != ids[k] {
      var l :| 0 <= l < |ids| && ids[l] == j;
      assert rest[if l < k then l else l - 1] == j;
    }
    if j in rest {
      var l :| 0 <= l < |rest| && rest[l] == j;
      assert ids[if l < k then l else l + 1] == j;
    }
  }

  /** Every item of the list lands in exactly one slot or is left over, and no slot and item block. */
  lemma {:induction false} GreedyIsStable<S, I>(fits: (S, I) -> bool, slots: seq<S>, master: seq<I>)
    ensures Stable(fits, slots, master, Greedy(fits, slots, master).holders)
    ensures Conserved(master, Greedy(fits, slots, master))
  {
    if slots == [] {
      forall i | 0 <= i < |master| ensures i in AllIds(|master|) {
        assert AllIds(|master|)[i] == i;
      }
    } else {
      var n := |slots| - 1;
      var front, a := slots[..n], Greedy(fits, slots[..n], master);
      GreedyIsStable(fits, front, master);
      var at := FindIndex(fits, slots[n], Pick(master, a.rest));
      LastSlotIsStable(fits, slots, master, a, at);
      LastSlotConserves(fits, slots, master);
    }
  }

  lemma LastSlotConserves<S, I>(fits: (S, I) -> bool, slots: seq<S>, master: seq<I>)
    requires slots != [] && Conserved(master, Greedy(fits, slots[..|slots| - 1], master))
    ensures Conserved(master, Greedy(fits, slots, master))
  {
    var a := Greedy(fits, slots[..|slots| - 1], master);
    var at := FindIndex(fits, slots[|slots| - 1], Pick(master, a.rest));
    if at.Some? {
      SpliceAt(master, a, at.value);
    } else {
      assert forall i :: Some(i) in a.holders + [None] <==> Some(i) in a.holders;
    }
  }

  lemma LastSlotIsStable<S, I>(fits: (S, I) -> bool, slots: seq<S>, master: seq<I>, a: Assignment, at: Option<nat>)
    requires slots != [] && forall k :: 0 <= k < |a.rest| ==> a.rest[k] < |master|
    requires Stable(fits, slots[..|slots| - 1], master, a.holders) && Conserved(master, a)
    requires at == FindIndex(fits, slots[|slots| - 1], Pick(master, a.rest))
    ensures Stable(fits, slots, master, a.holders + [if at.Some? then Some(a.rest[at.value]) else None])
  {
    var n := |slots| - 1;
    var last := if at.Some? then Some(a.rest[at.value]) else None;
    var m := a.holders + [last];
    if at.Some? {
      assert a.rest[at.value] in a.rest;
      assert Some(a.rest[at.value]) !in a.holders;
    }
    assert Feasible(fits, slots, master, m);
    forall p, i | 0 <= p < |slots| && 0 <= i < |master| ensures !Blocks(fits, slots, master, m, p, i) {
      if p < n {
        EarlierSlotsStayUnblocked(fits, slots, master, a.holders, last, p, i);
      } else if fits(slots[n], master[i]) {
        LastSlotHoldsFirst(fits, slots[n], master, a, at, i);
        if Some(i) in a.holders {
          var q :| 0 <= q < n && a.holders[q] == Some(i);
          assert m[q] == Some(i);
        }
      }
    }
  }

  lemma EarlierSlotsStayUnblocked<S, I>(
    fits: (S, I) -> bool, slots: seq<S>, master: seq<I>, holders: seq<Option<nat>>, last: Option<nat>, p: nat, i: nat)
    requires slots != [] && |holders| == |slots| - 1 && p < |holders| && i < |master|
    requires !Blocks(fits, slots[..|slots| - 1], master, holders, p, i)
    ensures !Blocks(fits, slots, master, holders + [last], p, i)
  {
    assert forall q :: 0 <= q < |holders| ==> (holders + [last])[q] == holders[q];
  }

  /** A fitting item is held by an earlier slot, or the new slot took it or an earlier one. */
  lemma LastSlotHoldsFirst<S, I>(fits: (S, I) -> bool, s: S, master: seq<I>, a: Assignment, at: Option<nat>, i: nat)
    requires Conserved(master, a) && forall k :: 0 <= k < |a.rest| ==> a.rest[k] < |master|
    requires at == FindIndex(fits, s, Pick(master, a.rest)) && i < |master| && fits(s, master[i])
    ensures Some(i) in a.holders || (at.Some? && a.rest[at.value] <= i)
  {
    if i in a.rest {
      var k :| 0 <= k < |a.rest| && a.rest[k] == i;
      assert Pick(master, a.rest)[k] == master[i];
    }
  }

  function HeldItems<I>(master: seq<I>, holders: seq<Option<nat>>): seq<I> {
    if holders == [] then []
    else
      var last := holders[|holders| - 1];
      HeldItems(master, holders[..|holders| - 1])
        + if last.Some? && last.value < |master| then [master[last.value]] else []
  }

  /** Nothing is lost or doubled: the held and the left-over items together are the list. */
  lemma {:induction false} GreedyKeepsItems<S, I>(fits: (S, I) -> bool, slots: seq<S>, master: seq<I>)
    ensures AllItems(master, Greedy(fits, slots, master)) == multiset(master)
  {
    if slots == [] {
      assert Pick(master, AllIds(|master|)) == master;
    } else {
      GreedyKeepsItems(fits, slots[..|slots| - 1], master);
      var a := Greedy(fits, slots[..|slots| - 1], master);
      TakeKeepsItems(master, a, FindIndex(fits, slots[|slots| - 1], Pick(master, a.rest)));
    }
  }

  ghost function AllItems<I>(master: seq<I>, a: Assignment): multiset<I>
    requires forall k :: 0 <= k < |a.rest| ==> a.rest[k] < |master|
  {
    multiset(HeldItems(master, a.holders)) + multiset(Pick(master, a.rest))
  }

  lemma TakeKeepsItems<I>(master: seq<I>, a: Assignment, at: Option<nat>)
    requires forall k :: 0 <= k < |a.rest| ==> a.rest[k] < |master|
    requires at.Some? ==> at.value < |a.rest|
    ensures AllItems(master, Take(a, at)) == AllItems(master, a)
  {
    var holder := if at.Some? then Some(a.rest[at.value]) else None;
    assert (a.holders + [holder])[..|a.holders|] == a.holders;
    if at.Some? {
      SplicedItems(master, a.rest, at.value);
    }
  }

  lemma SplicedItems<I>(master: seq<I>, ids: seq<nat>, k: nat)
    requires k < |ids| && forall j :: 0 <= j < |ids| ==> ids[j] < |master|
    ensures multiset(Pick(master, ids[..k] + ids[k + 1..])) + multiset{master[ids[k]]} == multiset(Pick(master, ids))
  {
    var p := Pick(master, ids);
    assert p == p[..k] + [p[k]] + p[k + 1..];
    assert Pick(master, ids[..k] + ids[k + 1..]) == p[..k] + p[k + 1..];
  }

  /** There is only one stable assignment: two implementations that leave no blocking pair agree. */
  lemma {:induction false} StableIsUnique<S, I>(
    fits: (S, I) -> bool, slots: seq<S>, master: seq<I>, m: seq<Option<nat>>, n: seq<Option<nat>>, p: nat)
    requires Stable(fits, slots, master, m) && Stable(fits, slots, master, n) && p <= |slots|
    ensures m[..p] == n[..p]
  {
    if p > 0 {
      StableIsUnique(fits, slots, master, m, n, p - 1);
      assert forall q :: 0 <= q < p - 1 ==> m[q] == m[..p - 1][q] && n[q] == n[..p - 1][q];
      if n[p - 1].Some? && n[p - 1] != m[p - 1] {
        assert !Blocks(fits, slots, master, m, p - 1, n[p - 1].value);
      }
      if m[p - 1].Some? && n[p - 1] != m[p - 1] {
        assert !Blocks(fits, slots, master, n, p - 1, m[p - 1].value);
      }
    }
  }

  lemma GreedyIsTheOnlyStable<S, I>(fits: (S, I) -> bool, slots: seq<S>, master: seq<I>, m: seq<Option<nat>>)
    ensures Stable(fits, slots, master, m) <==> m == Greedy(fits, slots, master).holders
  {
    GreedyIsStable(fits, slots, master);
    if Stable(fits, slots, master, m) {
      StableIsUnique(fits, slots, master, m, Greedy(fits, slots, master).holders, |slots|);
      assert m[..|slots|] == m && Greedy(fits, slots, master).holders[..|slots|] == Greedy(fits, slots, master).holders;
    }
  }
}
