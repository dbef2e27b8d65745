/** Which item names fit a cell of the paper form, and what becomes of items that no cell takes
    (paper-checklist-renderer.tsx). */
module ChecklistNames {
  import opened Common
  import Text
  import opened GreedyMatching
  import opened PaperChecklist

  // ---------------------------------------------------------------- runs of other characters

  lemma {:induction false} CollapseAfter(a: string, b: string)
    requires b != "" && Text.IsAlphanumeric(b[0])
    ensures Text.CollapseRuns(a + b) == Text.CollapseRuns(a) + Text.CollapseRuns(b)
  {
    var front, c := b[..|b| - 1], b[|b| - 1];
    assert (a + b)[..|a + b| - 1] == a + front;
    if front == "" {
      assert a + front == a;
      assert Text.CollapseRuns(front) == "";
    } else {
      CollapseAfter(a, front);
    }
  }

  lemma {:induction false} CollapseGrows(a: string, b: string)
    ensures Text.CollapseRuns(a) <= Text.CollapseRuns(a + b)
  {
    if b == "" {
      assert a + b == a;
    } else {
      CollapseGrows(a, b[..|b| - 1]);
      assert (a + b)[..|a + b| - 1] == a + b[..|b| - 1];
    }
  }

  /** The text starts and ends with a letter or digit. */
  predicate Whole(s: string) { s != "" && Text.IsAlphanumeric(s[0]) && Text.IsAlphanumeric(s[|s| - 1]) }

  lemma {:induction false} CollapsedIsWhole(s: string)
    requires s != "" && Text.IsAlphanumeric(s[0])
    ensures Text.CollapseRuns(s) != "" && Text.CollapseRuns(s)[0] == s[0]
    ensures Text.IsAlphanumeric(s[|s| - 1]) ==> Whole(Text.CollapseRuns(s))
  {
    if |s| > 1 {
      CollapsedIsWhole(s[..|s| - 1]);
    }
  }

  lemma CollapseHolds(a: string, b: string, c: string)
    requires Whole(b)
    ensures Text.Includes(Text.CollapseRuns(a + b + c), Text.CollapseRuns(b))
  {
    assert a + b + c == a + (b + c);
    CollapseAfter(a, b + c);
    CollapseGrows(b, c);
    var all, i := Text.CollapseRuns(a + b + c), |Text.CollapseRuns(a)|;
    assert all[i..] == Text.CollapseRuns(b + c);
    assert Text.OccursAt(all, Text.CollapseRuns(b), i);
  }

  // ---------------------------------------------------------------- blanks around

  lemma AlphanumericIsNoSpace(c: char)
    requires Text.IsAlphanumeric(c)
    ensures !Text.IsSpace(c)
  {}

  lemma {:induction false} TrimStartHolds(s: string, part: string)
    requires Whole(part) && Text.Includes(s, part)
    ensures Text.Includes(Text.TrimStart(s), part)
  {
    var i :| 0 <= i <= |s| - |part| && Text.OccursAt(s, part, i);
    if s != "" && Text.IsSpace(s[0]) {
      AlphanumericIsNoSpace(part[0]);
      assert s[i..][0] == part[0];
      assert s[1..][i - 1..] == s[i..];
      assert Text.OccursAt(s[1..], part, i - 1);
      TrimStartHolds(s[1..], part);
    }
  }

  lemma {:induction false} TrimEndHolds(s: string, part: string)
    requires Whole(part) && Text.Includes(s, part)
    ensures Text.Includes(Text.TrimEnd(s), part)
  {
    var i :| 0 <= i <= |s| - |part| && Text.OccursAt(s, part, i);
    if s != "" && Text.IsSpace(s[|s| - 1]) {
      AlphanumericIsNoSpace(part[|part| - 1]);
      assert s[i..][|part| - 1] == part[|part| - 1] == s[i + |part| - 1];
      assert s[..|s| - 1][i..] == s[i..|s| - 1];
      assert Text.OccursAt(s[..|s| - 1], part, i);
      TrimEndHolds(s[..|s| - 1], part);
    }
  }

  lemma WholeIsTrimmed(s: string)
    requires Whole(s)
    ensures Text.Trim(s) == s
  {
    AlphanumericIsNoSpace(s[0]);
    AlphanumericIsNoSpace(s[|s| - 1]);
  }

  // ---------------------------------------------------------------- names that fit

  lemma {:induction false} LowerAppend(a: string, b: string)
    ensures Text.ToLower(a + b) == Text.ToLower(a) + Text.ToLower(b)
  {
    if b == "" {
      assert a + b == a;
    } else {
      assert (a + b)[..|a + b| - 1] == a + b[..|b| - 1];
      LowerAppend(a, b[..|b| - 1]);
    }
  }

  predicate Letters(s: string) { s != "" && 'a' <= s[0] <= 'z' && 'a' <= s[|s| - 1] <= 'z' }

  lemma LowerIsWhole(s: string)
    requires Letters(s)
    ensures Whole(Text.ToLower(s))
  {
    LowerAppend([s[0]], s[1..]);
    LowerOfOne(s[0]);
    assert s == [s[0]] + s[1..];
    assert Text.ToLower(s) == Text.ToLower(s[..|s| - 1]) + [s[|s| - 1]];
  }

  lemma LowerOfOne(c: char)
    requires 'a' <= c <= 'z'
    ensures Text.ToLower([c]) == [c]
  {
    assert [c][..0] == [] && Text.ToLower([c][..0]) == "";
  }

  lemma WordsOfFirstSlots(s: Slot)
    requires Position(s) < 13
    ensures forall k :: 0 <= k < |Aliases(s)| ==> Letters(Aliases(s)[k])
  {}

  lemma WordsOfMiddleSlots(s: Slot)
    requires 13 <= Position(s) < 22
    ensures forall k :: 0 <= k < |Aliases(s)| ==> Letters(Aliases(s)[k])
  {}

  lemma WordsOfLastSlots(s: Slot)
    requires 22 <= Position(s)
    ensures forall k :: 0 <= k < |Aliases(s)| ==> Letters(Aliases(s)[k])
  {}

  lemma WordsAreWhole(s: Slot, k: nat)
    requires k < |Aliases(s)|
    ensures Whole(Text.ToLower(Aliases(s)[k]))
  {
    if Position(s) < 13 {
      WordsOfFirstSlots(s);
    } else if Position(s) < 22 {
      WordsOfMiddleSlots(s);
    } else {
      WordsOfLastSlots(s);
    }
    LowerIsWhole(Aliases(s)[k]);
  }

  /** An item fits a cell if its name contains one of the cell's words, in upper or lower case, whatever stands before
      and after it. */
  lemma NameWithWordFits(s: Slot, k: nat, item: MasterItem, before: string, word: string, after: string)
    requires k < |Aliases(s)|
    requires Text.ToLower(word) == Text.ToLower(Aliases(s)[k]) && item.itemName == before + word + after
    ensures Matches(s, item)
  {
    WordsAreWhole(s, k);
    LowerAppend(before, word);
    LowerAppend(before + word, after);
    var w := Text.ToLower(Aliases(s)[k]);
    CollapseHolds(Text.ToLower(before), w, Text.ToLower(after));
    CollapsedIsWhole(w);
    var name, part := Text.CollapseRuns(Text.ToLower(item.itemName)), Text.CollapseRuns(w);
    TrimStartHolds(name, part);
    TrimEndHolds(Text.TrimStart(name), part);
    WholeIsTrimmed(part);
  }

  /** An item that fits a cell holds every character of one of the cell's words. */
  lemma FittingNameHoldsWord(s: Slot, item: MasterItem) returns (k: nat)
    requires Matches(s, item)
    ensures k < |Aliases(s)| && |Normalize(Aliases(s)[k])| <= |Normalize(item.itemName)|
    ensures forall c :: c in Normalize(Aliases(s)[k]) ==> c in Normalize(item.itemName)
  {
    k :| 0 <= k < |Aliases(s)| && Text.Includes(Normalize(item.itemName), Normalize(Aliases(s)[k]));
    var name, part := Normalize(item.itemName), Normalize(Aliases(s)[k]);
    var i :| 0 <= i <= |name| - |part| && Text.OccursAt(name, part, i);
    forall c | c in part ensures c in name {
      var j :| 0 <= j < |part| && part[j] == c;
      assert name[i..][j] == c;
    }
  }

  // ---------------------------------------------------------------- items that no cell takes

  /** After the 32 cells the form lists the left-over items in order, each configured under its own code and required
      as the master list says. */
  lemma FormEndsWithLeftovers(master: seq<MasterItem>, k: nat)
    requires k < |Greedy(MatchesFunction(), Slots(GROUP_ORDER), master).rest|
    ensures var items, rest := PaperItems(master), Greedy(MatchesFunction(), Slots(GROUP_ORDER), master).rest;
      && |items| == 32 + |rest|
      && items[32 + k] == PaperItem(ExtraKey(master[rest[k]].itemCode), true, master[rest[k]].required, Some(master[rest[k]].itemCode))
  {
    SlotsAreDistinct();
    LeftoverAt(SlotItems(MatchesFunction(), Slots(GROUP_ORDER), master),
      Pick(master, Greedy(MatchesFunction(), Slots(GROUP_ORDER), master).rest), k);
  }

  lemma LeftoverAt(cells: seq<PaperItem>, rest: seq<MasterItem>, k: nat)
    requires k < |rest|
    ensures (cells + Map(ExtraItem, rest))[|cells| + k] == PaperItem(ExtraKey(rest[k].itemCode), true, rest[k].required, Some(rest[k].itemCode))
  {}

  /** A cell of the form is configured exactly if it holds an item, and then required as that item is. */
  lemma CellTellsItem(master: seq<MasterItem>, s: Slot)
    ensures var item, held := ByUiKey(PaperItems(master), SlotKey(s)), HolderOf(master, s);
      && item.Some? && item.value.uiKey == SlotKey(s)
      && (held.Some? && held.value < |master| ==>
            && item.value.configured && item.value.required == master[held.value].required && Matches(s, master[held.value])
            && item.value.apiItemCode == (if master[held.value].itemCode == "" then None else Some(master[held.value].itemCode)))
      && (held.None? ==> !item.value.configured && !item.value.required && item.value.apiItemCode.None?)
  {
    ItemOfSlot(master, s);
    SlotsAreDistinct();
    GreedyIsStable(MatchesFunction(), Slots(GROUP_ORDER), master);
  }
}
