/** Greedy assignment of checklist items to the cells of the paper form. The same code is
    in paper-checklist-renderer.tsx and, a second time, in driver-daily-check.tsx. */
module PaperChecklist {
  import opened Common
  import Text
  import opened GreedyMatching

  datatype Group = Mechanical | Fluids | Safety | Operational | Documentation

  /** The template items; each belongs to one group. */
  datatype Slot =
    | Body | Steering | Mirrors | Wipers | Indicators | Tyres | Load | Reverse
    | Battery | Oil | Water | Fuel | Fuse
    | FirstAid | Extinguisher | Seatbelt | Horn | Brakes
    | Speed | Measure | TyrePressure | HighFlag | PlateVisible | Radio | Controls
    | Registration | Toolbox | Tools | Jack | Ras | Lock | Aircon

  const GROUP_ORDER: seq<Group> := [Mechanical, Fluids, Safety, Operational, Documentation]

  function Template(g: Group): seq<Slot> {
    match g
    case Mechanical => [Body, Steering, Mirrors, Wipers, Indicators, Tyres, Load, Reverse]
    case Fluids => [Battery, Oil, Water, Fuel, Fuse]
    case Safety => [FirstAid, Extinguisher, Seatbelt, Horn, Brakes]
    case Operational => [Speed, Measure, TyrePressure, HighFlag, PlateVisible, Radio, Controls]
    case Documentation => [Registration, Toolbox, Tools, Jack, Ras, Lock, Aircon]
  }

  function Aliases(s: Slot): seq<string> {
    match s
    case Body => ["body"] case Steering => ["steering"] case Mirrors => ["mirror"]
    case Wipers => ["wiper", "windscreen", "windshield"] case Indicators => ["indicator", "light"]
    case Tyres => ["tyre", "tire", "wheel"] case Load => ["load", "restrain"] case Reverse => ["reverse", "alarm"]
    case Battery => ["battery"] case Oil => ["oil"] case Water => ["water", "coolant"] case Fuel => ["fuel"]
    case Fuse => ["fuse box", "fuse", "electrical box"]
    case FirstAid => ["first aid", "aid"] case Extinguisher => ["extinguisher"]
    case Seatbelt => ["seat belt", "seatbelt"] case Horn => ["horn"] case Brakes => ["brake"]
    case Speed => ["speed limit", "speed"] case Measure => ["measure"]
    case TyrePressure => ["tyre pressure", "tire pressure"] case HighFlag => ["high flag", "flag visibility"]
    case PlateVisible => ["plate visibility", "plate number", "vehicle plate"]
    case Radio => ["radio", "tape recorder"] case Controls => ["control"]
    case Registration => ["registration", "registration paper"] case Toolbox => ["toolbox"] case Tools => ["tool"]
    case Jack => ["jack", "spanner"] case Ras => ["ras"] case Lock => ["lock", "fitting"]
    case Aircon => ["air conditioner", "a/c", "ac"]
  }

  const ROW_LAYOUT: seq<seq<Slot>> := [
    [Body, Battery, FirstAid],
    [Steering, Oil, Extinguisher],
    [Wipers, Water, Tools],
    [Indicators, Horn, Jack],
    [Tyres, Fuel, Brakes],
    [Mirrors, Seatbelt, Radio],
    [Load, Registration, Ras],
    [Reverse, Speed, Aircon],
    [Lock, Measure, TyrePressure, HighFlag, PlateVisible]]

  datatype MasterItem = MasterItem(itemCode: string, itemName: string, required: bool)

  function Normalize(value: string): string { Text.Trim(Text.CollapseRuns(Text.ToLower(value))) }

  predicate Matches(s: Slot, item: MasterItem) {
    exists k :: 0 <= k < |Aliases(s)| && Text.Includes(Normalize(item.itemName), Normalize(Aliases(s)[k]))
  }

  // ---------------------------------------------------------------- the checklist model

  /** Cell keys; `UiText` is how the pages write them. */
  datatype UiKey = SlotKey(slot: Slot) | ExtraKey(itemCode: string)

  datatype PaperItem = PaperItem(uiKey: UiKey, configured: bool, required: bool, apiItemCode: Option<string>)

  function Slots(groups: seq<Group>): seq<Slot> { FlatMap(Template, groups) }

  function MatchesFunction(): (Slot, MasterItem) -> bool { (s, item) => Matches(s, item) }

  function SlotItem(s: Slot, matched: Option<MasterItem>): PaperItem {
    PaperItem(SlotKey(s), matched.Some?, matched.Some? && matched.value.required,
      if matched.Some? && matched.value.itemCode != "" then Some(matched.value.itemCode) else None)
  }

  function ExtraItem(item: MasterItem): PaperItem {
    PaperItem(ExtraKey(item.itemCode), true, item.required, Some(item.itemCode))
  }

  function Held(master: seq<MasterItem>, holder: Option<nat>): Option<MasterItem> {
    if holder.Some? && holder.value < |master| then Some(master[holder.value]) else None
  }

  function SlotItems(fits: (Slot, MasterItem) -> bool, slots: seq<Slot>, master: seq<MasterItem>): seq<PaperItem> {
    ItemsOf(slots, master, Greedy(fits, slots, master).holders)
  }

  function ItemsFor(fits: (Slot, MasterItem) -> bool, master: seq<MasterItem>): seq<PaperItem> {
    var slots := Slots(GROUP_ORDER);
    SlotItems(fits, slots, master) + Map(ExtraItem, Pick(master, Greedy(fits, slots, master).rest))
  }

  /** Every item of the form: the slots in template order, then the extras. */
  function PaperItems(master: seq<MasterItem>): seq<PaperItem> { ItemsFor(MatchesFunction(), master) }

  /** The nested loops of buildPaperChecklistModel: findIndex, splice, push. */
  method BuildPaperItems(master: seq<MasterItem>) returns (items: seq<PaperItem>)
    ensures items == PaperItems(master)
  {
    items := BuildItems(MatchesFunction(), master);
  }

  method BuildItems(fits: (Slot, MasterItem) -> bool, master: seq<MasterItem>) returns (items: seq<PaperItem>)
    ensures items == ItemsFor(fits, master)
  {
    var remaining := master;
    items := [];
    assert Pick(master, AllIds(|master|)) == master;
    for g := 0 to |GROUP_ORDER|
      invariant remaining == Pick(master, Greedy(fits, Slots(GROUP_ORDER[..g]), master).rest)
      invariant items == SlotItems(fits, Slots(GROUP_ORDER[..g]), master)
    {
      var more;
      more, remaining := FillGroup(fits, Template(GROUP_ORDER[g]), Slots(GROUP_ORDER[..g]), remaining, master);
      items := items + more;
      FlatMapStep(Template, GROUP_ORDER, g);
    }
    assert GROUP_ORDER[..|GROUP_ORDER|] == GROUP_ORDER;
    var extras := Map(ExtraItem, remaining);
    items := items + extras;
  }

  /** The template items of one group, after the slots `done`. */
  method FillGroup(
    fits: (Slot, MasterItem) -> bool, template: seq<Slot>, ghost done: seq<Slot>, left: seq<MasterItem>,
    ghost master: seq<MasterItem>)
    returns (items: seq<PaperItem>, remaining: seq<MasterItem>)
    requires left == Pick(master, Greedy(fits, done, master).rest)
    ensures remaining == Pick(master, Greedy(fits, done + template, master).rest)
    ensures SlotItems(fits, done, master) + items == SlotItems(fits, done + template, master)
  {
    items, remaining := [], left;
    AppendNext(done, template, 0);
    for n := 0 to |template|
      invariant remaining == Pick(master, Greedy(fits, done + template[..n], master).rest)
      invariant SlotItems(fits, done, master) + items == SlotItems(fits, done + template[..n], master)
    {
      var item;
      item, remaining := FillSlot(fits, template[n], done + template[..n], remaining, master);
      AppendNext(done, template, n);
      AppendOne(SlotItems(fits, done, master), items, item);
      items := items + [item];
    }
    AppendNext(done, template, |template|);
  }

  method FillSlot(
    fits: (Slot, MasterItem) -> bool, s: Slot, ghost done: seq<Slot>, left: seq<MasterItem>, ghost master: seq<MasterItem>)
    returns (item: PaperItem, remaining: seq<MasterItem>)
    requires left == Pick(master, Greedy(fits, done, master).rest)
    ensures remaining == Pick(master, Greedy(fits, done + [s], master).rest)
    ensures SlotItems(fits, done + [s], master) == SlotItems(fits, done, master) + [item]
  {
    var matchedIndex := FindIndex(fits, s, left);
    NextSlot(fits, done, s, master);
    if matchedIndex.Some? {
      item := SlotItem(s, Some(left[matchedIndex.value]));
      remaining := left[..matchedIndex.value] + left[matchedIndex.value + 1..];
    } else {
      item := SlotItem(s, None);
      remaining := left;
    }
  }

  lemma AppendNext<T>(done: seq<T>, more: seq<T>, n: nat)
    requires n <= |more|
    ensures n < |more| ==> done + more[..n] + [more[n]] == done + more[..n + 1]
    ensures more[..0] == [] && done + more[..0] == done && more[..|more|] == more
  {}

  lemma AppendOne<T>(a: seq<T>, b: seq<T>, x: T)
    ensures a + (b + [x]) == a + b + [x]
  {}

  /** One more slot takes the first remaining item that fits, if any. */
  lemma NextSlot(fits: (Slot, MasterItem) -> bool, done: seq<Slot>, s: Slot, master: seq<MasterItem>)
    ensures var left := Pick(master, Greedy(fits, done, master).rest);
      var at := FindIndex(fits, s, left);
      && SlotItems(fits, done + [s], master)
         == SlotItems(fits, done, master) + [SlotItem(s, if at.Some? then Some(left[at.value]) else None)]
      && Pick(master, Greedy(fits, done + [s], master).rest)
         == if at.Some? then left[..at.value] + left[at.value + 1..] else left
  {
    var a, b := Greedy(fits, done, master), Greedy(fits, done + [s], master);
    var at := FindIndex(fits, s, Pick(master, a.rest));
    GreedyStep(fits, done, s, master);
    if at.Some? {
      PickSplice(master, a.rest, at.value);
    }
    ItemsStep(done, s, master, a.holders, if at.Some? then Some(a.rest[at.value]) else None);
  }

  lemma GreedyStep(fits: (Slot, MasterItem) -> bool, done: seq<Slot>, s: Slot, master: seq<MasterItem>)
    ensures var a := Greedy(fits, done, master);
      var at := FindIndex(fits, s, Pick(master, a.rest));
      Greedy(fits, done + [s], master) == if at.None? then a.(holders := a.holders + [None])
        else Assignment(a.holders + [Some(a.rest[at.value])], a.rest[..at.value] + a.rest[at.value + 1..])
  {
    assert (done + [s])[..|done + [s]| - 1] == done;
  }

  lemma PickSplice(master: seq<MasterItem>, ids: seq<nat>, k: nat)
    requires k < |ids| && forall j :: 0 <= j < |ids| ==> ids[j] < |master|
    ensures Pick(master, ids[..k] + ids[k + 1..]) == Pick(master, ids)[..k] + Pick(master, ids)[k + 1..]
  {}

  function ItemsOf(slots: seq<Slot>, master: seq<MasterItem>, holders: seq<Option<nat>>): seq<PaperItem>
    requires |holders| == |slots|
  {
    seq(|slots|, k requires 0 <= k < |slots| => SlotItem(slots[k], Held(master, holders[k])))
  }

  lemma ItemsStep(done: seq<Slot>, s: Slot, master: seq<MasterItem>, holders: seq<Option<nat>>, holder: Option<nat>)
    requires |holders| == |done|
    ensures ItemsOf(done + [s], master, holders + [holder])
      == ItemsOf(done, master, holders) + [SlotItem(s, Held(master, holder))]
  {}

  // ---------------------------------------------------------------- rows and visible cells

  /** A cell the driver can answer and the office can see. */
  datatype Cell = Cell(uiKey: UiKey, itemCode: string, required: bool)

  function RowCells(row: seq<Slot>): seq<Slot> { row }

  function Layout(): seq<Slot> { FlatMap(RowCells, ROW_LAYOUT) }

  /** Later entries replace earlier ones, as in a map filled in order. */
  function ByUiKey(items: seq<PaperItem>, key: UiKey): Option<PaperItem> {
    if items == [] then None
    else if items[|items| - 1].uiKey == key then Some(items[|items| - 1])
    else ByUiKey(items[..|items| - 1], key)
  }

  function CellOf(items: seq<PaperItem>, s: Slot): seq<Cell> {
    var found := ByUiKey(items, SlotKey(s));
    if found.Some? && found.value.configured && found.value.apiItemCode.Some?
    then [Cell(SlotKey(s), found.value.apiItemCode.value, found.value.required)] else []
  }

  function CellLoop(items: seq<PaperItem>): Slot -> seq<Cell> { s => CellOf(items, s) }

  /** The configured items of the visible cells, in layout order. */
  function ConfiguredCells(master: seq<MasterItem>): seq<Cell> {
    FlatMap(CellLoop(PaperItems(master)), Layout())
  }

  function Position(s: Slot): nat {
    match s
    case Body => 0 case Steering => 1 case Mirrors => 2 case Wipers => 3 case Indicators => 4 case Tyres => 5
    case Load => 6 case Reverse => 7 case Battery => 8 case Oil => 9 case Water => 10 case Fuel => 11 case Fuse => 12
    case FirstAid => 13 case Extinguisher => 14 case Seatbelt => 15 case Horn => 16 case Brakes => 17
    case Speed => 18 case Measure => 19 case TyrePressure => 20 case HighFlag => 21 case PlateVisible => 22
    case Radio => 23 case Controls => 24 case Registration => 25 case Toolbox => 26 case Tools => 27
    case Jack => 28 case Ras => 29 case Lock => 30 case Aircon => 31
  }

  lemma FlatMapStep<T, U>(f: T -> seq<U>, s: seq<T>, n: nat)
    requires n < |s|
    ensures FlatMap(f, s[..n + 1]) == FlatMap(f, s[..n]) + f(s[n])
    ensures s[..|s|] == s && FlatMap(f, s[..0]) == []
  {
    assert s[..n + 1][..n] == s[..n];
  }

  lemma FlatMapFive<T, U>(f: T -> seq<U>, s: seq<T>)
    requires |s| == 5
    ensures FlatMap(f, s) == f(s[0]) + f(s[1]) + f(s[2]) + f(s[3]) + f(s[4])
  {
    FlatMapStep(f, s, 0);
    FlatMapStep(f, s, 1);
    FlatMapStep(f, s, 2);
    FlatMapStep(f, s, 3);
    FlatMapStep(f, s, 4);
  }

  ghost predicate GroupIsAt(g: Group, start: nat, size: nat) {
    |Template(g)| == size && forall k :: 0 <= k < size ==> Position(Template(g)[k]) == start + k
  }

  lemma FirstGroups()
    ensures GroupIsAt(Mechanical, 0, 8) && GroupIsAt(Fluids, 8, 5)
  {}

  lemma ThirdGroup()
    ensures GroupIsAt(Safety, 13, 5)
  {}

  lemma FourthGroup()
    ensures GroupIsAt(Operational, 18, 7)
  {}

  lemma LastGroup()
    ensures GroupIsAt(Documentation, 25, 7)
  {}

  /** The template lists each slot once. */
  lemma TemplateOrder()
    ensures |Slots(GROUP_ORDER)| == 32 && forall k :: 0 <= k < 32 ==> Position(Slots(GROUP_ORDER)[k]) == k
  {
    FirstGroups();
    ThirdGroup();
    FourthGroup();
    LastGroup();
    FlatMapFive(Template, GROUP_ORDER);
    var a, b, c, d, e := Template(Mechanical), Template(Fluids), Template(Safety), Template(Operational), Template(Documentation);
    assert Slots(GROUP_ORDER) == a + b + c + d + e;
    forall k | 0 <= k < 32 ensures Position(Slots(GROUP_ORDER)[k]) == k {
      assert Slots(GROUP_ORDER)[k] == if k < 8 then a[k] else if k < 13 then b[k - 8] else if k < 18 then c[k - 13]
        else if k < 25 then d[k - 18] else e[k - 25];
    }
  }

  lemma SlotsAreDistinct()
    ensures Distinct(Slots(GROUP_ORDER))
    ensures |Slots(GROUP_ORDER)| == 32
    ensures forall s :: Position(s) < 32 && Slots(GROUP_ORDER)[Position(s)] == s
  {
    TemplateOrder();
    forall s ensures Position(s) < 32 && Slots(GROUP_ORDER)[Position(s)] == s {
      PositionInjective(s, Slots(GROUP_ORDER)[Position(s)]);
    }
  }

  lemma PositionInjective(s: Slot, t: Slot)
    ensures Position(s) == Position(t) ==> s == t
    ensures Position(s) < 32
  {}

  /** Row and column of a slot in the layout; the last three are in no row. */
  function Row(s: Slot): nat {
    match s
    case Body => 0 case Battery => 0 case FirstAid => 0 case Steering => 1 case Oil => 1 case Extinguisher => 1
    case Wipers => 2 case Water => 2 case Tools => 2 case Indicators => 3 case Horn => 3 case Jack => 3
    case Tyres => 4 case Fuel => 4 case Brakes => 4 case Mirrors => 5 case Seatbelt => 5 case Radio => 5
    case Load => 6 case Registration => 6 case Ras => 6 case Reverse => 7 case Speed => 7 case Aircon => 7
    case Lock => 8 case Measure => 8 case TyrePressure => 8 case HighFlag => 8 case PlateVisible => 8
    case Fuse => 9 case Toolbox => 9 case Controls => 9
  }

  /** The rows repeat no slot and hold every slot but the fuse box, the toolbox and the controls. */
  lemma RowsAre(r: nat)
    requires r < |ROW_LAYOUT|
    ensures Distinct(ROW_LAYOUT[r]) && forall s :: s in ROW_LAYOUT[r] <==> Row(s) == r
  {
    if r < 3 {
      FirstRows(r);
    } else if r < 6 {
      MiddleRows(r);
    } else if r < 8 {
      LastRows(r);
    } else {
      LongRow();
    }
  }

  lemma FirstRows(r: nat)
    requires r < 3
    ensures Distinct(ROW_LAYOUT[r]) && forall s :: s in ROW_LAYOUT[r] <==> Row(s) == r
  {}

  lemma MiddleRows(r: nat)
    requires 3 <= r < 6
    ensures Distinct(ROW_LAYOUT[r]) && forall s :: s in ROW_LAYOUT[r] <==> Row(s) == r
  {}

  lemma LastRows(r: nat)
    requires 6 <= r < 8
    ensures Distinct(ROW_LAYOUT[r]) && forall s :: s in ROW_LAYOUT[r] <==> Row(s) == r
  {}

  lemma LongRow()
    ensures Distinct(ROW_LAYOUT[8]) && forall s :: s in ROW_LAYOUT[8] <==> Row(s) == 8
  {}

  lemma {:induction false} RowsTogether(n: nat)
    requires n <= |ROW_LAYOUT|
    ensures Distinct(FlatMap(RowCells, ROW_LAYOUT[..n]))
    ensures forall s :: s in FlatMap(RowCells, ROW_LAYOUT[..n]) <==> Row(s) < n
  {
    if n > 0 {
      RowsTogether(n - 1);
      RowsAre(n - 1);
      FlatMapStep(RowCells, ROW_LAYOUT, n - 1);
      var before, row := FlatMap(RowCells, ROW_LAYOUT[..n - 1]), ROW_LAYOUT[n - 1];
      assert forall k :: 0 <= k < |before| ==> before[k] in before;
      assert forall k :: 0 <= k < |row| ==> row[k] in row;
    }
  }

  /** The form shows every slot once, except the fuse box, the toolbox and the controls. */
  lemma LayoutShows()
    ensures Distinct(Layout())
    ensures forall s :: s in Layout() <==> !s.Fuse? && !s.Toolbox? && !s.Controls?
  {
    RowsTogether(|ROW_LAYOUT|);
    assert ROW_LAYOUT[..|ROW_LAYOUT|] == ROW_LAYOUT;
  }

  // ---------------------------------------------------------------- what the cells stand for

  function HolderOf(master: seq<MasterItem>, s: Slot): Option<nat> {
    var holders := Greedy(MatchesFunction(), Slots(GROUP_ORDER), master).holders;
    if Position(s) < |holders| then holders[Position(s)] else None
  }

  ghost predicate DistinctCodes(master: seq<MasterItem>) {
    forall i, j :: 0 <= i < j < |master| ==> master[i].itemCode != master[j].itemCode
  }

  lemma {:induction false} ByUniqueKey(items: seq<PaperItem>, k: nat)
    requires k < |items| && forall j :: 0 <= j < |items| && j != k ==> items[j].uiKey != items[k].uiKey
    ensures ByUiKey(items, items[k].uiKey) == Some(items[k])
  {
    if k < |items| - 1 {
      ByUniqueKey(items[..|items| - 1], k);
    }
  }

  /** The map of the form's items finds for each slot the item that the assignment gave it. */
  lemma ItemOfSlot(master: seq<MasterItem>, s: Slot)
    ensures ByUiKey(PaperItems(master), SlotKey(s)) == Some(SlotItem(s, Held(master, HolderOf(master, s))))
  {
    SlotsAreDistinct();
    var slots, items := Slots(GROUP_ORDER), PaperItems(master);
    var front := SlotItems(MatchesFunction(), slots, master);
    assert forall k :: 0 <= k < |slots| ==> items[k] == front[k] && items[k].uiKey == SlotKey(slots[k]);
    forall j | 0 <= j < |items| && j != Position(s) ensures items[j].uiKey != SlotKey(s) {
      if j < |slots| {
        assert slots[j] != slots[Position(s)];
      }
    }
    ByUniqueKey(items, Position(s));
  }

  function HeldCell(master: seq<MasterItem>, s: Slot): seq<Cell> {
    var item := Held(master, HolderOf(master, s));
    if item.Some? && item.value.itemCode != "" then [Cell(SlotKey(s), item.value.itemCode, item.value.required)] else []
  }

  lemma {:induction false} CellsOfSlots(master: seq<MasterItem>, slots: seq<Slot>)
    requires Distinct(slots)
    ensures var cells := FlatMap(CellLoop(PaperItems(master)), slots);
      && (forall c :: c in cells ==> c.uiKey.SlotKey? && c.uiKey.slot in slots && HeldCell(master, c.uiKey.slot) == [c])
      && (forall s :: s in slots ==> HeldCell(master, s) != [] ==> HeldCell(master, s)[0] in cells)
      && (forall j, k :: 0 <= j < k < |cells| ==> cells[j].uiKey != cells[k].uiKey)
  {
    if slots != [] {
      var front, s := slots[..|slots| - 1], slots[|slots| - 1];
      CellsOfSlots(master, front);
      ItemOfSlot(master, s);
      assert CellOf(PaperItems(master), s) == HeldCell(master, s);
      var before := FlatMap(CellLoop(PaperItems(master)), front);
      assert forall k :: 0 <= k < |before| ==> before[k] in before;
    }
  }

  lemma HoldersDiffer(master: seq<MasterItem>, s: Slot, t: Slot)
    requires s != t
    ensures HolderOf(master, s).Some? ==> HolderOf(master, s).value < |master| && HolderOf(master, s) != HolderOf(master, t)
  {
    PositionInjective(s, t);
    PositionInjective(t, s);
    SlotsAreDistinct();
    GreedyIsStable(MatchesFunction(), Slots(GROUP_ORDER), master);
  }

  lemma PlaceOfCell(master: seq<MasterItem>, s: Slot, c: Cell) returns (i: nat)
    requires HeldCell(master, s) == [c]
    ensures HolderOf(master, s) == Some(i) && i < |master| && c.itemCode == master[i].itemCode
  {
    i := HolderOf(master, s).value;
    assert [c][0] == Cell(SlotKey(s), master[i].itemCode, master[i].required);
  }

  lemma CodesDiffer(master: seq<MasterItem>, c: Cell, d: Cell)
    requires DistinctCodes(master) && c.uiKey.SlotKey? && d.uiKey.SlotKey? && c.uiKey != d.uiKey
    requires HeldCell(master, c.uiKey.slot) == [c] && HeldCell(master, d.uiKey.slot) == [d]
    ensures c.itemCode != d.itemCode
  {
    var i := PlaceOfCell(master, c.uiKey.slot, c);
    var j := PlaceOfCell(master, d.uiKey.slot, d);
    HoldersDiffer(master, c.uiKey.slot, d.uiKey.slot);
  }

  /** The configured visible cells: one per visible slot that holds an item, under different keys, and
      for different item codes when the master list has different codes. */
  lemma CellsAreSound(master: seq<MasterItem>)
    requires DistinctCodes(master)
    ensures var cells := ConfiguredCells(master);
      && (forall c :: c in cells <==>
            c.uiKey.SlotKey? && c.uiKey.slot in Layout() && HeldCell(master, c.uiKey.slot) == [c])
      && (forall j, k :: 0 <= j < k < |cells| ==>
            cells[j].uiKey != cells[k].uiKey && cells[j].itemCode != cells[k].itemCode)
  {
    LayoutShows();
    CellsOfSlots(master, Layout());
    var cells := ConfiguredCells(master);
    forall j, k | 0 <= j < k < |cells| ensures cells[j].itemCode != cells[k].itemCode {
      assert cells[j] in cells && cells[k] in cells;
      CodesDiffer(master, cells[j], cells[k]);
    }
  }
}
