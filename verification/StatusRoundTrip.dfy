/** The way of a status: from the driver's cell to the payload, the daily check table,
    the details response and back to a cell of the office view. */
module StatusRoundTrip {
  import opened Common
  import Text
  import opened PaperChecklist
  import opened DailyChecks

  datatype UiStatus = Pass | Issue

  datatype UiItemState = UiItemState(status: Option<UiStatus>, notes: string)

  datatype Detail = Detail(itemCode: string, status: ItemStatus)

  type Answers = map<UiKey, UiItemState>
  type View = map<UiKey, Option<UiStatus>>

  function ToApiStatus(s: Option<UiStatus>): ItemStatus {
    if s == Some(Issue) then NotOk else if s == Some(Pass) then Ok else NA
  }

  function ToUiStatus(s: ItemStatus): Option<UiStatus> {
    if s.Ok? then Some(Pass) else if s.NotOk? then Some(Issue) else None
  }

  // ---------------------------------------------------------------- driver: state to payload

  function StateOf(state: Answers, key: UiKey): UiItemState {
    if key in state then state[key] else UiItemState(None, "")
  }

  /** The entry for an answered cell; a photo is only uploaded with an issue. */
  function EntryFor(c: Cell, state: Answers, uploads: map<UiKey, string>): SubmittedItem {
    var s := StateOf(state, c.uiKey);
    SubmittedItem(c.itemCode, ToApiStatus(s.status),
      if s.notes != "" then Some(Text.Trim(s.notes)) else None,
      if s.status == Some(Issue) && c.uiKey in uploads then Some(uploads[c.uiKey]) else None)
  }

  predicate Answered(c: Cell, state: Answers) { StateOf(state, c.uiKey).status.Some? && c.itemCode != "" }

  function PayloadOf(cells: seq<Cell>, state: Answers, uploads: map<UiKey, string>): seq<SubmittedItem> {
    Map(c => EntryFor(c, state, uploads), Filter((c: Cell) => Answered(c, state), cells))
  }

  method BuildPayload(cells: seq<Cell>, state: Answers, uploads: map<UiKey, string>) returns (payload: seq<SubmittedItem>)
    ensures payload == PayloadOf(cells, state, uploads)
  {
    payload := [];
    for n := 0 to |cells|
      invariant payload == PayloadOf(cells[..n], state, uploads)
    {
      assert cells[..n + 1][..n] == cells[..n];
      if !Answered(cells[n], state) {
        continue;
      }
      payload := payload + [EntryFor(cells[n], state, uploads)];
    }
    assert cells[..|cells|] == cells;
  }

  // ---------------------------------------------------------------- office: details to view

  function CodeMap(cells: seq<Cell>): map<string, UiKey> {
    if cells == [] then map[]
    else
      var c := cells[|cells| - 1];
      var front := CodeMap(cells[..|cells| - 1]);
      if c.itemCode == "" then front else front[c.itemCode := c.uiKey]
  }

  function ViewOf(codes: map<string, UiKey>, details: seq<Detail>): View {
    if details == [] then map[]
    else
      var d := details[|details| - 1];
      var front := ViewOf(codes, details[..|details| - 1]);
      if d.itemCode !in codes then front else front[codes[d.itemCode] := ToUiStatus(d.status)]
  }

  method StatusByUiKey(cells: seq<Cell>, details: seq<Detail>) returns (output: View)
    ensures output == ViewOf(CodeMap(cells), details)
  {
    var byApiCode: map<string, UiKey> := map[];
    for n := 0 to |cells|
      invariant byApiCode == CodeMap(cells[..n])
    {
      assert cells[..n + 1][..n] == cells[..n];
      if cells[n].itemCode != "" {
        byApiCode := byApiCode[cells[n].itemCode := cells[n].uiKey];
      }
    }
    assert cells[..|cells|] == cells;
    output := map[];
    for n := 0 to |details|
      invariant output == ViewOf(CodeMap(cells), details[..n])
    {
      assert details[..n + 1][..n] == details[..n];
      if details[n].itemCode !in byApiCode {
        continue;
      }
      output := output[byApiCode[details[n].itemCode] := ToUiStatus(details[n].status)];
    }
    assert details[..|details|] == details;
  }

  /** The details response lists the items of a check, each code once. */
  ghost predicate Lists(items: map<(nat, string), ItemRow>, id: nat, details: seq<Detail>) {
    && (forall j, k :: 0 <= j < k < |details| ==> details[j].itemCode != details[k].itemCode)
    && (forall k :: 0 <= k < |details| ==>
          (id, details[k].itemCode) in items && items[(id, details[k].itemCode)].status == details[k].status)
    && (forall key :: key in items && key.0 == id ==> exists k :: 0 <= k < |details| && details[k].itemCode == key.1)
  }

  lemma DetailsOfCodes(items: map<(nat, string), ItemRow>, id: nat, codes: set<string>) returns (details: seq<Detail>)
    requires forall code :: code in codes ==> (id, code) in items
    ensures forall j, k :: 0 <= j < k < |details| ==> details[j].itemCode != details[k].itemCode
    ensures forall k :: 0 <= k < |details| ==>
      details[k].itemCode in codes && items[(id, details[k].itemCode)].status == details[k].status
    ensures forall code :: code in codes ==> exists k :: 0 <= k < |details| && details[k].itemCode == code
    decreases |codes|
  {
    details := [];
    if code :| code in codes {
      var rest := DetailsOfCodes(items, id, codes - {code});
      details := rest + [Detail(code, items[(id, code)].status)];
      forall c | c in codes ensures exists k :: 0 <= k < |details| && details[k].itemCode == c {
        if c == code {
          assert details[|rest|].itemCode == c;
        } else {
          assert c in codes - {code};
          var k :| 0 <= k < |rest| && rest[k].itemCode == c;
          assert details[k].itemCode == c;
        }
      }
    }
  }

  /** There always is a details response. */
  lemma DetailsExist(items: map<(nat, string), ItemRow>, id: nat) returns (details: seq<Detail>)
    ensures Lists(items, id, details)
  {
    var codes := set key | key in items && key.0 == id :: key.1;
    forall code | code in codes ensures (id, code) in items {
      var key :| key in items && key.0 == id && key.1 == code;
      assert key == (id, code);
    }
    details := DetailsOfCodes(items, id, codes);
    forall key | key in items && key.0 == id ensures exists k :: 0 <= k < |details| && details[k].itemCode == key.1 {
      assert key.1 in codes;
    }
  }

  // ---------------------------------------------------------------- the round trip

  /** Cells under different keys, all with an item code. */
  ghost predicate DifferentKeys(cells: seq<Cell>) {
    && (forall j, k :: 0 <= j < k < |cells| ==> cells[j].uiKey != cells[k].uiKey)
    && (forall k :: 0 <= k < |cells| ==> cells[k].itemCode != "")
  }

  ghost predicate DifferentCodes(cells: seq<Cell>) {
    forall j, k :: 0 <= j < k < |cells| ==> cells[j].itemCode != cells[k].itemCode
  }

  ghost predicate DistinctCells(cells: seq<Cell>) { DifferentKeys(cells) && DifferentCodes(cells) }

  lemma {:induction false} CodeMapFinds(cells: seq<Cell>)
    requires DistinctCells(cells)
    ensures forall k :: 0 <= k < |cells| ==> cells[k].itemCode in CodeMap(cells) && CodeMap(cells)[cells[k].itemCode] == cells[k].uiKey
    ensures forall code :: code in CodeMap(cells) ==> exists k :: 0 <= k < |cells| && cells[k].itemCode == code
  {
    if cells != [] {
      var front := cells[..|cells| - 1];
      CodeMapFinds(front);
      assert forall k :: 0 <= k < |front| ==> front[k] == cells[k];
    }
  }

  /** The view shows a cell exactly if the details name its code, with the status they give. */
  lemma {:induction false} ViewAt(cells: seq<Cell>, details: seq<Detail>, n: nat)
    requires DistinctCells(cells) && n < |cells|
    requires forall j, k :: 0 <= j < k < |details| ==> details[j].itemCode != details[k].itemCode
    ensures var view := ViewOf(CodeMap(cells), details);
      && (cells[n].uiKey in view <==> exists k :: 0 <= k < |details| && details[k].itemCode == cells[n].itemCode)
      && (forall k :: 0 <= k < |details| && details[k].itemCode == cells[n].itemCode ==>
            view[cells[n].uiKey] == ToUiStatus(details[k].status))
  {
    CodeMapFinds(cells);
    if details != [] {
      var front, d := details[..|details| - 1], details[|details| - 1];
      ViewAt(cells, front, n);
      assert forall k :: 0 <= k < |front| ==> front[k] == details[k];
      if d.itemCode in CodeMap(cells) {
        var j :| 0 <= j < |cells| && cells[j].itemCode == d.itemCode;
        assert CodeMap(cells)[d.itemCode] == cells[j].uiKey;
      }
    }
  }

  lemma {:induction false} ViewKeys(cells: seq<Cell>, details: seq<Detail>, key: UiKey)
    requires DistinctCells(cells) && key in ViewOf(CodeMap(cells), details)
    ensures exists n :: 0 <= n < |cells| && cells[n].uiKey == key
  {
    CodeMapFinds(cells);
    var d := details[|details| - 1];
    if d.itemCode in CodeMap(cells) && CodeMap(cells)[d.itemCode] == key {
      var n :| 0 <= n < |cells| && cells[n].itemCode == d.itemCode;
    } else {
      ViewKeys(cells, details[..|details| - 1], key);
    }
  }

  lemma {:induction false} PayloadAt(cells: seq<Cell>, state: Answers, uploads: map<UiKey, string>, n: nat)
    requires DistinctCells(cells) && n < |cells|
    ensures LastFor(PayloadOf(cells, state, uploads), cells[n].itemCode)
      == if Answered(cells[n], state) then Some(EntryFor(cells[n], state, uploads)) else None
  {
    var front, last := cells[..|cells| - 1], cells[|cells| - 1];
    PayloadStep(cells, state, uploads);
    if n == |cells| - 1 {
      PayloadElsewhere(front, state, uploads, last.itemCode);
    } else {
      PayloadAt(front, state, uploads, n);
    }
  }

  lemma PayloadStep(cells: seq<Cell>, state: Answers, uploads: map<UiKey, string>)
    requires cells != []
    ensures var front, last := PayloadOf(cells[..|cells| - 1], state, uploads), cells[|cells| - 1];
      && PayloadOf(cells, state, uploads)
         == (if Answered(last, state) then front + [EntryFor(last, state, uploads)] else front)
      && forall x :: (front + [x])[..|front + [x]| - 1] == front
  {}

  lemma {:induction false} PayloadElsewhere(cells: seq<Cell>, state: Answers, uploads: map<UiKey, string>, code: string)
    requires forall k :: 0 <= k < |cells| ==> cells[k].itemCode != code
    ensures LastFor(PayloadOf(cells, state, uploads), code) == None
  {
    if cells != [] {
      PayloadStep(cells, state, uploads);
      PayloadElsewhere(cells[..|cells| - 1], state, uploads, code);
    }
  }

  /** The visible cells the driver has answered, with their statuses. */
  ghost function Shown(cells: seq<Cell>, state: Answers): View {
    map key | key in (set n | 0 <= n < |cells| && Answered(cells[n], state) :: cells[n].uiKey)
      :: StateOf(state, key).status
  }

  lemma CodesAreKnown(cells: seq<Cell>, state: Answers, uploads: map<UiKey, string>, ref: Reference)
    requires forall c :: c in cells ==> c.itemCode in ref.itemCodes
    ensures AllKnown(ref, PayloadOf(cells, state, uploads))
  {
    var kept := Filter((c: Cell) => Answered(c, state), cells);
    forall k | 0 <= k < |kept| ensures kept[k].itemCode in ref.itemCodes {
      assert kept[k] in kept;
    }
  }

  /** A cell of the view is the stored item of the cell's code. */
  lemma ViewOfItems(cells: seq<Cell>, details: seq<Detail>, items: map<(nat, string), ItemRow>, id: nat, n: nat)
    requires DistinctCells(cells) && Lists(items, id, details) && n < |cells|
    ensures var view, key := ViewOf(CodeMap(cells), details), (id, cells[n].itemCode);
      && (cells[n].uiKey in view <==> key in items)
      && (key in items ==> view[cells[n].uiKey] == ToUiStatus(items[key].status))
  {
    ViewAt(cells, details, n);
    var key := (id, cells[n].itemCode);
    if key in items {
      assert key.0 == id && key.1 == cells[n].itemCode;
    }
  }

  lemma ShownAt(cells: seq<Cell>, state: Answers, n: nat)
    requires DifferentKeys(cells) && n < |cells|
    ensures cells[n].uiKey in Shown(cells, state) <==> Answered(cells[n], state)
    ensures Answered(cells[n], state) ==> Shown(cells, state)[cells[n].uiKey] == StateOf(state, cells[n].uiKey).status
  {
    var keys := set m | 0 <= m < |cells| && Answered(cells[m], state) :: cells[m].uiKey;
    assert Answered(cells[n], state) ==> cells[n].uiKey in keys;
    if cells[n].uiKey in keys {
      var m :| 0 <= m < |cells| && Answered(cells[m], state) && cells[m].uiKey == cells[n].uiKey;
      assert m == n;
    }
    assert Shown(cells, state) == map key | key in keys :: StateOf(state, key).status;
  }

  /** Encoding a status for the API and decoding it for the page gives the status back. */
  lemma StatusSurvives(s: Option<UiStatus>)
    ensures ToUiStatus(ToApiStatus(s)) == s
  {
    assert s.Some? ==> s.value.Pass? || s.value.Issue?;
  }

  lemma CellOverlays(
    cells: seq<Cell>, state: Answers, uploads: map<UiKey, string>, items: map<(nat, string), ItemRow>,
    id: nat, before: seq<Detail>, after: seq<Detail>, n: nat)
    requires DistinctCells(cells) && n < |cells|
    requires Lists(items, id, before) && Lists(UpsertItems(items, id, PayloadOf(cells, state, uploads)), id, after)
    ensures var view, key := ViewOf(CodeMap(cells), before) + Shown(cells, state), cells[n].uiKey;
      && (key in ViewOf(CodeMap(cells), after) <==> key in view)
      && (key in view ==> ViewOf(CodeMap(cells), after)[key] == view[key])
  {
    var payload := PayloadOf(cells, state, uploads);
    UpsertedItem(items, id, payload, (id, cells[n].itemCode));
    PayloadAt(cells, state, uploads, n);
    ViewOfItems(cells, before, items, id, n);
    ViewOfItems(cells, after, UpsertItems(items, id, payload), id, n);
    ShownAt(cells, state, n);
    StatusSurvives(StateOf(state, cells[n].uiKey).status);
  }

  lemma SubmitUpserts(s: Store, ref: Reference, tenantId: string, id: nat, payload: seq<SubmittedItem>)
    requires id < |s.checks| && s.checks[id].tenantId == tenantId && AllKnown(ref, payload)
    ensures var o := Submit(s, ref, tenantId, id, payload);
      o.result == Success((id, Submitted)) && o.store.items == UpsertItems(s.items, id, payload)
  {}

  /** Submitting lays the answered cells over what the office saw before, and touches no other cell. */
  lemma SubmissionOverlays(
    cells: seq<Cell>, state: Answers, uploads: map<UiKey, string>, s: Store, ref: Reference, tenantId: string,
    id: nat, before: seq<Detail>, after: seq<Detail>)
    requires DistinctCells(cells) && forall c :: c in cells ==> c.itemCode in ref.itemCodes
    requires id < |s.checks| && s.checks[id].tenantId == tenantId
    requires Lists(s.items, id, before)
    requires Lists(Submit(s, ref, tenantId, id, PayloadOf(cells, state, uploads)).store.items, id, after)
    ensures Submit(s, ref, tenantId, id, PayloadOf(cells, state, uploads)).result == Success((id, Submitted))
    ensures ViewOf(CodeMap(cells), after) == ViewOf(CodeMap(cells), before) + Shown(cells, state)
  {
    CodesAreKnown(cells, state, uploads, ref);
    SubmitUpserts(s, ref, tenantId, id, PayloadOf(cells, state, uploads));
    ViewsOverlay(cells, state, uploads, s.items, id, before, after);
  }

  lemma ViewsOverlay(
    cells: seq<Cell>, state: Answers, uploads: map<UiKey, string>, items: map<(nat, string), ItemRow>,
    id: nat, before: seq<Detail>, after: seq<Detail>)
    requires DistinctCells(cells)
    requires Lists(items, id, before) && Lists(UpsertItems(items, id, PayloadOf(cells, state, uploads)), id, after)
    ensures ViewOf(CodeMap(cells), after) == ViewOf(CodeMap(cells), before) + Shown(cells, state)
  {
    var view, overlay := ViewOf(CodeMap(cells), after), ViewOf(CodeMap(cells), before) + Shown(cells, state);
    forall key | key in view || key in overlay
      ensures key in view && key in overlay && view[key] == overlay[key]
    {
      var n := CellOfKey(cells, state, before, after, key);
      CellOverlays(cells, state, uploads, items, id, before, after, n);
    }
  }

  lemma CellOfKey(cells: seq<Cell>, state: Answers, before: seq<Detail>, after: seq<Detail>, key: UiKey) returns (n: nat)
    requires DistinctCells(cells)
    requires key in ViewOf(CodeMap(cells), after) || key in ViewOf(CodeMap(cells), before) + Shown(cells, state)
    ensures n < |cells| && cells[n].uiKey == key
  {
    if key in ViewOf(CodeMap(cells), after) {
      ViewKeys(cells, after, key);
    } else if key in ViewOf(CodeMap(cells), before) {
      ViewKeys(cells, before, key);
    }
    n :| 0 <= n < |cells| && cells[n].uiKey == key;
  }

  /** On a fresh check the submission succeeds, and whatever details it then has show in the office exactly
      the driver's answers on exactly the same visible cells. */
  lemma RoundTrip(
    master: seq<MasterItem>, state: Answers, uploads: map<UiKey, string>, s: Store, ref: Reference,
    tenantId: string, id: nat)
    requires DistinctCodes(master) && forall item :: item in master ==> item.itemCode in ref.itemCodes
    requires id < |s.checks| && s.checks[id].tenantId == tenantId && forall key :: key in s.items ==> key.0 != id
    ensures var cells := ConfiguredCells(master);
      var submitted := Submit(s, ref, tenantId, id, PayloadOf(cells, state, uploads));
      && submitted.result == Success((id, Submitted))
      && (exists details :: Lists(submitted.store.items, id, details))
      && (forall details :: Lists(submitted.store.items, id, details) ==>
            ViewOf(CodeMap(cells), details) == Shown(cells, state))
  {
    MasterCellsAreDistinct(master, ref);
    FreshRoundTrip(ConfiguredCells(master), state, uploads, s, ref, tenantId, id);
  }

  lemma FreshRoundTrip(
    cells: seq<Cell>, state: Answers, uploads: map<UiKey, string>, s: Store, ref: Reference, tenantId: string, id: nat)
    requires DistinctCells(cells) && forall c :: c in cells ==> c.itemCode in ref.itemCodes
    requires id < |s.checks| && s.checks[id].tenantId == tenantId && forall key :: key in s.items ==> key.0 != id
    ensures var submitted := Submit(s, ref, tenantId, id, PayloadOf(cells, state, uploads));
      && submitted.result == Success((id, Submitted))
      && (exists details :: Lists(submitted.store.items, id, details))
      && (forall details :: Lists(submitted.store.items, id, details) ==>
            ViewOf(CodeMap(cells), details) == Shown(cells, state))
  {
    var items := Submit(s, ref, tenantId, id, PayloadOf(cells, state, uploads)).store.items;
    var response := DetailsExist(items, id);
    assert ViewOf(CodeMap(cells), []) == map[];
    forall details | Lists(items, id, details) ensures ViewOf(CodeMap(cells), details) == Shown(cells, state) {
      SubmissionOverlays(cells, state, uploads, s, ref, tenantId, id, [], details);
    }
    SubmissionOverlays(cells, state, uploads, s, ref, tenantId, id, [], response);
  }

  lemma MasterCellsAreDistinct(master: seq<MasterItem>, ref: Reference)
    requires DistinctCodes(master) && forall item :: item in master ==> item.itemCode in ref.itemCodes
    ensures DistinctCells(ConfiguredCells(master))
    ensures forall c :: c in ConfiguredCells(master) ==> c.itemCode in ref.itemCodes
  {
    CellsAreSound(master);
    var cells := ConfiguredCells(master);
    forall c | c in cells ensures c.itemCode in ref.itemCodes && c.itemCode != "" {
      var i := PlaceOfCell(master, c.uiKey.slot, c);
      assert master[i] in master;
    }
    assert forall k :: 0 <= k < |cells| ==> cells[k] in cells;
  }

  /** Of two cells sharing a code, the earlier is never shown. */
  lemma SharedCodeLosesACell(cells: seq<Cell>, j: nat, k: nat, details: seq<Detail>)
    requires j < k < |cells| && cells[j].uiKey != cells[k].uiKey && cells[j].itemCode == cells[k].itemCode != ""
    requires forall l :: k < l < |cells| ==> cells[l].itemCode != cells[k].itemCode
    requires forall l :: 0 <= l < |cells| && l != j ==> cells[l].uiKey != cells[j].uiKey
    ensures cells[j].uiKey !in ViewOf(CodeMap(cells), details)
  {
    CodeGoesToLater(cells, j, k);
    OnlyMappedKeys(CodeMap(cells), details, cells[j].uiKey);
  }

  /** The answers, submitted to a check without items, come back on their own cells and on no other. */
  ghost predicate ComeBack(cells: seq<Cell>, state: Answers) {
    forall details :: Lists(UpsertItems(map[], 0, PayloadOf(cells, state, map[])), 0, details) ==>
      ViewOf(CodeMap(cells), details) == Shown(cells, state)
  }

  /** Every set of answers comes back on its own cells exactly if the cells' item codes differ. */
  lemma AnswersReturnIff(cells: seq<Cell>)
    requires DifferentKeys(cells)
    ensures (forall state: Answers :: ComeBack(cells, state)) <==> DifferentCodes(cells)
  {
    if DifferentCodes(cells) {
      forall state: Answers ensures ComeBack(cells, state) {
        DistinctCellsReturn(cells, state);
      }
    } else {
      var j, k :| 0 <= j < k < |cells| && cells[j].itemCode == cells[k].itemCode;
      var last := LastWithCode(cells, k);
      OneAnswerIsLost(cells, j, last);
    }
  }

  lemma DistinctCellsReturn(cells: seq<Cell>, state: Answers)
    requires DifferentKeys(cells) && DifferentCodes(cells)
    ensures ComeBack(cells, state)
  {
    assert ViewOf(CodeMap(cells), []) == map[];
    forall details | Lists(UpsertItems(map[], 0, PayloadOf(cells, state, map[])), 0, details)
      ensures ViewOf(CodeMap(cells), details) == Shown(cells, state)
    {
      ViewsOverlay(cells, state, map[], map[], 0, [], details);
    }
  }

  lemma {:induction false} LastWithCode(cells: seq<Cell>, k: nat) returns (last: nat)
    requires k < |cells|
    ensures k <= last < |cells| && cells[last].itemCode == cells[k].itemCode
    ensures forall l :: last < l < |cells| ==> cells[l].itemCode != cells[k].itemCode
    decreases |cells| - k
  {
    if l :| k < l < |cells| && cells[l].itemCode == cells[k].itemCode {
      last := LastWithCode(cells, l);
    } else {
      last := k;
    }
  }

  lemma OneAnswerIsLost(cells: seq<Cell>, j: nat, k: nat)
    requires DifferentKeys(cells) && j < k < |cells| && cells[j].itemCode == cells[k].itemCode
    requires forall l :: k < l < |cells| ==> cells[l].itemCode != cells[k].itemCode
    ensures !ComeBack(cells, map[cells[j].uiKey := UiItemState(Some(Pass), "")])
  {
    var state: Answers := map[cells[j].uiKey := UiItemState(Some(Pass), "")];
    var details := DetailsExist(UpsertItems(map[], 0, PayloadOf(cells, state, map[])), 0);
    SharedCodeLosesACell(cells, j, k, details);
    ShownAt(cells, state, j);
  }

  lemma {:induction false} CodeGoesToLater(cells: seq<Cell>, j: nat, k: nat)
    requires j < k < |cells| && cells[j].itemCode == cells[k].itemCode != ""
    requires forall l :: k < l < |cells| ==> cells[l].itemCode != cells[k].itemCode
    requires forall l :: 0 <= l < |cells| && l != j ==> cells[l].uiKey != cells[j].uiKey
    ensures forall code :: code in CodeMap(cells) ==> CodeMap(cells)[code] != cells[j].uiKey
  {
    var n := |cells| - 1;
    if k < n {
      CodeGoesToLater(cells[..n], j, k);
    } else {
      OthersMapElsewhere(cells[..n], j);
    }
  }

  lemma {:induction false} OthersMapElsewhere(cells: seq<Cell>, j: nat)
    requires j < |cells| && forall l :: 0 <= l < |cells| && l != j ==> cells[l].uiKey != cells[j].uiKey
    ensures forall code :: code in CodeMap(cells) && code != cells[j].itemCode ==> CodeMap(cells)[code] != cells[j].uiKey
  {
    var n := |cells| - 1;
    if j < n {
      OthersMapElsewhere(cells[..n], j);
    } else {
      KeysComeFromCells(cells[..n]);
    }
  }

  lemma {:induction false} KeysComeFromCells(cells: seq<Cell>)
    ensures forall code :: code in CodeMap(cells) ==> exists l :: 0 <= l < |cells| && CodeMap(cells)[code] == cells[l].uiKey
  {
    if cells != [] {
      var front := cells[..|cells| - 1];
      KeysComeFromCells(front);
      assert forall l :: 0 <= l < |front| ==> front[l] == cells[l];
    }
  }

  lemma {:induction false} OnlyMappedKeys(codes: map<string, UiKey>, details: seq<Detail>, key: UiKey)
    requires forall code :: code in codes ==> codes[code] != key
    ensures key !in ViewOf(codes, details)
  {
    if details != [] {
      OnlyMappedKeys(codes, details[..|details| - 1], key);
    }
  }

  // ---------------------------------------------------------------- what the tables keep of an answer

  /** The stored row of an answered cell: NOT_OK for an issue and OK for a pass, the notes without blanks around them,
      and the uploaded photo only with an issue. */
  predicate Keeps(row: ItemRow, answer: UiItemState, photo: Option<string>) {
    && (row.status.NotOk? <==> answer.status == Some(Issue)) && (row.status.Ok? <==> answer.status == Some(Pass))
    && (answer.notes == "" ==> row.notes.None?) && (answer.notes != "" ==> row.notes == Some(Text.Trim(answer.notes)))
    && row.photoUrl == (if answer.status == Some(Issue) then photo else None)
  }

  /** After a submission the item of each answered cell is stored as answered. */
  lemma AnswersAreStored(
    cells: seq<Cell>, state: Answers, uploads: map<UiKey, string>, s: Store, ref: Reference, tenantId: string, id: nat, n: nat)
    requires DistinctCells(cells) && n < |cells| && cells[n].itemCode != ""
    requires forall c :: c in cells ==> c.itemCode in ref.itemCodes
    requires id < |s.checks| && s.checks[id].tenantId == tenantId
    requires cells[n].uiKey in state && state[cells[n].uiKey].status.Some?
    ensures var key, items := cells[n].uiKey, Submit(s, ref, tenantId, id, PayloadOf(cells, state, uploads)).store.items;
      (id, cells[n].itemCode) in items
      && Keeps(items[(id, cells[n].itemCode)], state[key], if key in uploads then Some(uploads[key]) else None)
  {
    CodesAreKnown(cells, state, uploads, ref);
    SubmitUpserts(s, ref, tenantId, id, PayloadOf(cells, state, uploads));
    PayloadAt(cells, state, uploads, n);
    UpsertedItem(s.items, id, PayloadOf(cells, state, uploads), (id, cells[n].itemCode));
  }

  /** An issue the driver reports makes its day one with an issue, for every reader who sees the check. */
  lemma IssueIsCounted(
    cells: seq<Cell>, state: Answers, uploads: map<UiKey, string>, s: Store, ref: Reference, tenantId: string, id: nat, n: nat,
    scope: Scope)
    requires DistinctCells(cells) && n < |cells| && cells[n].itemCode != ""
    requires forall c :: c in cells ==> c.itemCode in ref.itemCodes
    requires id < |s.checks| && s.checks[id].tenantId == tenantId && Visible(s.checks[id], ref, scope)
    requires cells[n].uiKey in state && state[cells[n].uiKey].status == Some(Issue)
    ensures var t := Submit(s, ref, tenantId, id, PayloadOf(cells, state, uploads)).store;
      DayWithIssue(t, ref, tenantId, scope, s.checks[id].vehicleId, s.checks[id].checkDate)
  {
    AnswersAreStored(cells, state, uploads, s, ref, tenantId, id, n);
    CodesAreKnown(cells, state, uploads, ref);
    SubmitLeaves(s, ref, tenantId, id, PayloadOf(cells, state, uploads));
    var t := Submit(s, ref, tenantId, id, PayloadOf(cells, state, uploads)).store;
    assert (id, cells[n].itemCode) in t.items && t.items[(id, cells[n].itemCode)].status.NotOk?;
  }
}
