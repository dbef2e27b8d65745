/** The daily check tables and the two queries that count repeated issues
    (daily-checklist.service.ts, alerts.service.ts). */
module DailyChecks {
  import opened Common

  datatype CheckStatus = Draft | Submitted

  datatype ItemStatus = Ok | NotOk | NA

  datatype Check = Check(
    tenantId: string, vehicleId: string, driverId: Option<string>, siteId: Option<string>,
    checkDate: int, status: CheckStatus, createdBy: string)

  datatype ItemRow = ItemRow(status: ItemStatus, notes: Option<string>, photoUrl: Option<string>)

  datatype Vehicle = Vehicle(tenantId: string, siteId: Option<string>)

  /** The tables that the daily check service only reads; users and sites map to their tenant. */
  datatype Reference = Reference(
    vehicles: map<string, Vehicle>, users: map<string, string>, sites: map<string, string>, itemCodes: set<string>)

  datatype CreateRequest = CreateRequest(
    vehicleId: string, checkDate: int, driverId: Option<string>, siteId: Option<string>)

  datatype SubmittedItem = SubmittedItem(
    itemCode: string, status: ItemStatus, notes: Option<string>, photoUrl: Option<string>)

  /** A check's identity is its place in `checks`, which only grows; items are keyed by (check, code). */
  datatype Store = Store(checks: seq<Check>, items: map<(nat, string), ItemRow>)

  datatype Error = VehicleNotFound | DriverNotFound | SiteNotFound | DailyCheckNotFound | InvalidChecklistItem

  datatype Outcome = Outcome(store: Store, result: Result<(nat, CheckStatus), Error>)

  // ---------------------------------------------------------------- create

  function FindCheck(checks: seq<Check>, tenantId: string, vehicleId: string, checkDate: int): (at: Option<nat>)
    ensures at.Some? ==> at.value < |checks| && SameDay(checks[at.value], tenantId, vehicleId, checkDate)
    ensures at.None? ==> forall k :: 0 <= k < |checks| ==> !SameDay(checks[k], tenantId, vehicleId, checkDate)
  {
    if checks == [] then None
    else if SameDay(checks[|checks| - 1], tenantId, vehicleId, checkDate) then Some(|checks| - 1)
    else FindCheck(checks[..|checks| - 1], tenantId, vehicleId, checkDate)
  }

  predicate SameDay(c: Check, tenantId: string, vehicleId: string, checkDate: int) {
    c.tenantId == tenantId && c.vehicleId == vehicleId && c.checkDate == checkDate
  }

  function CreateError(ref: Reference, tenantId: string, r: CreateRequest): Option<Error> {
    if !(r.vehicleId in ref.vehicles && ref.vehicles[r.vehicleId].tenantId == tenantId) then Some(VehicleNotFound)
    else if r.driverId.Some? && !(r.driverId.value in ref.users && ref.users[r.driverId.value] == tenantId)
      then Some(DriverNotFound)
    else if r.siteId.Some? && !(r.siteId.value in ref.sites && ref.sites[r.siteId.value] == tenantId)
      then Some(SiteNotFound)
    else None
  }

  function NewCheck(ref: Reference, tenantId: string, actor: string, r: CreateRequest): Check
    requires CreateError(ref, tenantId, r).None?
  {
    Check(tenantId, r.vehicleId, r.driverId,
      if r.siteId.Some? then r.siteId else ref.vehicles[r.vehicleId].siteId, r.checkDate, Draft, actor)
  }

  function Revisit(c: Check, r: CreateRequest): Check {
    c.(driverId := if r.driverId.Some? then r.driverId else c.driverId,
       siteId := if r.siteId.Some? then r.siteId else c.siteId)
  }

  /** The upsert on (tenant, vehicle, date). */
  function Create(s: Store, ref: Reference, tenantId: string, actor: string, r: CreateRequest): Outcome {
    var error := CreateError(ref, tenantId, r);
    if error.Some? then Outcome(s, Failure(error.value))
    else
      var at := FindCheck(s.checks, tenantId, r.vehicleId, r.checkDate);
      if at.Some? then
        var c := Revisit(s.checks[at.value], r);
        Outcome(s.(checks := s.checks[at.value := c]), Success((at.value, c.status)))
      else
        Outcome(s.(checks := s.checks + [NewCheck(ref, tenantId, actor, r)]), Success((|s.checks|, Draft)))
  }

  // ---------------------------------------------------------------- submit

  function RowFor(i: SubmittedItem): ItemRow { ItemRow(i.status, i.notes, i.photoUrl) }

  function UpsertItems(items: map<(nat, string), ItemRow>, id: nat, payload: seq<SubmittedItem>): map<(nat, string), ItemRow> {
    if payload == [] then items
    else
      var last := payload[|payload| - 1];
      UpsertItems(items, id, payload[..|payload| - 1])[(id, last.itemCode) := RowFor(last)]
  }

  predicate AllKnown(ref: Reference, payload: seq<SubmittedItem>) {
    forall k :: 0 <= k < |payload| ==> payload[k].itemCode in ref.itemCodes
  }

  function Submit(s: Store, ref: Reference, tenantId: string, id: nat, payload: seq<SubmittedItem>): Outcome {
    if !(id < |s.checks| && s.checks[id].tenantId == tenantId) then Outcome(s, Failure(DailyCheckNotFound))
    else if !AllKnown(ref, payload) then Outcome(s, Failure(InvalidChecklistItem))
    else
      Outcome(Store(s.checks[id := s.checks[id].(status := Submitted)], UpsertItems(s.items, id, payload)),
              Success((id, Submitted)))
  }

  /** The tables, changed in place. */
  class DailyCheckTables {
    var checks: seq<Check>
    var items: map<(nat, string), ItemRow>

    ghost function Contents(): Store
      reads this
    {
      Store(checks, items)
    }

    constructor ()
      ensures Contents() == Store([], map[])
    {
      checks, items := [], map[];
    }

    method CreateDailyCheck(ref: Reference, tenantId: string, actor: string, r: CreateRequest)
      returns (result: Result<(nat, CheckStatus), Error>)
      modifies this
      ensures Outcome(Contents(), result) == Create(old(Contents()), ref, tenantId, actor, r)
    {
      if r.vehicleId !in ref.vehicles || ref.vehicles[r.vehicleId].tenantId != tenantId {
        return Failure(VehicleNotFound);
      }
      if r.driverId.Some? && (r.driverId.value !in ref.users || ref.users[r.driverId.value] != tenantId) {
        return Failure(DriverNotFound);
      }
      if r.siteId.Some? && (r.siteId.value !in ref.sites || ref.sites[r.siteId.value] != tenantId) {
        return Failure(SiteNotFound);
      }
      var at := FindCheck(checks, tenantId, r.vehicleId, r.checkDate);
      if at.Some? {
        checks := checks[at.value := Revisit(checks[at.value], r)];
        return Success((at.value, checks[at.value].status));
      }
      checks := checks + [NewCheck(ref, tenantId, actor, r)];
      return Success((|checks| - 1, Draft));
    }

    method SubmitDailyCheck(ref: Reference, tenantId: string, id: nat, payload: seq<SubmittedItem>)
      returns (result: Result<(nat, CheckStatus), Error>)
      modifies this
      ensures Outcome(Contents(), result) == Submit(old(Contents()), ref, tenantId, id, payload)
    {
      if |checks| <= id || checks[id].tenantId != tenantId {
        return Failure(DailyCheckNotFound);
      }
      if exists k :: 0 <= k < |payload| && payload[k].itemCode !in ref.itemCodes {
        return Failure(InvalidChecklistItem);
      }
      for n := 0 to |payload|
        invariant checks == old(checks)
        invariant items == UpsertItems(old(items), id, payload[..n])
      {
        assert payload[..n + 1][..n] == payload[..n];
        items := items[(id, payload[n].itemCode) := RowFor(payload[n])];
      }
      assert payload[..|payload|] == payload;
      checks := checks[id := checks[id].(status := Submitted)];
      return Success((id, Submitted));
    }
  }

  // ---------------------------------------------------------------- runs

  datatype Step =
    | CreateStep(ref: Reference, tenantId: string, actor: string, request: CreateRequest)
    | SubmitStep(ref: Reference, tenantId: string, id: nat, payload: seq<SubmittedItem>)

  function Apply(s: Store, step: Step): Store {
    match step
    case CreateStep(ref, tenantId, actor, r) => Create(s, ref, tenantId, actor, r).store
    case SubmitStep(ref, tenantId, id, payload) => Submit(s, ref, tenantId, id, payload).store
  }

  function RunFrom(s: Store, steps: seq<Step>): Store
    decreases |steps|
  {
    if steps == [] then s else RunFrom(Apply(s, steps[0]), steps[1..])
  }

  ghost predicate OnePerDay(checks: seq<Check>) {
    forall i, j :: 0 <= i < j < |checks| ==> !SameDay(checks[i], checks[j].tenantId, checks[j].vehicleId, checks[j].checkDate)
  }

  ghost predicate Inv(s: Store) {
    && OnePerDay(s.checks)
    && forall key :: key in s.items ==> key.0 < |s.checks| && s.checks[key.0].status.Submitted?
  }

  /** What no step takes back: a check keeps its tenant, vehicle and date, and stays submitted. */
  ghost predicate Keeps(s: Store, t: Store) {
    && |s.checks| <= |t.checks|
    && forall i :: 0 <= i < |s.checks| ==>
         && SameDay(t.checks[i], s.checks[i].tenantId, s.checks[i].vehicleId, s.checks[i].checkDate)
         && (s.checks[i].status.Submitted? ==> t.checks[i].status.Submitted?)
  }

  /** The last entry of a payload for a code. */
  function LastFor(payload: seq<SubmittedItem>, code: string): Option<SubmittedItem> {
    if payload == [] then None
    else if payload[|payload| - 1].itemCode == code then Some(payload[|payload| - 1])
    else LastFor(payload[..|payload| - 1], code)
  }

  /** The items after an upsert: the last status given for each code, everything else as before. */
  lemma {:induction false} UpsertedItem(items: map<(nat, string), ItemRow>, id: nat, payload: seq<SubmittedItem>, key: (nat, string))
    ensures var t := UpsertItems(items, id, payload);
      var given := LastFor(payload, key.1);
      && (key in t <==> key in items || (key.0 == id && given.Some?))
      && (key in t ==> t[key] == if key.0 == id && given.Some? then RowFor(given.value) else items[key])
  {
    if payload != [] {
      UpsertedItem(items, id, payload[..|payload| - 1], key);
    }
  }

  lemma StepKeepsInv(s: Store, step: Step)
    requires Inv(s)
    ensures Inv(Apply(s, step)) && Keeps(s, Apply(s, step))
  {
    if step.SubmitStep? {
      var t := Apply(s, step);
      forall key | key in t.items ensures key.0 < |t.checks| && t.checks[key.0].status.Submitted? {
        UpsertedItem(s.items, step.id, step.payload, key);
      }
    }
  }

  /** In every run from the empty tables: one check per tenant, vehicle and day; a submitted check stays
      submitted; and whatever has items is submitted. */
  lemma {:induction false} RunKeepsInv(s: Store, steps: seq<Step>)
    requires Inv(s)
    ensures Inv(RunFrom(s, steps)) && Keeps(s, RunFrom(s, steps))
    decreases |steps|
  {
    if steps != [] {
      StepKeepsInv(s, steps[0]);
      RunKeepsInv(Apply(s, steps[0]), steps[1..]);
    }
  }

  /** Creating a check again for the same day finds it: same identity, same status, nothing changed. */
  lemma CreateIsIdempotent(s: Store, ref: Reference, tenantId: string, actor: string, other: string, r: CreateRequest)
    requires Create(s, ref, tenantId, actor, r).result.Success?
    ensures var once := Create(s, ref, tenantId, actor, r);
      Create(once.store, ref, tenantId, other, r) == once
  {
    var once := Create(s, ref, tenantId, actor, r);
    var id := once.result.value.0;
    assert id < |once.store.checks| && SameDay(once.store.checks[id], tenantId, r.vehicleId, r.checkDate);
    if id < |s.checks| {
      LastOfDay(s.checks, tenantId, r.vehicleId, r.checkDate);
    }
    FoundIfLast(once.store.checks, tenantId, r.vehicleId, r.checkDate, id);
    assert once.store.checks[id := once.store.checks[id]] == once.store.checks;
  }

  lemma {:induction false} LastOfDay(checks: seq<Check>, tenantId: string, vehicleId: string, checkDate: int)
    ensures var at := FindCheck(checks, tenantId, vehicleId, checkDate);
      at.Some? ==> forall k :: at.value < k < |checks| ==> !SameDay(checks[k], tenantId, vehicleId, checkDate)
  {
    if checks != [] && !SameDay(checks[|checks| - 1], tenantId, vehicleId, checkDate) {
      LastOfDay(checks[..|checks| - 1], tenantId, vehicleId, checkDate);
    }
  }

  lemma {:induction false} FoundIfLast(checks: seq<Check>, tenantId: string, vehicleId: string, checkDate: int, id: nat)
    requires id < |checks| && SameDay(checks[id], tenantId, vehicleId, checkDate)
    requires forall k :: id < k < |checks| ==> !SameDay(checks[k], tenantId, vehicleId, checkDate)
    ensures FindCheck(checks, tenantId, vehicleId, checkDate) == Some(id)
  {
    if id < |checks| - 1 {
      FoundIfLast(checks[..|checks| - 1], tenantId, vehicleId, checkDate, id);
    }
  }

  // ---------------------------------------------------------------- what create and submit leave

  /** What is wrong with a request: a vehicle, driver or site that is not the tenant's, in this order. */
  function RequestFault(ref: Reference, tenantId: string, r: CreateRequest): Option<Error> {
    var vehicleIsOwn := r.vehicleId in ref.vehicles && ref.vehicles[r.vehicleId].tenantId == tenantId;
    var driverIsOwn := r.driverId.None? || (r.driverId.value in ref.users && ref.users[r.driverId.value] == tenantId);
    var siteIsOwn := r.siteId.None? || (r.siteId.value in ref.sites && ref.sites[r.siteId.value] == tenantId);
    if vehicleIsOwn && driverIsOwn && siteIsOwn then None
    else if vehicleIsOwn && driverIsOwn then Some(SiteNotFound)
    else if vehicleIsOwn then Some(DriverNotFound) else Some(VehicleNotFound)
  }

  /** The check of that vehicle and day is found or made: a new one is a draft of the actor, at the site given or the
      vehicle's; an old one takes over the driver and the site if given. All other checks, and all items, stay. */
  lemma CreateLeaves(s: Store, ref: Reference, tenantId: string, actor: string, r: CreateRequest)
    ensures var o, fault := Create(s, ref, tenantId, actor, r), RequestFault(ref, tenantId, r);
      && o.store.items == s.items
      && (fault.Some? ==> o.result == Failure(fault.value) && o.store == s)
      && (fault.None? ==>
            && o.result.Success? && o.result.value.0 < |o.store.checks|
            && (forall i :: 0 <= i < |s.checks| && i != o.result.value.0 ==> i < |o.store.checks| && o.store.checks[i] == s.checks[i])
            && var c := o.store.checks[o.result.value.0];
               && c.tenantId == tenantId && c.vehicleId == r.vehicleId && c.checkDate == r.checkDate
               && c.status == o.result.value.1
               && (o.result.value.0 < |s.checks| ==> |o.store.checks| == |s.checks| && TakesOver(s.checks[o.result.value.0], c, r))
               && (o.result.value.0 >= |s.checks| ==> |o.store.checks| == |s.checks| + 1 && IsFirst(s, c, ref, actor, r)))
  {}

  /** The first check of its vehicle and day: a draft of the actor. */
  ghost predicate IsFirst(s: Store, c: Check, ref: Reference, actor: string, r: CreateRequest) {
    && c.driverId == r.driverId && c.status.Draft? && c.createdBy == actor
    && (r.siteId.Some? ==> c.siteId == r.siteId)
    && (r.siteId.None? ==> c.vehicleId in ref.vehicles && c.siteId == ref.vehicles[c.vehicleId].siteId)
    && forall k :: 0 <= k < |s.checks| ==>
         s.checks[k].tenantId != c.tenantId || s.checks[k].vehicleId != c.vehicleId || s.checks[k].checkDate != c.checkDate
  }

  /** The request's driver and site, if it has them; nothing else. */
  predicate TakesOver(before: Check, after: Check, r: CreateRequest) {
    && after.tenantId == before.tenantId && after.vehicleId == before.vehicleId && after.checkDate == before.checkDate
    && after.status == before.status && after.createdBy == before.createdBy
    && after.driverId == (if r.driverId.Some? then r.driverId else before.driverId)
    && after.siteId == (if r.siteId.Some? then r.siteId else before.siteId)
  }

  /** A submission fails exactly for a check that is not the tenant's or an unknown code, and then changes nothing; else
      the check is submitted, and no other check and no item of another check changes. */
  lemma SubmitLeaves(s: Store, ref: Reference, tenantId: string, id: nat, payload: seq<SubmittedItem>)
    ensures var o := Submit(s, ref, tenantId, id, payload);
      var own := id < |s.checks| && s.checks[id].tenantId == tenantId;
      var known := forall k :: 0 <= k < |payload| ==> payload[k].itemCode in ref.itemCodes;
      && (!own ==> o == Outcome(s, Failure(DailyCheckNotFound)))
      && (own && !known ==> o == Outcome(s, Failure(InvalidChecklistItem)))
      && (own && known ==>
            && o.result == Success((id, Submitted)) && |o.store.checks| == |s.checks|
            && o.store.checks[id].status.Submitted? && o.store.checks[id] == s.checks[id].(status := o.store.checks[id].status)
            && (forall i :: 0 <= i < |s.checks| && i != id ==> o.store.checks[i] == s.checks[i])
            && (forall key: (nat, string) :: key.0 != id ==> (key in o.store.items <==> key in s.items))
            && (forall key: (nat, string) :: key.0 != id && key in s.items ==>
                  key in o.store.items && o.store.items[key] == s.items[key]))
  {
    forall key: (nat, string) | key.0 != id
      ensures key in UpsertItems(s.items, id, payload) <==> key in s.items
      ensures key in s.items ==> key in UpsertItems(s.items, id, payload) && UpsertItems(s.items, id, payload)[key] == s.items[key]
    {
      UpsertedItem(s.items, id, payload, key);
    }
  }

  // ---------------------------------------------------------------- repeated issues in seven days

  datatype Scope = FullTenant | Sites(allowed: set<string>)

  predicate InScope(c: Check, ref: Reference, scope: Scope) {
    scope.FullTenant?
    || (c.siteId.Some? && c.siteId.value in scope.allowed)
    || (c.siteId.None? && c.vehicleId in ref.vehicles && ref.vehicles[c.vehicleId].siteId.Some?
        && ref.vehicles[c.vehicleId].siteId.value in scope.allowed)
  }

  predicate HasIssue(s: Store, id: nat) {
    exists key :: key in s.items && key.0 == id && s.items[key].status.NotOk?
  }

  predicate InWindow(c: Check, anchor: int) { anchor - 6 <= c.checkDate <= anchor }

  /** The checks the list page counts for a vehicle: any status. */
  function ListedIssues(s: Store, ref: Reference, tenantId: string, scope: Scope, anchor: int, vehicleId: string): set<nat> {
    set i: nat | i < |s.checks| && s.checks[i].tenantId == tenantId && InScope(s.checks[i], ref, scope)
      && InWindow(s.checks[i], anchor) && HasIssue(s, i) && s.checks[i].vehicleId == vehicleId
  }

  /** The checks the alerts count for a vehicle: submitted ones. */
  function AlertedIssues(s: Store, ref: Reference, tenantId: string, scope: Scope, anchor: int, vehicleId: string): set<nat> {
    set i: nat | i < |s.checks| && s.checks[i].tenantId == tenantId && InScope(s.checks[i], ref, scope)
      && InWindow(s.checks[i], anchor) && s.checks[i].status.Submitted? && HasIssue(s, i) && s.checks[i].vehicleId == vehicleId
  }

  /** groupBy vehicle with a count: vehicles without a row are absent. */
  ghost function GroupCounts(checks: seq<Check>, rows: string -> set<nat>): map<string, nat> {
    map v | v in (set i | 0 <= i < |checks| :: checks[i].vehicleId) && rows(v) != {} :: |rows(v)|
  }

  ghost predicate CountsAgree(s: Store) {
    forall ref: Reference, tenantId: string, scope: Scope, anchor: int ::
      ListCounts(s, ref, tenantId, scope, anchor) == AlertCounts(s, ref, tenantId, scope, anchor)
  }

  ghost function ListCounts(s: Store, ref: Reference, tenantId: string, scope: Scope, anchor: int): map<string, nat> {
    GroupCounts(s.checks, v => ListedIssues(s, ref, tenantId, scope, anchor, v))
  }

  ghost function AlertCounts(s: Store, ref: Reference, tenantId: string, scope: Scope, anchor: int): map<string, nat> {
    GroupCounts(s.checks, v => AlertedIssues(s, ref, tenantId, scope, anchor, v))
  }

  lemma SubsetOfEqualSize(a: set<nat>, b: set<nat>)
    requires a <= b && |a| == |b|
    ensures a == b
  {
    assert b == a + (b - a);
  }

  /** The two counts agree for every tenant, scope and date exactly when no draft has an item marked not OK. */
  lemma CountsAgreeIff(s: Store)
    ensures CountsAgree(s) <==> forall i :: 0 <= i < |s.checks| && s.checks[i].status.Draft? ==> !HasIssue(s, i)
  {
    if forall i :: 0 <= i < |s.checks| && s.checks[i].status.Draft? ==> !HasIssue(s, i) {
      forall ref: Reference, tenantId: string, scope: Scope, anchor: int
        ensures ListCounts(s, ref, tenantId, scope, anchor) == AlertCounts(s, ref, tenantId, scope, anchor)
      {
        forall v ensures ListedIssues(s, ref, tenantId, scope, anchor, v) == AlertedIssues(s, ref, tenantId, scope, anchor, v) {}
      }
    } else if CountsAgree(s) {
      var i :| 0 <= i < |s.checks| && s.checks[i].status.Draft? && HasIssue(s, i);
      var c, ref := s.checks[i], Reference(map[], map[], map[], {});
      var listed := ListedIssues(s, ref, c.tenantId, FullTenant, c.checkDate, c.vehicleId);
      var alerted := AlertedIssues(s, ref, c.tenantId, FullTenant, c.checkDate, c.vehicleId);
      assert i in listed && i !in alerted && alerted <= listed;
      assert ListCounts(s, ref, c.tenantId, FullTenant, c.checkDate)[c.vehicleId] == |listed|;
      assert c.vehicleId in AlertCounts(s, ref, c.tenantId, FullTenant, c.checkDate);
      SubsetOfEqualSize(alerted, listed);
    }
  }

  /** Hence the list page and the alerts show the same repeated-issue counts after any run. */
  lemma CountsAgreeAfterAnyRun(steps: seq<Step>)
    ensures CountsAgree(RunFrom(Store([], map[]), steps))
  {
    RunKeepsInv(Store([], map[]), steps);
    CountsAgreeIff(RunFrom(Store([], map[]), steps));
  }

  // ---------------------------------------------------------------- what is counted

  /** On day `d` a submitted check of the vehicle within the reader's scope marked some item not OK. */
  ghost predicate DayWithIssue(s: Store, ref: Reference, tenantId: string, scope: Scope, vehicleId: string, d: int) {
    exists i, code :: 0 <= i < |s.checks| && (i, code) in s.items && s.items[(i, code)].status.NotOk?
      && s.checks[i].tenantId == tenantId && s.checks[i].vehicleId == vehicleId && s.checks[i].checkDate == d
      && s.checks[i].status.Submitted? && Visible(s.checks[i], ref, scope)
  }

  /** A reader of some sites sees the checks of these sites, and those without a site by the vehicle's site. */
  predicate Visible(c: Check, ref: Reference, scope: Scope) {
    scope.Sites? ==>
      || (c.siteId.Some? && c.siteId.value in scope.allowed)
      || (c.siteId.None? && c.vehicleId in ref.vehicles && ref.vehicles[c.vehicleId].siteId.Some?
          && ref.vehicles[c.vehicleId].siteId.value in scope.allowed)
  }

  /** The days of the week that ends with the anchor. */
  function Week(anchor: int): set<int> {
    {anchor - 6, anchor - 5, anchor - 4, anchor - 3, anchor - 2, anchor - 1, anchor}
  }

  ghost function DaysWithIssue(s: Store, ref: Reference, tenantId: string, scope: Scope, anchor: int, vehicleId: string): set<int> {
    set d | d in Week(anchor) && DayWithIssue(s, ref, tenantId, scope, vehicleId, d)
  }

  ghost function DateOf(s: Store): nat -> int { (i: nat) => if i < |s.checks| then s.checks[i].checkDate else 0 }

  lemma {:induction false} SameSize(ids: set<nat>, f: nat -> int)
    requires forall i, j :: i in ids && j in ids && f(i) == f(j) ==> i == j
    ensures |set i | i in ids :: f(i)| == |ids|
  {
    if ids != {} {
      var i :| i in ids;
      SameSize(ids - {i}, f);
      var rest := set j | j in ids - {i} :: f(j);
      assert (set j | j in ids :: f(j)) == rest + {f(i)};
      assert f(i) !in rest;
    }
  }

  lemma CountedIff(s: Store, ref: Reference, tenantId: string, scope: Scope, anchor: int, vehicleId: string, d: int)
    ensures (exists i :: i in AlertedIssues(s, ref, tenantId, scope, anchor, vehicleId) && s.checks[i].checkDate == d)
      <==> d in DaysWithIssue(s, ref, tenantId, scope, anchor, vehicleId)
  {
    if i :| i in AlertedIssues(s, ref, tenantId, scope, anchor, vehicleId) && s.checks[i].checkDate == d {
      var key :| key in s.items && key.0 == i && s.items[key].status.NotOk?;
      assert (i, key.1) in s.items;
      assert d in Week(anchor);
    }
    if d in DaysWithIssue(s, ref, tenantId, scope, anchor, vehicleId) {
      var i, code :| 0 <= i < |s.checks| && (i, code) in s.items && s.items[(i, code)].status.NotOk?
        && s.checks[i].tenantId == tenantId && s.checks[i].vehicleId == vehicleId && s.checks[i].checkDate == d
        && s.checks[i].status.Submitted? && Visible(s.checks[i], ref, scope);
      assert HasIssue(s, i);
    }
  }

  /** After any run the repeated-issue count of a vehicle is the number of days of the week on which a submission for
      it marked something not OK, at most seven; a vehicle without such a day has no count. */
  lemma CountIsDays(steps: seq<Step>, ref: Reference, tenantId: string, scope: Scope, anchor: int, vehicleId: string)
    ensures var s := RunFrom(Store([], map[]), steps);
      var counts, days := AlertCounts(s, ref, tenantId, scope, anchor), DaysWithIssue(s, ref, tenantId, scope, anchor, vehicleId);
      && (vehicleId in counts <==> days != {})
      && (vehicleId in counts ==> counts[vehicleId] == |days| <= 7)
  {
    var s := RunFrom(Store([], map[]), steps);
    RunKeepsInv(Store([], map[]), steps);
    DaysOfIssues(s, ref, tenantId, scope, anchor, vehicleId);
    var ids := AlertedIssues(s, ref, tenantId, scope, anchor, vehicleId);
    if i :| i in ids {
      assert s.checks[i].vehicleId == vehicleId;
    }
  }

  lemma DaysOfIssues(s: Store, ref: Reference, tenantId: string, scope: Scope, anchor: int, vehicleId: string)
    requires Inv(s)
    ensures var ids, days := AlertedIssues(s, ref, tenantId, scope, anchor, vehicleId), DaysWithIssue(s, ref, tenantId, scope, anchor, vehicleId);
      |ids| == |days| <= 7 && (ids == {} <==> days == {})
  {
    var ids := AlertedIssues(s, ref, tenantId, scope, anchor, vehicleId);
    SameSize(ids, DateOf(s));
    var dates := set i | i in ids :: DateOf(s)(i);
    forall d ensures d in dates <==> d in DaysWithIssue(s, ref, tenantId, scope, anchor, vehicleId) {
      CountedIff(s, ref, tenantId, scope, anchor, vehicleId, d);
    }
    assert dates == DaysWithIssue(s, ref, tenantId, scope, anchor, vehicleId);
    WeekIsSeven(anchor, dates);
  }

  lemma WeekIsSeven(anchor: int, dates: set<int>)
    requires dates <= Week(anchor)
    ensures |dates| <= 7
  {
    assert Week(anchor) == dates + (Week(anchor) - dates);
  }
}
