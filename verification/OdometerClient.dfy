/** The check of an odometer reading in the driver app (odometer-workflow.ts) against what a refresh showed,
    and runs of submissions that passed it. */
module OdometerClient {
  import opened Common
  import opened OdometerIndex
  import opened VehicleList

  datatype OdometerInput = Blank | NotANumber | Number(km: int)

  datatype InputError = Required | Invalid | LowerThanPrevious

  function ValidateOdometer(input: OdometerInput, previous: Option<int>): Option<InputError> {
    match input
    case Blank => Some(Required)
    case NotANumber => Some(Invalid)
    case Number(km) =>
      if km < 0 then Some(Invalid)
      else if previous.Some? && km < previous.value then Some(LowerThanPrevious)
      else None
  }

  /** A reading passes exactly if it is a number, not negative, and not below what is shown; each error has its own cause. */
  lemma ErrorsAre(input: OdometerInput, previous: Option<int>)
    ensures var e := ValidateOdometer(input, previous);
      && (e.None? <==> input.Number? && input.km >= 0 && (previous.None? || previous.value <= input.km))
      && (e == Some(Required) <==> input.Blank?)
      && (e == Some(Invalid) <==> input.NotANumber? || (input.Number? && input.km < 0))
      && (e == Some(LowerThanPrevious) <==> input.Number? && 0 <= input.km && previous.Some? && input.km < previous.value)
  {}

  // ---------------------------------------------------------------- what the client is shown

  datatype VehicleOption = VehicleOption(id: string, previousOdometerKm: Option<int>)

  function FindOption(items: seq<VehicleOption>, id: string): Option<VehicleOption> {
    if items == [] then None
    else if items[0].id == id then Some(items[0])
    else FindOption(items[1..], id)
  }

  /** Nothing for no vehicle, and nothing for a vehicle that is not among the items. */
  function GetPreviousOdometerKm(items: seq<VehicleOption>, selected: string): Option<int> {
    if selected == "" then None
    else
      var found := FindOption(items, selected);
      if found.None? then None else found.value.previousOdometerKm
  }

  function OptionFor(fuelRows: seq<FuelRow>, auditRows: seq<AuditRow>, vehicleIds: seq<string>): string -> VehicleOption {
    (v: string) => VehicleOption(v, Previous(fuelRows, auditRows, vehicleIds, v))
  }

  function Items(fuelRows: seq<FuelRow>, auditRows: seq<AuditRow>, vehicleIds: seq<string>): seq<VehicleOption> {
    Map(OptionFor(fuelRows, auditRows, vehicleIds), vehicleIds)
  }

  /** The odometer beside the selected vehicle after a refresh, whatever the database makes of equal times. */
  ghost predicate ClientShows(t: Tables, tenantId: string, fleet: seq<Vehicle>, selected: string, shown: Option<int>) {
    exists fuelAnswer, page :: Refreshed(t, tenantId, ListedIds(fleet, tenantId), selected, shown, fuelAnswer, page)
  }

  ghost predicate Refreshed(
    t: Tables, tenantId: string, vehicleIds: seq<string>, selected: string, shown: Option<int>,
    fuelAnswer: seq<FuelRow>, page: seq<nat>)
  {
    && IsLatestFuel(t.fuel, tenantId, vehicleIds, fuelAnswer) && IsAuditPage(t.audit, tenantId, page)
    && shown == GetPreviousOdometerKm(Items(fuelAnswer, PageRows(t.audit, page), vehicleIds), selected)
  }

  lemma {:induction false} FindFirst(items: seq<VehicleOption>, id: string)
    ensures FindOption(items, id).None? <==> forall k :: 0 <= k < |items| ==> items[k].id != id
    ensures FindOption(items, id).Some? ==> FindOption(items, id).value in items && FindOption(items, id).value.id == id
  {
    if items != [] {
      FindFirst(items[1..], id);
      assert forall k :: 1 <= k < |items| ==> items[k] == items[1..][k - 1];
    }
  }

  lemma ShownFor(fuelRows: seq<FuelRow>, auditRows: seq<AuditRow>, vehicleIds: seq<string>, selected: string)
    ensures GetPreviousOdometerKm(Items(fuelRows, auditRows, vehicleIds), selected)
      == if selected != "" && selected in vehicleIds then Previous(fuelRows, auditRows, vehicleIds, selected) else None
  {
    var items := Items(fuelRows, auditRows, vehicleIds);
    FindFirst(items, selected);
    if k :| 0 <= k < |vehicleIds| && vehicleIds[k] == selected {
      assert items[k].id == selected;
    }
  }

  /** For a listed vehicle the client shows what the index holds; for any other, and for none, it shows nothing. */
  lemma ClientShowsIff(t: Tables, tenantId: string, fleet: seq<Vehicle>, selected: string, shown: Option<int>)
    requires KeysHold(fleet)
    ensures ClientShows(t, tenantId, fleet, selected, shown)
      <==> if selected != "" && Listable(fleet, tenantId, selected)
           then Shows(t, tenantId, ListedIds(fleet, tenantId), selected, shown) else shown.None?
  {
    var ids := ListedIds(fleet, tenantId);
    ListedIff(fleet, tenantId, selected);
    if fuelAnswer, page :| Refreshed(t, tenantId, ids, selected, shown, fuelAnswer, page) {
      ShownFor(fuelAnswer, PageRows(t.audit, page), ids, selected);
    }
    if selected != "" && selected in ids {
      if Shows(t, tenantId, ids, selected, shown) {
        var fuelAnswer, page :| IsLatestFuel(t.fuel, tenantId, ids, fuelAnswer) && IsAuditPage(t.audit, tenantId, page)
          && shown == Previous(fuelAnswer, PageRows(t.audit, page), ids, selected);
        ShownFor(fuelAnswer, PageRows(t.audit, page), ids, selected);
        assert Refreshed(t, tenantId, ids, selected, shown, fuelAnswer, page);
      }
    } else if shown.None? {
      var fuelAnswer := FuelAnswerExists(t.fuel, tenantId, ids);
      var page := PageWithLast(t.audit, tenantId, (i: nat) => false);
      ShownFor(fuelAnswer, PageRows(t.audit, page), ids, selected);
      assert Refreshed(t, tenantId, ids, selected, shown, fuelAnswer, page);
    }
  }

  // ---------------------------------------------------------------- when the check protects

  /** A vehicle is selected, the list offers it, and the page is sure to hold its newest reading. */
  ghost predicate Protected(t: Tables, tenantId: string, fleet: seq<Vehicle>, selected: string) {
    selected != "" && Listable(fleet, tenantId, selected) && NewestKept(t, tenantId, selected)
  }

  /** While the vehicle is listed and its newest reading kept, a refresh shows that reading. */
  lemma RefreshShowsCurrent(
    t: Tables, tenantId: string, fleet: seq<Vehicle>, selected: string, x: int, shown: Option<int>)
    requires KeysHold(fleet) && ClientShows(t, tenantId, fleet, selected, shown)
    requires Current(t, tenantId, selected, x) && Protected(t, tenantId, fleet, selected)
    ensures shown == Some(x)
  {
    ClientShowsIff(t, tenantId, fleet, selected, shown);
    ListedIff(fleet, tenantId, selected);
    KeptIsShown(t, tenantId, ListedIds(fleet, tenantId), selected, x, shown);
  }

  /** Some reading below `x` may pass the check after a refresh. */
  ghost predicate LowerMayPass(t: Tables, tenantId: string, fleet: seq<Vehicle>, selected: string, x: int) {
    exists shown, km: int :: ClientShows(t, tenantId, fleet, selected, shown) && PassesBelow(km, shown, x)
  }

  predicate PassesBelow(km: int, shown: Option<int>, x: int) {
    ValidateOdometer(Number(km), shown).None? && km < x
  }

  /** Something passes below a positive `x` exactly if nothing as high is shown. */
  lemma PassesBelowIff(shown: Option<int>, x: int)
    requires x > 0
    ensures (exists km: int :: PassesBelow(km, shown, x)) <==> (shown.Some? ==> shown.value < x)
  {
    var km := if shown.Some? && shown.value > 0 then shown.value else 0;
    if shown.Some? ==> shown.value < x {
      assert PassesBelow(km, shown, x);
    }
  }

  /** Vehicle `v` has a newest reading above zero and above its earlier ones. A lower one for it may pass the check
      exactly if no vehicle is selected, or the list does not offer it, or its newest reading is not kept. */
  lemma LowerMayPassIff(
    t: Tables, tenantId: string, fleet: seq<Vehicle>, selected: string, v: string, x: int, at: int)
    requires KeysHold(fleet) && (selected == "" || selected == v)
    requires CurrentAt(t, tenantId, v, x, at) && ExceedsEarlier(t, tenantId, v, x, at) && x > 0
    ensures LowerMayPass(t, tenantId, fleet, selected, x) <==> !Protected(t, tenantId, fleet, selected)
  {
    if Protected(t, tenantId, fleet, selected) {
      forall shown | ClientShows(t, tenantId, fleet, selected, shown) ensures !exists km: int :: PassesBelow(km, shown, x) {
        RefreshShowsCurrent(t, tenantId, fleet, selected, x, shown);
        PassesBelowIff(shown, x);
      }
    } else {
      var shown := MayShowLower(t, tenantId, fleet, selected, v, x, at);
      PassesBelowIff(shown, x);
    }
  }

  lemma MayShowLower(
    t: Tables, tenantId: string, fleet: seq<Vehicle>, selected: string, v: string, x: int, at: int)
    returns (shown: Option<int>)
    requires KeysHold(fleet) && (selected == "" || selected == v) && !Protected(t, tenantId, fleet, selected)
    requires CurrentAt(t, tenantId, v, x, at) && ExceedsEarlier(t, tenantId, v, x, at)
    ensures ClientShows(t, tenantId, fleet, selected, shown) && (shown.Some? ==> shown.value < x)
  {
    shown := None;
    if selected != "" && Listable(fleet, tenantId, selected) {
      NotKeptAt(t, tenantId, v, x, at);
      ListedIff(fleet, tenantId, v);
      shown := UnkeptMayShowLower(t, tenantId, ListedIds(fleet, tenantId), v, x, at);
    }
    ClientShowsIff(t, tenantId, fleet, selected, shown);
  }

  /** A vehicle has one newest reading, so if that is not kept it has 500 rivals. */
  lemma NotKeptAt(t: Tables, tenantId: string, v: string, x: int, at: int)
    requires CurrentAt(t, tenantId, v, x, at) && !NewestKept(t, tenantId, v)
    ensures !FuelReadingAt(t, tenantId, v, at) && |Rivals(t.audit, tenantId, v, at)| >= AUDIT_PAGE
  {
    var y, when :| CurrentAt(t, tenantId, v, y, when)
      && !FuelReadingAt(t, tenantId, v, when) && |Rivals(t.audit, tenantId, v, when)| >= AUDIT_PAGE;
    assert when == at;
  }

  // ---------------------------------------------------------------- runs

  datatype Kind = FuelSubmission | ChecklistSubmission

  /** A submission of one reading: the vehicles at the refresh before it, the vehicle selected, what was shown
      beside it, and the vehicle the reading is stored for. */
  datatype Submission = Submission(
    kind: Kind, fleet: seq<Vehicle>, selected: string, shown: Option<int>, vehicleId: string,
    input: OdometerInput, at: int, entryDate: int)

  function Record(t: Tables, tenantId: string, s: Submission): Tables
    requires s.input.Number?
  {
    match s.kind
    case FuelSubmission => t.(fuel := t.fuel + [FuelRow(tenantId, s.vehicleId, Some(s.input.km), s.at, s.entryDate)])
    case ChecklistSubmission =>
      t.(audit := t.audit + [AuditRow(tenantId, "DRIVER_DAILY_CHECK_CREATED", s.at,
        Fields(Some(s.vehicleId), Some(s.input.km)))])
  }

  ghost predicate Later(t: Tables, at: int) {
    && (forall r :: r in t.fuel ==> r.createdAt < at)
    && (forall r :: r in t.audit ==> r.createdAt < at)
  }

  /** The selected vehicle is the one stored; a checklist without one is stored for the driver's own vehicle. */
  predicate StoredFor(s: Submission) {
    if s.selected == "" then s.kind.ChecklistSubmission? else s.vehicleId == s.selected
  }

  /** The client refreshed, the reading passed the check, and the clock moved on. */
  ghost predicate Taken(t: Tables, tenantId: string, s: Submission) {
    && KeysHold(s.fleet) && ClientShows(t, tenantId, s.fleet, s.selected, s.shown)
    && ValidateOdometer(s.input, s.shown).None? && StoredFor(s) && Later(t, s.at)
  }

  /** A submission of the client, or rows that anyone else adds. */
  datatype Event = Submit(s: Submission) | Others(fuel: seq<FuelRow>, audit: seq<AuditRow>)

  function Next(t: Tables, tenantId: string, e: Event): Tables
    requires e.Submit? ==> e.s.input.Number?
  {
    match e
    case Submit(s) => Record(t, tenantId, s)
    case Others(fuel, audit) => Tables(t.fuel + fuel, t.audit + audit)
  }

  ghost predicate TakenRun(t: Tables, tenantId: string, run: seq<Event>)
    decreases |run|
  {
    run != [] ==> (run[0].Submit? ==> Taken(t, tenantId, run[0].s)) && TakenRun(Next(t, tenantId, run[0]), tenantId, run[1..])
  }

  /** Whenever the client submits for the vehicle, the check protects it. */
  ghost predicate ProtectedRun(t: Tables, tenantId: string, run: seq<Event>, v: string)
    requires TakenRun(t, tenantId, run)
    decreases |run|
  {
    run != [] ==>
      && (run[0].Submit? && run[0].s.vehicleId == v ==> Protected(t, tenantId, run[0].s.fleet, run[0].s.selected))
      && ProtectedRun(Next(t, tenantId, run[0]), tenantId, run[1..], v)
  }

  /** What others add is not about the vehicle. */
  ghost predicate Spares(e: Event, v: string) {
    e.Others? ==>
      (forall r :: r in e.fuel ==> r.vehicleId != v) && (forall r :: r in e.audit ==> !ReadsVehicle(r, v))
  }

  /** Whatever was read before, any reading is taken if no vehicle is selected or the list does not offer it. */
  lemma AnyReadingIsTaken(t: Tables, tenantId: string, s: Submission, km: nat)
    requires KeysHold(s.fleet) && StoredFor(s) && Later(t, s.at) && s.input == Number(km)
    requires s.selected == "" || !Listable(s.fleet, tenantId, s.selected)
    ensures s.shown.None? <==> Taken(t, tenantId, s)
  {
    ClientShowsIff(t, tenantId, s.fleet, s.selected, s.shown);
  }

  lemma RecordMakesCurrent(t: Tables, tenantId: string, s: Submission)
    requires s.input.Number? && Later(t, s.at)
    ensures Current(Record(t, tenantId, s), tenantId, s.vehicleId, s.input.km)
  {
    var u := Record(t, tenantId, s);
    if s.kind.FuelSubmission? {
      assert u.fuel[|t.fuel|] in u.fuel;
    } else {
      assert u.audit[|t.audit|] in u.audit;
    }
    assert CurrentAt(u, tenantId, s.vehicleId, s.input.km, s.at);
  }

  lemma RecordKeepsOthers(t: Tables, tenantId: string, s: Submission, v: string, x: int)
    requires s.input.Number? && s.vehicleId != v && Current(t, tenantId, v, x)
    ensures Current(Record(t, tenantId, s), tenantId, v, x)
  {
    var at :| CurrentAt(t, tenantId, v, x, at);
    assert CurrentAt(Record(t, tenantId, s), tenantId, v, x, at);
  }

  lemma OthersKeepCurrent(t: Tables, tenantId: string, e: Event, v: string, x: int)
    requires e.Others? && Spares(e, v) && Current(t, tenantId, v, x)
    ensures Current(Next(t, tenantId, e), tenantId, v, x)
  {
    var at :| CurrentAt(t, tenantId, v, x, at);
    assert CurrentAt(Next(t, tenantId, e), tenantId, v, x, at);
  }

  lemma NotLower(t: Tables, tenantId: string, s: Submission, x: int)
    requires Taken(t, tenantId, s) && Protected(t, tenantId, s.fleet, s.selected) && Current(t, tenantId, s.vehicleId, x)
    ensures s.input.Number? && x <= s.input.km
  {
    RefreshShowsCurrent(t, tenantId, s.fleet, s.selected, x, s.shown);
  }

  /** One event: the newest reading of the vehicle stays or is replaced by one not lower. */
  lemma EventRaises(t: Tables, tenantId: string, e: Event, v: string, x: int) returns (y: int)
    requires e.Submit? ==> Taken(t, tenantId, e.s)
    requires e.Submit? && e.s.vehicleId == v ==> Protected(t, tenantId, e.s.fleet, e.s.selected)
    requires Spares(e, v) && Current(t, tenantId, v, x)
    ensures x <= y && (e.Submit? && e.s.vehicleId == v ==> y == e.s.input.km)
    ensures Current(Next(t, tenantId, e), tenantId, v, y)
  {
    if e.Others? {
      OthersKeepCurrent(t, tenantId, e, v, x);
      y := x;
    } else if e.s.vehicleId == v {
      NotLower(t, tenantId, e.s, x);
      RecordMakesCurrent(t, tenantId, e.s);
      y := e.s.input.km;
    } else {
      RecordKeepsOthers(t, tenantId, e.s, v, x);
      y := x;
    }
  }

  /** Once a reading is the newest of a vehicle, no later one taken while the check protects it is lower. */
  lemma {:induction false} AcceptedAtLeast(t: Tables, tenantId: string, run: seq<Event>, v: string, x: int)
    requires TakenRun(t, tenantId, run) && ProtectedRun(t, tenantId, run, v) && Current(t, tenantId, v, x)
    requires forall k :: 0 <= k < |run| ==> Spares(run[k], v)
    ensures forall k :: 0 <= k < |run| && run[k].Submit? && run[k].s.vehicleId == v ==>
      run[k].s.input.Number? && x <= run[k].s.input.km
    decreases |run|
  {
    if run != [] {
      assert Spares(run[0], v);
      var y := EventRaises(t, tenantId, run[0], v, x);
      AcceptedAtLeast(Next(t, tenantId, run[0]), tenantId, run[1..], v, y);
      forall k | 0 < k < |run| && run[k].Submit? && run[k].s.vehicleId == v
        ensures run[k].s.input.Number? && x <= run[k].s.input.km
      {
        assert run[k] == run[1..][k - 1];
      }
    }
  }

  /** For a client that refreshes after each submission, the readings of a vehicle that are taken while the check
      protects it never decrease, whatever the logs held before and whatever else is added. */
  lemma {:induction false} AcceptedReadingsNeverDecrease(
    t: Tables, tenantId: string, run: seq<Event>, v: string, j: nat, k: nat)
    requires TakenRun(t, tenantId, run) && ProtectedRun(t, tenantId, run, v) && j < k < |run|
    requires run[j].Submit? && run[k].Submit? && run[j].s.vehicleId == v == run[k].s.vehicleId
    requires forall i :: 0 <= i < |run| ==> Spares(run[i], v)
    ensures run[j].s.input.Number? && run[k].s.input.Number? && run[j].s.input.km <= run[k].s.input.km
    decreases |run|
  {
    var u := Next(t, tenantId, run[0]);
    assert forall i :: 0 <= i < |run| - 1 ==> run[1..][i] == run[i + 1];
    if j == 0 {
      RecordMakesCurrent(t, tenantId, run[0].s);
      AcceptedAtLeast(u, tenantId, run[1..], v, run[0].s.input.km);
      assert run[k] == run[1..][k - 1];
    } else {
      AcceptedReadingsNeverDecrease(u, tenantId, run[1..], v, j - 1, k - 1);
    }
  }
}
