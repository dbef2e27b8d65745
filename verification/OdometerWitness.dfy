/** Two concrete runs in which the client accepts a reading lower than an earlier one. */
module OdometerWitness {
  import opened Common
  import opened OdometerClient
  import opened OdometerIndex
  import opened VehicleList

  const TENANT := "t"
  const V_ACTIVE := [Vehicle("v", TENANT, 1, true)]
  const V_INACTIVE := [Vehicle("v", TENANT, 1, false)]

  function CheckRow(vehicleId: string, km: int, at: int): AuditRow {
    AuditRow(TENANT, "DRIVER_DAILY_CHECK_CREATED", at, Fields(Some(vehicleId), Some(km)))
  }

  /** A check for the selected vehicle v, with nothing shown beside it. */
  function CheckOfV(fleet: seq<Vehicle>, km: int, at: int): Submission {
    Submission(ChecklistSubmission, fleet, "v", None, "v", Number(km), at, 0)
  }

  lemma OneVehicle(u: Vehicle)
    ensures KeysHold([u]) && (Listable([u], TENANT, u.id) <==> Offered(u, TENANT))
  {
    if Offered(u, TENANT) {
      assert u in [u] && Ahead([u], TENANT, u) == {};
    }
  }

  // ---------------------------------------------------------------- the forgotten reading

  /** 500 checks of another vehicle. */
  function OtherChecks(): seq<AuditRow> { seq(AUDIT_PAGE, k => CheckRow("w", k, k + 1)) }

  /** 1000 km is read for v, 500 checks of w follow, and then 5 km is read for v. */
  function Run(): seq<Event> {
    [Submit(CheckOfV(V_ACTIVE, 1000, 0)), Others([], OtherChecks()), Submit(CheckOfV(V_ACTIVE, 5, 501))]
  }

  function Logged(): seq<AuditRow> { [CheckRow("v", 1000, 0)] + OtherChecks() }

  function Below(n: nat): set<nat> { if n == 0 then {} else Below(n - 1) + {n - 1} }

  lemma {:induction false} BelowHolds(n: nat)
    ensures |Below(n)| == n && forall i :: i in Below(n) <==> 0 <= i < n
  {
    if n > 0 {
      BelowHolds(n - 1);
    }
  }

  lemma AllMatch(audit: seq<AuditRow>)
    requires forall i :: 0 <= i < |audit| ==> AuditMatches(audit[i], TENANT)
    ensures |AuditIds(audit, TENANT)| == |audit|
  {
    BelowHolds(|audit|);
    assert AuditIds(audit, TENANT) == Below(|audit|);
  }

  lemma LoggedRows()
    ensures |Logged()| == AUDIT_PAGE + 1 && Logged()[0] == CheckRow("v", 1000, 0)
    ensures forall i :: 1 <= i < |Logged()| ==> Logged()[i] == CheckRow("w", i - 1, i)
    ensures |AuditIds(Logged(), TENANT)| == AUDIT_PAGE + 1
  {
    assert forall i :: 1 <= i < |Logged()| ==> Logged()[i] == OtherChecks()[i - 1];
    AllMatch(Logged());
  }

  /** The newest 500 rows: all but the first. */
  function NewestRows(): seq<nat> { seq(AUDIT_PAGE, k requires 0 <= k < AUDIT_PAGE => AUDIT_PAGE - k) }

  lemma NewestRowsAreThePage(audit: seq<AuditRow>)
    requires |audit| == AUDIT_PAGE + 1 && |AuditIds(audit, TENANT)| == AUDIT_PAGE + 1
    requires forall i :: 0 <= i < |audit| ==> AuditMatches(audit[i], TENANT) && audit[i].createdAt == i
    ensures IsAuditPage(audit, TENANT, NewestRows())
  {
    var page := NewestRows();
    forall i | 1 <= i <= AUDIT_PAGE ensures i in page {
      assert page[AUDIT_PAGE - i] == i;
    }
  }

  /** A page of rows that read other vehicles says nothing of v. */
  lemma NothingShown(t: Tables, vehicleIds: seq<string>, page: seq<nat>)
    requires "v" in vehicleIds && t.fuel == [] && IsAuditPage(t.audit, TENANT, page)
    requires forall k :: 0 <= k < |page| ==> page[k] < |t.audit| && !ReadsVehicle(t.audit[page[k]], "v")
    ensures Shows(t, TENANT, vehicleIds, "v", None)
  {
    ChecklistReadingIsFirst(PageRows(t.audit, page), vehicleIds, "v");
    assert IsLatestFuel(t.fuel, TENANT, vehicleIds, []);
    assert Previous([], PageRows(t.audit, page), vehicleIds, "v") == None;
  }

  /** With nothing to show for the active v, any reading is taken. */
  lemma TakenIf(t: Tables, page: seq<nat>, km: nat, at: int)
    requires t.fuel == [] && IsAuditPage(t.audit, TENANT, page) && Later(t, at)
    requires forall k :: 0 <= k < |page| ==> page[k] < |t.audit| && !ReadsVehicle(t.audit[page[k]], "v")
    ensures Taken(t, TENANT, CheckOfV(V_ACTIVE, km, at))
  {
    OneVehicle(V_ACTIVE[0]);
    NothingShownByClient(t, V_ACTIVE, page);
  }

  lemma NothingShownByClient(t: Tables, fleet: seq<Vehicle>, page: seq<nat>)
    requires KeysHold(fleet) && Listable(fleet, TENANT, "v")
    requires t.fuel == [] && IsAuditPage(t.audit, TENANT, page)
    requires forall k :: 0 <= k < |page| ==> page[k] < |t.audit| && !ReadsVehicle(t.audit[page[k]], "v")
    ensures ClientShows(t, TENANT, fleet, "v", None)
  {
    ListedIff(fleet, TENANT, "v");
    NothingShown(t, ListedIds(fleet, TENANT), page);
    ClientShowsIff(t, TENANT, fleet, "v", None);
  }

  lemma EmptyPage(t: Tables, tenantId: string)
    requires t.audit == []
    ensures IsAuditPage(t.audit, tenantId, [])
  {
    assert AuditIds(t.audit, tenantId) == {};
  }

  lemma FirstIsTaken(km: nat)
    ensures Taken(Tables([], []), TENANT, CheckOfV(V_ACTIVE, km, 0))
  {
    EmptyPage(Tables([], []), TENANT);
    TakenIf(Tables([], []), [], km, 0);
  }

  lemma ForgottenAllowsLower(km: nat)
    ensures Taken(Tables([], Logged()), TENANT, CheckOfV(V_ACTIVE, km, 501))
  {
    LoggedRows();
    NewestRowsAreThePage(Logged());
    assert forall k :: 0 <= k < AUDIT_PAGE ==> NewestRows()[k] == AUDIT_PAGE - k;
    TakenIf(Tables([], Logged()), NewestRows(), km, 501);
  }

  lemma OneEvent(t: Tables, a: Event, rest: seq<Event>)
    requires a.Submit? ==> Taken(t, TENANT, a.s)
    requires TakenRun(Next(t, TENANT, a), TENANT, rest)
    ensures TakenRun(t, TENANT, [a] + rest)
  {
    assert ([a] + rest)[1..] == rest;
  }

  lemma ThreeEvents(t: Tables, a: Submission, b: Event, c: Submission)
    requires Taken(t, TENANT, a) && b.Others?
    requires Taken(Next(Record(t, TENANT, a), TENANT, b), TENANT, c)
    ensures TakenRun(t, TENANT, [Submit(a), b, Submit(c)])
  {
    var t1 := Next(t, TENANT, Submit(a));
    var t2 := Next(t1, TENANT, b);
    OneEvent(t2, Submit(c), []);
    assert [Submit(c)] + [] == [Submit(c)] && [b] + [Submit(c)] == [b, Submit(c)];
    OneEvent(t1, b, [Submit(c)]);
    OneEvent(t, Submit(a), [b, Submit(c)]);
    assert [Submit(a)] + [b, Submit(c)] == [Submit(a), b, Submit(c)];
  }

  /** Both readings pass the check, although the second is lower: the first has left the page. */
  lemma LowerReadingIsTaken()
    ensures TakenRun(Tables([], []), TENANT, Run())
    ensures Run()[0].s.vehicleId == Run()[2].s.vehicleId && Run()[2].s.input.km < Run()[0].s.input.km
  {
    FirstIsTaken(1000);
    TablesBefore();
    ForgottenAllowsLower(5);
    ThreeEvents(Tables([], []), CheckOfV(V_ACTIVE, 1000, 0), Others([], OtherChecks()), CheckOfV(V_ACTIVE, 5, 501));
  }

  lemma TablesBefore()
    ensures Next(Record(Tables([], []), TENANT, CheckOfV(V_ACTIVE, 1000, 0)), TENANT, Others([], OtherChecks()))
      == Tables([], Logged())
  {
    assert [] + [CheckRow("v", 1000, 0)] == [CheckRow("v", 1000, 0)];
  }

  /** The run is none of the runs for which readings never decrease: v is listed and the others' rows spare it,
      but its newest reading was not kept. */
  lemma NotKept()
    ensures Spares(Run()[1], "v") && !NewestKept(Tables([], Logged()), TENANT, "v")
    ensures Listable(V_ACTIVE, TENANT, "v")
  {
    var t := Tables([], Logged());
    LoggedRows();
    OneVehicle(V_ACTIVE[0]);
    assert Logged()[0] in Logged();
    assert CurrentAt(t, TENANT, "v", 1000, 0);
    var rivals := Rivals(t.audit, TENANT, "v", 0);
    assert rivals == AuditIds(Logged(), TENANT) - {0};
  }

  // ---------------------------------------------------------------- the vehicle that is not listed

  /** 1000 km is read for v; then v is made inactive, and 5 km is read for it. */
  function UnlistedRun(): seq<Event> {
    [Submit(CheckOfV(V_ACTIVE, 1000, 0)), Submit(CheckOfV(V_INACTIVE, 5, 1))]
  }

  function OneCheck(): Tables { Tables([], [CheckRow("v", 1000, 0)]) }

  lemma AfterOneCheck()
    ensures Record(Tables([], []), TENANT, CheckOfV(V_ACTIVE, 1000, 0)) == OneCheck()
  {
    assert [] + [CheckRow("v", 1000, 0)] == [CheckRow("v", 1000, 0)];
  }

  /** Both readings pass the check, although the second is lower and the first is kept: v is not listed. */
  lemma UnlistedReadingIsTaken()
    ensures TakenRun(Tables([], []), TENANT, UnlistedRun())
    ensures UnlistedRun()[0].s.vehicleId == UnlistedRun()[1].s.vehicleId
    ensures UnlistedRun()[1].s.input.km < UnlistedRun()[0].s.input.km
    ensures NewestKept(OneCheck(), TENANT, "v") && Current(OneCheck(), TENANT, "v", 1000)
  {
    UnlistedRunIsTaken();
    OneCheckIsCurrent();
  }

  lemma UnlistedRunIsTaken()
    ensures TakenRun(Tables([], []), TENANT, UnlistedRun())
  {
    FirstIsTaken(1000);
    AfterOneCheck();
    UnlistedAllowsLower(5);
    TwoEvents(Tables([], []), CheckOfV(V_ACTIVE, 1000, 0), CheckOfV(V_INACTIVE, 5, 1));
  }

  lemma OneCheckIsCurrent()
    ensures NewestKept(OneCheck(), TENANT, "v") && Current(OneCheck(), TENANT, "v", 1000)
  {
    NoRivals(OneCheck(), "v");
    AfterOneCheck();
    RecordMakesCurrent(Tables([], []), TENANT, CheckOfV(V_ACTIVE, 1000, 0));
  }

  lemma UnlistedAllowsLower(km: nat)
    ensures Taken(OneCheck(), TENANT, CheckOfV(V_INACTIVE, km, 1))
  {
    OneVehicle(V_INACTIVE[0]);
    AnyReadingIsTaken(OneCheck(), TENANT, CheckOfV(V_INACTIVE, km, 1), km);
  }

  lemma TwoEvents(t: Tables, a: Submission, c: Submission)
    requires Taken(t, TENANT, a) && Taken(Record(t, TENANT, a), TENANT, c)
    ensures TakenRun(t, TENANT, [Submit(a), Submit(c)])
  {
    OneEvent(Next(t, TENANT, Submit(a)), Submit(c), []);
    assert [Submit(c)] + [] == [Submit(c)] && [Submit(a)] + [Submit(c)] == [Submit(a), Submit(c)];
    OneEvent(t, Submit(a), [Submit(c)]);
  }

  lemma NoRivals(t: Tables, v: string)
    requires forall i :: 0 <= i < |t.audit| ==> ReadsVehicle(t.audit[i], v)
    ensures NewestKept(t, TENANT, v)
  {
    forall at: int ensures Rivals(t.audit, TENANT, v, at) == {} {}
  }
}
