/** The previous odometer of each vehicle, merged from the fuel log and the newest audit
    rows (routes/driver.ts), and the client check against it (odometer-workflow.ts). */
module OdometerIndex {
  import opened Common

  const AUDIT_PAGE: nat := 500

  datatype FuelRow = FuelRow(tenantId: string, vehicleId: string, odometerKm: Option<int>, createdAt: int, entryDate: int)

  /** The two fields that are read from a JSON object; None when absent or of another type. */
  datatype Metadata = NotAnObject | Fields(vehicleId: Option<string>, odometerKm: Option<int>)

  datatype AuditRow = AuditRow(tenantId: string, eventType: string, createdAt: int, metadata: Metadata)

  datatype Tables = Tables(fuel: seq<FuelRow>, audit: seq<AuditRow>)

  datatype Reading = Reading(odometerKm: int, createdAt: int)

  // ---------------------------------------------------------------- what the two queries may answer

  predicate FuelMatches(r: FuelRow, tenantId: string, vehicleIds: seq<string>) {
    r.tenantId == tenantId && r.vehicleId in vehicleIds && r.odometerKm.Some?
  }

  predicate NotNewer(a: FuelRow, b: FuelRow) {
    a.createdAt < b.createdAt || (a.createdAt == b.createdAt && a.entryDate <= b.entryDate)
  }

  /** DISTINCT vehicle, newest first: for each vehicle with a reading, one that no other exceeds. */
  ghost predicate IsLatestFuel(fuel: seq<FuelRow>, tenantId: string, vehicleIds: seq<string>, answer: seq<FuelRow>) {
    && (forall k {:trigger Listed(fuel, tenantId, vehicleIds, answer[k])} :: 0 <= k < |answer| ==>
          Listed(fuel, tenantId, vehicleIds, answer[k]))
    && (forall j, k :: 0 <= j < k < |answer| ==> answer[j].vehicleId != answer[k].vehicleId)
    && (forall r :: r in fuel && FuelMatches(r, tenantId, vehicleIds) ==> Represented(r, answer))
  }

  predicate Listed(fuel: seq<FuelRow>, tenantId: string, vehicleIds: seq<string>, r: FuelRow) {
    r in fuel && FuelMatches(r, tenantId, vehicleIds)
  }

  ghost predicate Represented(r: FuelRow, answer: seq<FuelRow>) {
    exists k :: 0 <= k < |answer| && answer[k].vehicleId == r.vehicleId && NotNewer(r, answer[k])
  }

  predicate AuditMatches(r: AuditRow, tenantId: string) {
    r.tenantId == tenantId && r.eventType == "DRIVER_DAILY_CHECK_CREATED"
  }

  function AuditIds(audit: seq<AuditRow>, tenantId: string): set<nat> {
    set i: nat | i < |audit| && AuditMatches(audit[i], tenantId)
  }

  /** The newest 500 matching audit rows, newest first; equal times in any order. */
  ghost predicate IsAuditPage(audit: seq<AuditRow>, tenantId: string, page: seq<nat>) {
    && Distinct(page) && (forall k :: 0 <= k < |page| ==> page[k] in AuditIds(audit, tenantId))
    && |page| == (if |AuditIds(audit, tenantId)| <= AUDIT_PAGE then |AuditIds(audit, tenantId)| else AUDIT_PAGE)
    && (forall j, k :: 0 <= j < k < |page| ==> audit[page[j]].createdAt >= audit[page[k]].createdAt)
    && (forall k, i :: 0 <= k < |page| && i in AuditIds(audit, tenantId) && i !in page ==>
          audit[page[k]].createdAt >= audit[i].createdAt)
  }

  ghost function PageRows(audit: seq<AuditRow>, page: seq<nat>): seq<AuditRow>
    requires forall k :: 0 <= k < |page| ==> page[k] < |audit|
  {
    seq(|page|, k requires 0 <= k < |page| => audit[page[k]])
  }

  // ---------------------------------------------------------------- the two indexes and their merge

  predicate ChecklistReading(r: AuditRow, vehicleIds: seq<string>) {
    && r.metadata.Fields? && r.metadata.vehicleId.Some? && r.metadata.vehicleId.value in vehicleIds
    && r.metadata.odometerKm.Some?
  }

  function FuelReadingOf(rows: seq<FuelRow>, vehicleId: string): Option<Reading> {
    if rows == [] then None
    else
      var last := rows[|rows| - 1];
      if last.vehicleId == vehicleId && last.odometerKm.Some?
      then Some(Reading(last.odometerKm.value, last.createdAt))
      else FuelReadingOf(rows[..|rows| - 1], vehicleId)
  }

  function ChecklistReadingOf(rows: seq<AuditRow>, vehicleIds: seq<string>, vehicleId: string): Option<Reading> {
    if rows == [] then None
    else
      var earlier := ChecklistReadingOf(rows[..|rows| - 1], vehicleIds, vehicleId);
      var last := rows[|rows| - 1];
      if earlier.Some? then earlier
      else if ChecklistReading(last, vehicleIds) && last.metadata.vehicleId.value == vehicleId
      then Some(Reading(last.metadata.odometerKm.value, last.createdAt))
      else None
  }

  function Merge(fromFuel: Option<Reading>, fromChecklist: Option<Reading>): Option<int> {
    if fromFuel.None? && fromChecklist.None? then None
    else if fromFuel.None? then Some(fromChecklist.value.odometerKm)
    else if fromChecklist.None? then Some(fromFuel.value.odometerKm)
    else if fromFuel.value.createdAt >= fromChecklist.value.createdAt then Some(fromFuel.value.odometerKm)
    else Some(fromChecklist.value.odometerKm)
  }

  function Previous(fuelRows: seq<FuelRow>, auditRows: seq<AuditRow>, vehicleIds: seq<string>, vehicleId: string): Option<int> {
    Merge(FuelReadingOf(fuelRows, vehicleId), ChecklistReadingOf(auditRows, vehicleIds, vehicleId))
  }

  /** The handler: one loop per query fills a map, the audit loop skipping vehicles already
      present, and each vehicle takes the newer of its two entries. */
  method PreviousOdometers(vehicleIds: seq<string>, fuelRows: seq<FuelRow>, auditRows: seq<AuditRow>)
    returns (previous: seq<Option<int>>)
    requires forall k :: 0 <= k < |fuelRows| ==> fuelRows[k].odometerKm.Some?
    ensures |previous| == |vehicleIds|
    ensures forall k :: 0 <= k < |vehicleIds| ==> previous[k] == Previous(fuelRows, auditRows, vehicleIds, vehicleIds[k])
  {
    var latestFuel: map<string, Reading> := map[];
    for n := 0 to |fuelRows|
      invariant forall v :: FuelReadingOf(fuelRows[..n], v) == if v in latestFuel then Some(latestFuel[v]) else None
    {
      assert fuelRows[..n + 1][..n] == fuelRows[..n];
      var r := fuelRows[n];
      latestFuel := latestFuel[r.vehicleId := Reading(r.odometerKm.value, r.createdAt)];
    }
    assert fuelRows[..|fuelRows|] == fuelRows;
    var latestChecklist: map<string, Reading> := map[];
    for n := 0 to |auditRows|
      invariant forall v ::
        ChecklistReadingOf(auditRows[..n], vehicleIds, v) == if v in latestChecklist then Some(latestChecklist[v]) else None
    {
      assert auditRows[..n + 1][..n] == auditRows[..n];
      var r := auditRows[n];
      if !ChecklistReading(r, vehicleIds) {
        continue;
      }
      if r.metadata.vehicleId.value in latestChecklist {
        continue;
      }
      latestChecklist := latestChecklist[r.metadata.vehicleId.value := Reading(r.metadata.odometerKm.value, r.createdAt)];
    }
    assert auditRows[..|auditRows|] == auditRows;
    previous := [];
    for n := 0 to |vehicleIds|
      invariant |previous| == n
      invariant forall k :: 0 <= k < n ==> previous[k] == Previous(fuelRows, auditRows, vehicleIds, vehicleIds[k])
    {
      var v := vehicleIds[n];
      previous := previous + [Merge(
        if v in latestFuel then Some(latestFuel[v]) else None,
        if v in latestChecklist then Some(latestChecklist[v]) else None)];
    }
  }

  // ---------------------------------------------------------------- the newest reading of the combined log

  ghost predicate InFuelLog(t: Tables, tenantId: string, v: string, x: Reading) {
    exists r :: r in t.fuel && r.tenantId == tenantId && r.vehicleId == v
      && r.odometerKm == Some(x.odometerKm) && r.createdAt == x.createdAt
  }

  ghost predicate InAuditPage(rows: seq<AuditRow>, v: string, x: Reading) {
    exists k :: 0 <= k < |rows| && ReadsVehicle(rows[k], v)
      && rows[k].metadata.odometerKm == Some(x.odometerKm) && rows[k].createdAt == x.createdAt
  }

  predicate ReadsVehicle(r: AuditRow, v: string) {
    r.metadata.Fields? && r.metadata.vehicleId == Some(v) && r.metadata.odometerKm.Some?
  }

  lemma {:induction false} FuelReadingIsLatest(rows: seq<FuelRow>, v: string)
    requires forall j, k :: 0 <= j < k < |rows| ==> rows[j].vehicleId != rows[k].vehicleId
    requires forall k :: 0 <= k < |rows| ==> rows[k].odometerKm.Some?
    ensures var x := FuelReadingOf(rows, v);
      && (x.Some? <==> exists k :: 0 <= k < |rows| && rows[k].vehicleId == v)
      && (forall k :: 0 <= k < |rows| && rows[k].vehicleId == v ==>
            x == Some(Reading(rows[k].odometerKm.value, rows[k].createdAt)))
  {
    if rows != [] {
      var front := rows[..|rows| - 1];
      FuelReadingIsLatest(front, v);
      assert forall k :: 0 <= k < |front| ==> front[k] == rows[k];
    }
  }

  lemma {:induction false} ChecklistReadingIsFirst(rows: seq<AuditRow>, vehicleIds: seq<string>, v: string)
    requires v in vehicleIds && forall j, k :: 0 <= j < k < |rows| ==> rows[j].createdAt >= rows[k].createdAt
    ensures var x := ChecklistReadingOf(rows, vehicleIds, v);
      && (x.Some? <==> exists k :: 0 <= k < |rows| && ReadsVehicle(rows[k], v))
      && (x.Some? ==> InAuditPage(rows, v, x.value))
      && (forall k :: 0 <= k < |rows| && ReadsVehicle(rows[k], v) ==> rows[k].createdAt <= x.value.createdAt)
  {
    if rows != [] {
      var front, last := rows[..|rows| - 1], rows[|rows| - 1];
      ChecklistReadingIsFirst(front, vehicleIds, v);
      assert forall k :: 0 <= k < |front| ==> front[k] == rows[k];
      var x := ChecklistReadingOf(front, vehicleIds, v);
      if x.Some? {
        var k :| 0 <= k < |front| && ReadsVehicle(front[k], v)
          && front[k].metadata.odometerKm == Some(x.value.odometerKm) && front[k].createdAt == x.value.createdAt;
        assert ReadsVehicle(rows[k], v);
      } else if ReadsVehicle(last, v) {
        assert rows[|rows| - 1] == last;
      }
    }
  }

  /** Fuel wins ties. */
  ghost predicate NewestOf(t: Tables, tenantId: string, rows: seq<AuditRow>, v: string, x: Reading) {
    || (InFuelLog(t, tenantId, v, x)
        && (forall y: Reading :: InFuelLog(t, tenantId, v, y) || InAuditPage(rows, v, y) ==> y.createdAt <= x.createdAt))
    || (InAuditPage(rows, v, x)
        && (forall y: Reading :: InAuditPage(rows, v, y) ==> y.createdAt <= x.createdAt)
        && (forall y: Reading :: InFuelLog(t, tenantId, v, y) ==> y.createdAt < x.createdAt))
  }

  /** `f` is a reading of the fuel log that none exceeds, or the log has none; likewise for the audit page. */
  ghost predicate FuelTop(t: Tables, tenantId: string, v: string, f: Option<Reading>) {
    && (f.Some? ==> InFuelLog(t, tenantId, v, f.value))
    && (forall x: Reading :: InFuelLog(t, tenantId, v, x) ==> f.Some? && x.createdAt <= f.value.createdAt)
  }

  ghost predicate AuditTop(rows: seq<AuditRow>, v: string, c: Option<Reading>) {
    && (c.Some? ==> InAuditPage(rows, v, c.value))
    && (forall x: Reading :: InAuditPage(rows, v, x) ==> c.Some? && x.createdAt <= c.value.createdAt)
  }

  lemma FuelBounded(t: Tables, tenantId: string, vehicleIds: seq<string>, v: string, answer: seq<FuelRow>, x: Reading)
    requires v in vehicleIds && IsLatestFuel(t.fuel, tenantId, vehicleIds, answer) && InFuelLog(t, tenantId, v, x)
    ensures exists k :: 0 <= k < |answer| && answer[k].vehicleId == v && x.createdAt <= answer[k].createdAt
  {
    var r :| r in t.fuel && r.tenantId == tenantId && r.vehicleId == v
      && r.odometerKm == Some(x.odometerKm) && r.createdAt == x.createdAt;
    assert FuelMatches(r, tenantId, vehicleIds) && Represented(r, answer);
    var k :| 0 <= k < |answer| && answer[k].vehicleId == r.vehicleId && NotNewer(r, answer[k]);
    assert x.createdAt <= answer[k].createdAt;
  }

  lemma FuelLogged(t: Tables, tenantId: string, vehicleIds: seq<string>, answer: seq<FuelRow>, k: nat)
    requires IsLatestFuel(t.fuel, tenantId, vehicleIds, answer) && k < |answer|
    ensures answer[k].odometerKm.Some?
    ensures InFuelLog(t, tenantId, answer[k].vehicleId, Reading(answer[k].odometerKm.value, answer[k].createdAt))
  {
    assert Listed(t.fuel, tenantId, vehicleIds, answer[k]);
  }

  lemma FuelSide(t: Tables, tenantId: string, vehicleIds: seq<string>, v: string, answer: seq<FuelRow>)
    requires v in vehicleIds && IsLatestFuel(t.fuel, tenantId, vehicleIds, answer)
    ensures FuelTop(t, tenantId, v, FuelReadingOf(answer, v))
  {
    forall k | 0 <= k < |answer| ensures answer[k].odometerKm.Some? {
      FuelLogged(t, tenantId, vehicleIds, answer, k);
    }
    FuelReadingIsLatest(answer, v);
    if k :| 0 <= k < |answer| && answer[k].vehicleId == v {
      FuelLogged(t, tenantId, vehicleIds, answer, k);
    }
    forall x: Reading | InFuelLog(t, tenantId, v, x)
      ensures FuelReadingOf(answer, v).Some? && x.createdAt <= FuelReadingOf(answer, v).value.createdAt
    {
      FuelBounded(t, tenantId, vehicleIds, v, answer, x);
    }
  }

  lemma ChecklistSide(audit: seq<AuditRow>, tenantId: string, vehicleIds: seq<string>, v: string, page: seq<nat>)
    requires v in vehicleIds && IsAuditPage(audit, tenantId, page)
    ensures AuditTop(PageRows(audit, page), v, ChecklistReadingOf(PageRows(audit, page), vehicleIds, v))
  {
    ChecklistReadingIsFirst(PageRows(audit, page), vehicleIds, v);
  }

  lemma MergeIsNewest(t: Tables, tenantId: string, rows: seq<AuditRow>, v: string, f: Option<Reading>, c: Option<Reading>)
    requires FuelTop(t, tenantId, v, f) && AuditTop(rows, v, c)
    ensures Merge(f, c).None? <==> forall x: Reading :: !InFuelLog(t, tenantId, v, x) && !InAuditPage(rows, v, x)
    ensures Merge(f, c).Some? ==>
      exists x: Reading :: x.odometerKm == Merge(f, c).value && NewestOf(t, tenantId, rows, v, x)
  {
    if f.Some? && (c.None? || f.value.createdAt >= c.value.createdAt) {
      assert NewestOf(t, tenantId, rows, v, f.value);
    } else if c.Some? {
      assert NewestOf(t, tenantId, rows, v, c.value);
    }
  }

  /** The answer is the newest reading of the combined log: a fuel reading that no other reading exceeds, or a
      checklist reading newer than every fuel reading; and none only if there is none. */
  lemma PreviousIsNewest(
    t: Tables, tenantId: string, vehicleIds: seq<string>, v: string, fuelAnswer: seq<FuelRow>, page: seq<nat>)
    requires v in vehicleIds
    requires IsLatestFuel(t.fuel, tenantId, vehicleIds, fuelAnswer) && IsAuditPage(t.audit, tenantId, page)
    ensures var rows := PageRows(t.audit, page);
      var previous := Previous(fuelAnswer, rows, vehicleIds, v);
      && (previous.None? <==> forall x: Reading :: !InFuelLog(t, tenantId, v, x) && !InAuditPage(rows, v, x))
      && (previous.Some? ==> exists x: Reading :: x.odometerKm == previous.value && NewestOf(t, tenantId, rows, v, x))
  {
    var rows := PageRows(t.audit, page);
    FuelSide(t, tenantId, vehicleIds, v, fuelAnswer);
    ChecklistSide(t.audit, tenantId, vehicleIds, v, page);
    MergeIsNewest(t, tenantId, rows, v, FuelReadingOf(fuelAnswer, v), ChecklistReadingOf(rows, vehicleIds, v));
  }

  // ---------------------------------------------------------------- what a refresh may show

  /** What a refresh may show for a vehicle, whatever the database makes of equal times. */
  ghost predicate Shows(t: Tables, tenantId: string, vehicleIds: seq<string>, v: string, shown: Option<int>) {
    exists fuelAnswer, page :: IsLatestFuel(t.fuel, tenantId, vehicleIds, fuelAnswer) && IsAuditPage(t.audit, tenantId, page)
      && shown == Previous(fuelAnswer, PageRows(t.audit, page), vehicleIds, v)
  }

  /** `x` is the one newest reading of the vehicle in the two logs. */
  ghost predicate Current(t: Tables, tenantId: string, v: string, x: int) {
    exists at :: CurrentAt(t, tenantId, v, x, at)
  }

  ghost predicate CurrentAt(t: Tables, tenantId: string, v: string, x: int, at: int) {
    && (forall r :: r in t.fuel && r.tenantId == tenantId && r.vehicleId == v && r.odometerKm.Some? ==>
          r.createdAt < at || (r.createdAt == at && r.odometerKm == Some(x)))
    && (forall r :: r in t.audit && AuditMatches(r, tenantId) && ReadsVehicle(r, v) ==>
          r.createdAt < at || (r.createdAt == at && r.metadata.odometerKm == Some(x)))
    && ((exists r :: r in t.fuel && r.tenantId == tenantId && r.vehicleId == v && r.odometerKm == Some(x) && r.createdAt == at)
        || (exists r :: r in t.audit && AuditMatches(r, tenantId) && ReadsVehicle(r, v)
              && r.metadata.odometerKm == Some(x) && r.createdAt == at))
  }

  // ---------------------------------------------------------------- which rows a page is sure to hold

  /** A page with room holds every matching row. */
  lemma FullPage(audit: seq<AuditRow>, tenantId: string, page: seq<nat>)
    requires IsAuditPage(audit, tenantId, page) && |AuditIds(audit, tenantId)| <= AUDIT_PAGE
    ensures forall i :: i in AuditIds(audit, tenantId) ==> i in page
  {
    DistinctCardinality(page);
    var ids := AuditIds(audit, tenantId);
    assert Elements(page) <= ids;
    assert ids == Elements(page) + (ids - Elements(page));
  }

  lemma SubsetSize(a: set<nat>, b: set<nat>)
    requires a <= b
    ensures |a| <= |b|
  {
    assert b == a + (b - a);
  }

  /** Newer rows first; of rows with one time, those to come last after the others. */
  predicate Prefers(audit: seq<AuditRow>, last: nat -> bool, a: nat, b: nat)
    requires a < |audit| && b < |audit|
  {
    audit[a].createdAt > audit[b].createdAt || (audit[a].createdAt == audit[b].createdAt && (!last(a) || last(b)))
  }

  lemma BestExists(audit: seq<AuditRow>, last: nat -> bool, ids: set<nat>) returns (best: nat)
    requires ids != {} && forall i :: i in ids ==> i < |audit|
    ensures best in ids && forall i :: i in ids ==> Prefers(audit, last, best, i)
  {
    var first :| first in ids;
    if ids == {first} {
      best := first;
    } else {
      var rest := ids - {first};
      assert ids == rest + {first};
      best := BestExists(audit, last, rest);
      if Prefers(audit, last, first, best) {
        best := first;
      }
    }
  }

  lemma TopOf(audit: seq<AuditRow>, last: nat -> bool, ids: set<nat>, n: nat) returns (page: seq<nat>)
    requires forall i :: i in ids ==> i < |audit|
    ensures Distinct(page) && |page| == (if |ids| <= n then |ids| else n)
    ensures forall k :: 0 <= k < |page| ==> page[k] in ids
    ensures forall j, k :: 0 <= j < k < |page| ==> audit[page[j]].createdAt >= audit[page[k]].createdAt
    ensures forall k, i :: 0 <= k < |page| && i in ids && i !in page ==> Prefers(audit, last, page[k], i)
    decreases n
  {
    page := [];
    if n > 0 && ids != {} {
      var best := BestExists(audit, last, ids);
      var rest := TopOf(audit, last, ids - {best}, n - 1);
      page := [best] + rest;
    }
  }

  /** A page of the database that puts the rows marked `last` behind others of the same time. */
  lemma PageWithLast(audit: seq<AuditRow>, tenantId: string, last: nat -> bool) returns (page: seq<nat>)
    ensures IsAuditPage(audit, tenantId, page)
    ensures forall k, i :: 0 <= k < |page| && i in AuditIds(audit, tenantId) && i !in page ==> Prefers(audit, last, page[k], i)
  {
    page := TopOf(audit, last, AuditIds(audit, tenantId), AUDIT_PAGE);
  }

  function AtLeastAsNew(audit: seq<AuditRow>, tenantId: string, at: int): set<nat> {
    set i | i in AuditIds(audit, tenantId) && audit[i].createdAt >= at
  }

  function Newer(audit: seq<AuditRow>, tenantId: string, at: int): set<nat> {
    set i | i in AuditIds(audit, tenantId) && audit[i].createdAt > at
  }

  ghost predicate InEveryPage(audit: seq<AuditRow>, tenantId: string, i: nat) {
    forall page: seq<nat> :: IsAuditPage(audit, tenantId, page) ==> i in page
  }

  ghost predicate InNoPage(audit: seq<AuditRow>, tenantId: string, i: nat) {
    forall page: seq<nat> :: IsAuditPage(audit, tenantId, page) ==> i !in page
  }

  lemma MissedByFullPage(audit: seq<AuditRow>, tenantId: string, page: seq<nat>, i: nat)
    requires IsAuditPage(audit, tenantId, page) && i in AuditIds(audit, tenantId) && i !in page
    ensures |Elements(page)| == AUDIT_PAGE && Elements(page) <= AtLeastAsNew(audit, tenantId, audit[i].createdAt) - {i}
  {
    if |AuditIds(audit, tenantId)| <= AUDIT_PAGE {
      FullPage(audit, tenantId, page);
    }
    DistinctCardinality(page);
  }

  /** A row is in every page the database may answer exactly if fewer than 500 other rows are at least as new. */
  lemma InEveryPageIff(audit: seq<AuditRow>, tenantId: string, i: nat)
    requires i in AuditIds(audit, tenantId)
    ensures InEveryPage(audit, tenantId, i) <==> |AtLeastAsNew(audit, tenantId, audit[i].createdAt) - {i}| < AUDIT_PAGE
  {
    var others := AtLeastAsNew(audit, tenantId, audit[i].createdAt) - {i};
    if |others| < AUDIT_PAGE {
      forall page: seq<nat> | IsAuditPage(audit, tenantId, page) ensures i in page {
        if i !in page {
          MissedByFullPage(audit, tenantId, page, i);
          SubsetSize(Elements(page), others);
        }
      }
    } else {
      var page := PageWithLast(audit, tenantId, j => j == i);
      if i in page {
        var k :| 0 <= k < |page| && page[k] == i;
        DistinctCardinality(page);
        assert forall j :: j in others ==> j in page;
        assert others + {i} <= Elements(page);
        SubsetSize(others + {i}, Elements(page));
      }
    }
  }

  /** A row is in no page exactly if 500 rows are newer: its reading is forgotten. */
  lemma ForgottenIff(audit: seq<AuditRow>, tenantId: string, i: nat)
    requires i in AuditIds(audit, tenantId)
    ensures InNoPage(audit, tenantId, i) <==> |Newer(audit, tenantId, audit[i].createdAt)| >= AUDIT_PAGE
  {
    var newer := Newer(audit, tenantId, audit[i].createdAt);
    if |newer| >= AUDIT_PAGE {
      forall page: seq<nat> | IsAuditPage(audit, tenantId, page) ensures i !in page {
        if i in page {
          var k :| 0 <= k < |page| && page[k] == i;
          DistinctCardinality(page);
          assert forall j :: j in newer ==> j in page;
          assert newer + {i} <= Elements(page);
          SubsetSize(newer + {i}, Elements(page));
        }
      }
    } else {
      var page := PageWithLast(audit, tenantId, j => j != i);
      if i !in page {
        MissedByFullPage(audit, tenantId, page, i);
        assert forall k :: 0 <= k < |page| ==> Prefers(audit, j => j != i, page[k], i);
        assert Elements(page) <= newer;
        SubsetSize(Elements(page), newer);
      }
    }
  }

  // ---------------------------------------------------------------- the newest reading of a vehicle

  /** Rows about anything but the vehicle that are at least as new as `at`. */
  function Rivals(audit: seq<AuditRow>, tenantId: string, v: string, at: int): set<nat> {
    set i | i in AtLeastAsNew(audit, tenantId, at) && !ReadsVehicle(audit[i], v)
  }

  /** The vehicle's newest reading, if it has one, is a fuel reading or has fewer than 500 such rivals. */
  ghost predicate NewestKept(t: Tables, tenantId: string, v: string) {
    forall x, at :: CurrentAt(t, tenantId, v, x, at) ==>
      FuelReadingAt(t, tenantId, v, at) || |Rivals(t.audit, tenantId, v, at)| < AUDIT_PAGE
  }

  ghost predicate FuelReadingAt(t: Tables, tenantId: string, v: string, at: int) {
    exists r :: r in t.fuel && r.tenantId == tenantId && r.vehicleId == v && r.odometerKm.Some? && r.createdAt == at
  }

  predicate Reads(r: AuditRow, v: string, x: int, at: int) {
    ReadsVehicle(r, v) && r.metadata.odometerKm == Some(x) && r.createdAt == at
  }

  lemma NewestInPage(t: Tables, tenantId: string, v: string, x: int, at: int, page: seq<nat>)
    requires CurrentAt(t, tenantId, v, x, at) && IsAuditPage(t.audit, tenantId, page)
    requires !FuelReadingAt(t, tenantId, v, at) && |Rivals(t.audit, tenantId, v, at)| < AUDIT_PAGE
    ensures InAuditPage(PageRows(t.audit, page), v, Reading(x, at))
  {
    var i := NewestInAudit(t, tenantId, v, x, at);
    var k := SeenInPage(t, tenantId, v, at, page, i);
    SeenIsNewest(t, tenantId, v, x, at, page[k]);
    assert PageRows(t.audit, page)[k] == t.audit[page[k]];
  }

  lemma NewestInAudit(t: Tables, tenantId: string, v: string, x: int, at: int) returns (i: nat)
    requires CurrentAt(t, tenantId, v, x, at) && !FuelReadingAt(t, tenantId, v, at)
    ensures i in AuditIds(t.audit, tenantId) && Reads(t.audit[i], v, x, at)
  {
    var r :| r in t.audit && AuditMatches(r, tenantId) && ReadsVehicle(r, v)
      && r.metadata.odometerKm == Some(x) && r.createdAt == at;
    i :| 0 <= i < |t.audit| && t.audit[i] == r;
  }

  /** Row `i` is in the page, or other rows about the vehicle that are not older are. */
  lemma SeenInPage(t: Tables, tenantId: string, v: string, at: int, page: seq<nat>, i: nat) returns (k: nat)
    requires IsAuditPage(t.audit, tenantId, page) && |Rivals(t.audit, tenantId, v, at)| < AUDIT_PAGE
    requires i in AuditIds(t.audit, tenantId) && ReadsVehicle(t.audit[i], v) && t.audit[i].createdAt == at
    ensures k < |page| && page[k] in AuditIds(t.audit, tenantId)
    ensures ReadsVehicle(t.audit[page[k]], v) && t.audit[page[k]].createdAt >= at
  {
    if i in page {
      k :| 0 <= k < |page| && page[k] == i;
    } else {
      MissedByFullPage(t.audit, tenantId, page, i);
      k := OwnRowInPage(t, tenantId, v, at, page);
    }
  }

  lemma SeenIsNewest(t: Tables, tenantId: string, v: string, x: int, at: int, i: nat)
    requires CurrentAt(t, tenantId, v, x, at) && i in AuditIds(t.audit, tenantId)
    requires ReadsVehicle(t.audit[i], v) && t.audit[i].createdAt >= at
    ensures Reads(t.audit[i], v, x, at)
  {
    assert t.audit[i] in t.audit;
  }

  /** A full page of rows at least as new as `at` cannot consist of rivals only. */
  lemma OwnRowInPage(t: Tables, tenantId: string, v: string, at: int, page: seq<nat>) returns (k: nat)
    requires IsAuditPage(t.audit, tenantId, page) && |Elements(page)| == AUDIT_PAGE
    requires Elements(page) <= AtLeastAsNew(t.audit, tenantId, at) && |Rivals(t.audit, tenantId, v, at)| < AUDIT_PAGE
    ensures k < |page| && page[k] < |t.audit| && ReadsVehicle(t.audit[page[k]], v) && t.audit[page[k]].createdAt >= at
  {
    if Elements(page) <= Rivals(t.audit, tenantId, v, at) {
      SubsetSize(Elements(page), Rivals(t.audit, tenantId, v, at));
    }
    var i :| i in Elements(page) && i !in Rivals(t.audit, tenantId, v, at);
    k :| 0 <= k < |page| && page[k] == i;
  }

  /** The page shows the vehicle at the time of its newest reading. */
  ghost predicate ShownInPage(t: Tables, v: string, at: int, page: seq<nat>) {
    exists k :: 0 <= k < |page| && page[k] < |t.audit| && ReadsVehicle(t.audit[page[k]], v) && t.audit[page[k]].createdAt == at
  }

  function OwnRow(t: Tables, v: string): nat -> bool {
    (i: nat) => i < |t.audit| && ReadsVehicle(t.audit[i], v)
  }

  /** A newest reading that only the audit log holds is in every page exactly if it has fewer than 500 rivals. */
  lemma NewestInEveryPageIff(t: Tables, tenantId: string, v: string, x: int, at: int)
    requires CurrentAt(t, tenantId, v, x, at) && !FuelReadingAt(t, tenantId, v, at)
    ensures (forall page: seq<nat> :: IsAuditPage(t.audit, tenantId, page) ==> ShownInPage(t, v, at, page))
      <==> |Rivals(t.audit, tenantId, v, at)| < AUDIT_PAGE
  {
    var rivals := Rivals(t.audit, tenantId, v, at);
    if |rivals| < AUDIT_PAGE {
      forall page: seq<nat> | IsAuditPage(t.audit, tenantId, page) ensures ShownInPage(t, v, at, page) {
        NewestInPage(t, tenantId, v, x, at, page);
        var rows := PageRows(t.audit, page);
        var k :| 0 <= k < |rows| && ReadsVehicle(rows[k], v) && rows[k].createdAt == at;
        assert rows[k] == t.audit[page[k]];
      }
    } else {
      var page := PageWithoutNewest(t, tenantId, v, at);
    }
  }

  /** 500 rivals can push every row about the vehicle at that time out of a page. */
  lemma PageWithoutNewest(t: Tables, tenantId: string, v: string, at: int) returns (page: seq<nat>)
    requires |Rivals(t.audit, tenantId, v, at)| >= AUDIT_PAGE
    ensures IsAuditPage(t.audit, tenantId, page) && !ShownInPage(t, v, at, page)
  {
    page := PageWithLast(t.audit, tenantId, OwnRow(t, v));
    if ShownInPage(t, v, at, page) {
      RivalsFillPage(t, tenantId, v, at, page);
    }
  }

  lemma RivalsFillPage(t: Tables, tenantId: string, v: string, at: int, page: seq<nat>)
    requires IsAuditPage(t.audit, tenantId, page) && ShownInPage(t, v, at, page)
    requires forall k, i :: 0 <= k < |page| && i in AuditIds(t.audit, tenantId) && i !in page ==>
      Prefers(t.audit, OwnRow(t, v), page[k], i)
    ensures |Rivals(t.audit, tenantId, v, at)| < AUDIT_PAGE
  {
    var k :| 0 <= k < |page| && ReadsVehicle(t.audit[page[k]], v) && t.audit[page[k]].createdAt == at;
    var own, rivals := page[k], Rivals(t.audit, tenantId, v, at);
    assert forall j :: j in rivals ==> j in page;
    DistinctCardinality(page);
    assert own !in rivals && rivals + {own} <= Elements(page);
    SubsetSize(rivals + {own}, Elements(page));
  }

  lemma CurrentIsSeen(t: Tables, tenantId: string, v: string, x: int, at: int, page: seq<nat>)
    requires CurrentAt(t, tenantId, v, x, at) && IsAuditPage(t.audit, tenantId, page) && NewestKept(t, tenantId, v)
    ensures InFuelLog(t, tenantId, v, Reading(x, at)) || InAuditPage(PageRows(t.audit, page), v, Reading(x, at))
  {
    if !FuelReadingAt(t, tenantId, v, at) {
      NewestInPage(t, tenantId, v, x, at, page);
    }
  }

  /** As long as the page holds the newest reading of a listed vehicle, a refresh shows it. */
  lemma KeptIsShown(t: Tables, tenantId: string, vehicleIds: seq<string>, v: string, x: int, shown: Option<int>)
    requires v in vehicleIds && Current(t, tenantId, v, x) && Shows(t, tenantId, vehicleIds, v, shown)
    requires NewestKept(t, tenantId, v)
    ensures shown == Some(x)
  {
    var at :| CurrentAt(t, tenantId, v, x, at);
    var fuelAnswer, page :| IsLatestFuel(t.fuel, tenantId, vehicleIds, fuelAnswer) && IsAuditPage(t.audit, tenantId, page)
      && shown == Previous(fuelAnswer, PageRows(t.audit, page), vehicleIds, v);
    PreviousIsNewest(t, tenantId, vehicleIds, v, fuelAnswer, page);
    CurrentIsSeen(t, tenantId, v, x, at, page);
    CurrentBoundsLog(t, tenantId, v, x, at, page);
    var rows := PageRows(t.audit, page);
    if y: Reading :| y.odometerKm == shown.value && NewestOf(t, tenantId, rows, v, y) {
      NewestIsCurrent(t, tenantId, rows, v, x, at, y);
    }
  }

  lemma NewestIsCurrent(t: Tables, tenantId: string, rows: seq<AuditRow>, v: string, x: int, at: int, y: Reading)
    requires NewestOf(t, tenantId, rows, v, y)
    requires InFuelLog(t, tenantId, v, Reading(x, at)) || InAuditPage(rows, v, Reading(x, at))
    requires forall z: Reading :: InFuelLog(t, tenantId, v, z) || InAuditPage(rows, v, z) ==>
      z.createdAt < at || (z.createdAt == at && z.odometerKm == x)
    ensures y.odometerKm == x
  {}

  lemma CurrentBoundsLog(t: Tables, tenantId: string, v: string, x: int, at: int, page: seq<nat>)
    requires CurrentAt(t, tenantId, v, x, at) && IsAuditPage(t.audit, tenantId, page)
    ensures forall y: Reading :: InFuelLog(t, tenantId, v, y) || InAuditPage(PageRows(t.audit, page), v, y) ==>
      y.createdAt < at || (y.createdAt == at && y.odometerKm == x)
  {
    forall y: Reading | InAuditPage(PageRows(t.audit, page), v, y)
      ensures y.createdAt < at || (y.createdAt == at && y.odometerKm == x)
    {
      var rows := PageRows(t.audit, page);
      var k :| 0 <= k < |rows| && ReadsVehicle(rows[k], v)
        && rows[k].metadata.odometerKm == Some(y.odometerKm) && rows[k].createdAt == y.createdAt;
      assert t.audit[page[k]] in t.audit;
    }
  }

  ghost predicate InAuditLog(t: Tables, tenantId: string, v: string, y: Reading) {
    exists r :: r in t.audit && AuditMatches(r, tenantId) && Reads(r, v, y.odometerKm, y.createdAt)
  }

  /** Every earlier reading of the vehicle was lower, as it is while readings are accepted in order. */
  ghost predicate ExceedsEarlier(t: Tables, tenantId: string, v: string, x: int, at: int) {
    forall y: Reading :: (InFuelLog(t, tenantId, v, y) || InAuditLog(t, tenantId, v, y)) && y.createdAt < at ==> y.odometerKm < x
  }

  lemma InPageIsLogged(t: Tables, tenantId: string, v: string, page: seq<nat>, y: Reading)
    requires IsAuditPage(t.audit, tenantId, page) && InAuditPage(PageRows(t.audit, page), v, y)
    ensures InAuditLog(t, tenantId, v, y)
    ensures exists k :: 0 <= k < |page| && page[k] < |t.audit| && Reads(t.audit[page[k]], v, y.odometerKm, y.createdAt)
  {
    var rows := PageRows(t.audit, page);
    var k :| 0 <= k < |rows| && ReadsVehicle(rows[k], v)
      && rows[k].metadata.odometerKm == Some(y.odometerKm) && rows[k].createdAt == y.createdAt;
    assert t.audit[page[k]] in t.audit && Reads(t.audit[page[k]], v, y.odometerKm, y.createdAt);
  }

  /** What a page without the newest reading and the fuel log hold is older, and so lower. */
  lemma RestIsLower(t: Tables, tenantId: string, v: string, x: int, at: int, page: seq<nat>, y: Reading)
    requires CurrentAt(t, tenantId, v, x, at) && ExceedsEarlier(t, tenantId, v, x, at)
    requires !FuelReadingAt(t, tenantId, v, at) && IsAuditPage(t.audit, tenantId, page) && !ShownInPage(t, v, at, page)
    requires InFuelLog(t, tenantId, v, y) || InAuditPage(PageRows(t.audit, page), v, y)
    ensures y.odometerKm < x
  {
    CurrentBoundsLog(t, tenantId, v, x, at, page);
    if InAuditPage(PageRows(t.audit, page), v, y) {
      InPageIsLogged(t, tenantId, v, page, y);
    }
    assert y.createdAt < at;
  }

  /** If the newest reading is not kept, a refresh may show a lower one, or none. */
  lemma UnkeptMayShowLower(t: Tables, tenantId: string, vehicleIds: seq<string>, v: string, x: int, at: int)
    returns (shown: Option<int>)
    requires v in vehicleIds && CurrentAt(t, tenantId, v, x, at) && ExceedsEarlier(t, tenantId, v, x, at)
    requires !FuelReadingAt(t, tenantId, v, at) && |Rivals(t.audit, tenantId, v, at)| >= AUDIT_PAGE
    ensures Shows(t, tenantId, vehicleIds, v, shown) && (shown.Some? ==> shown.value < x)
  {
    var page := PageWithoutNewest(t, tenantId, v, at);
    var fuelAnswer := FuelAnswerExists(t.fuel, tenantId, vehicleIds);
    shown := Previous(fuelAnswer, PageRows(t.audit, page), vehicleIds, v);
    PreviousIsNewest(t, tenantId, vehicleIds, v, fuelAnswer, page);
    if shown.Some? {
      var y: Reading :| y.odometerKm == shown.value && NewestOf(t, tenantId, PageRows(t.audit, page), v, y);
      RestIsLower(t, tenantId, v, x, at, page, y);
    }
  }

  /** The fuel query always has an answer. */
  lemma {:induction false} FuelAnswerExists(fuel: seq<FuelRow>, tenantId: string, vehicleIds: seq<string>)
    returns (answer: seq<FuelRow>)
    ensures IsLatestFuel(fuel, tenantId, vehicleIds, answer)
  {
    if fuel == [] {
      answer := [];
    } else {
      var front, last := fuel[..|fuel| - 1], fuel[|fuel| - 1];
      assert fuel == front + [last];
      answer := FuelAnswerExists(front, tenantId, vehicleIds);
      if FuelMatches(last, tenantId, vehicleIds) {
        if k :| 0 <= k < |answer| && answer[k].vehicleId == last.vehicleId {
          answer := ReplacedAnswer(front, tenantId, vehicleIds, answer, last, k);
        } else {
          answer := ExtendedAnswer(front, tenantId, vehicleIds, answer, last);
        }
      } else {
        forall k | 0 <= k < |answer| ensures Listed(fuel, tenantId, vehicleIds, answer[k]) {
          assert Listed(front, tenantId, vehicleIds, answer[k]);
        }
      }
    }
  }

  lemma ExtendedAnswer(fuel: seq<FuelRow>, tenantId: string, vehicleIds: seq<string>, answer: seq<FuelRow>, r: FuelRow)
    returns (extended: seq<FuelRow>)
    requires IsLatestFuel(fuel, tenantId, vehicleIds, answer) && FuelMatches(r, tenantId, vehicleIds)
    requires forall k :: 0 <= k < |answer| ==> answer[k].vehicleId != r.vehicleId
    ensures IsLatestFuel(fuel + [r], tenantId, vehicleIds, extended)
  {
    extended := answer + [r];
    forall k | 0 <= k < |extended| ensures Listed(fuel + [r], tenantId, vehicleIds, extended[k]) {
      if k < |answer| {
        assert Listed(fuel, tenantId, vehicleIds, answer[k]);
      }
    }
    forall q | q in fuel + [r] && FuelMatches(q, tenantId, vehicleIds) ensures Represented(q, extended) {
      if q in fuel {
        assert Represented(q, answer);
        var k :| 0 <= k < |answer| && answer[k].vehicleId == q.vehicleId && NotNewer(q, answer[k]);
        assert extended[k] == answer[k];
      } else {
        assert extended[|answer|] == q;
      }
    }
  }

  lemma ReplacedAnswer(
    fuel: seq<FuelRow>, tenantId: string, vehicleIds: seq<string>, answer: seq<FuelRow>, r: FuelRow, k: nat)
    returns (replaced: seq<FuelRow>)
    requires IsLatestFuel(fuel, tenantId, vehicleIds, answer) && FuelMatches(r, tenantId, vehicleIds)
    requires k < |answer| && answer[k].vehicleId == r.vehicleId
    ensures IsLatestFuel(fuel + [r], tenantId, vehicleIds, replaced)
  {
    replaced := if NotNewer(answer[k], r) then answer[k := r] else answer;
    forall j | 0 <= j < |replaced| ensures Listed(fuel + [r], tenantId, vehicleIds, replaced[j]) {
      assert Listed(fuel, tenantId, vehicleIds, answer[j]);
    }
    forall q | q in fuel + [r] && FuelMatches(q, tenantId, vehicleIds) ensures Represented(q, replaced) {
      if q in fuel {
        assert Represented(q, answer);
        var j :| 0 <= j < |answer| && answer[j].vehicleId == q.vehicleId && NotNewer(q, answer[j]);
        assert replaced[j].vehicleId == q.vehicleId && NotNewer(q, replaced[j]);
      } else {
        assert replaced[k].vehicleId == q.vehicleId && NotNewer(q, replaced[k]);
      }
    }
  }
}
