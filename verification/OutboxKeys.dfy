/** Idempotent enqueueing: one row per key however often the alerts are polled,
    and at most two rows per compliance record in any run. */
module OutboxKeys {
  import opened Common
  import Text
  import opened ContactDirectory
  import opened Outbox
  import opened OutboxRuns

  predicate BarFree(s: string) { '|' !in s }

  /** The hashed text determines its fields when none of them contains the separator. */
  lemma RawKeyInjective(
    tenant: string, e: EventType, source: string, recipient: string, date: string,
    tenant': string, e': EventType, source': string, recipient': string, date': string)
    requires BarFree(tenant) && BarFree(EventText(e)) && BarFree(source) && BarFree(recipient)
    requires BarFree(tenant') && BarFree(EventText(e')) && BarFree(source') && BarFree(recipient')
    requires RawKey(tenant, e, source, recipient, date) == RawKey(tenant', e', source', recipient', date')
    ensures tenant == tenant' && EventText(e) == EventText(e') && source == source'
      && recipient == recipient' && date == date'
  {
    var r, r' := recipient + ['|'] + date, recipient' + ['|'] + date';
    var q, q' := source + ['|'] + r, source' + ['|'] + r';
    var p, p' := EventText(e) + ['|'] + q, EventText(e') + ['|'] + q';
    Text.SplitFirst(tenant, p, tenant', p', '|');
    Text.SplitFirst(EventText(e), q, EventText(e'), q', '|');
    Text.SplitFirst(source, r, source', r', '|');
    Text.SplitFirst(recipient, date, recipient', date', '|');
  }

  predicate ComplianceEvent(e: EventType) { e.ComplianceExpired? || e.ComplianceExpiringSoon? }

  lemma EventTexts(a: EventType, b: EventType)
    requires ComplianceEvent(a) && ComplianceEvent(b)
    ensures BarFree(EventText(a)) && (EventText(a) == EventText(b) ==> a == b)
  {
    assert |EventText(ComplianceExpired)| != |EventText(ComplianceExpiringSoon)|;
  }

  // ---------------------------------------------------------------- re-enqueueing

  lemma {:induction false} InsertNothingNew(rows: seq<Row>, data: seq<Row>)
    requires forall d :: d in data ==> HasKey(rows, d.idempotencyKey)
    ensures InsertNew(rows, data) == rows
  {
    if data != [] {
      InsertNothingNew(rows, data[..|data| - 1]);
    }
  }

  /** A later batch of known keys changes nothing, whatever was enqueued and dispatched in between, and
      whatever the settings and the clock now say. */
  lemma EnqueueIsIdempotent(
    s: Tables, tenantId: string, settings: Option<NotificationSettings>, cs: seq<Candidate>, now: int,
    between: seq<Step>, settings': Option<NotificationSettings>, cs': seq<Candidate>, now': int)
    requires ValidRun(EnqueueCandidates(s, tenantId, settings, cs, now), between)
    requires forall c :: c in cs' && Supported(c) ==>
      exists d :: d in cs && Supported(d) && CandidateKey(tenantId, d) == CandidateKey(tenantId, c)
    ensures var later := RunFrom(EnqueueCandidates(s, tenantId, settings, cs, now), between);
      EnqueueCandidates(later, tenantId, settings', cs', now') == later
  {
    var once := EnqueueCandidates(s, tenantId, settings, cs, now);
    var later := RunFrom(once, between);
    var data' := RowsFor(tenantId, settings', cs', now');
    RunKeepsKeys(once, between);
    forall x | x in data' ensures HasKey(later.rows, x.idempotencyKey) {
      var k :| 0 <= k < |data'| && data'[k] == x;
      var kept := Filter(c => Supported(c), cs');
      var c := kept[k];
      assert c in kept && x.idempotencyKey == CandidateKey(tenantId, c);
      var d :| d in cs && Supported(d) && CandidateKey(tenantId, d) == CandidateKey(tenantId, c);
      EnqueuedKey(s, tenantId, settings, cs, now, d);
      KnownKeyStays(once.rows, later.rows, x.idempotencyKey);
    }
    InsertNothingNew(later.rows, data');
  }

  ghost predicate KeysStay(a: seq<Row>, b: seq<Row>) {
    |a| <= |b| && forall i :: 0 <= i < |a| ==> b[i].idempotencyKey == a[i].idempotencyKey
  }

  lemma {:induction false} PassKeepsKeys(s: Tables, page: seq<nat>, worlds: map<nat, World>, now: int)
    requires Distinct(page) && PageFits(s.rows, page, worlds, now) && StillDue(s.rows, page, now)
    ensures KeysStay(s.rows, DispatchPage(s, page, worlds, now).tables.rows)
    decreases |page|
  {
    if page != [] && !GateFor(s.rows[page[0]], worlds[page[0]]).Throws? {
      var id := page[0];
      AttemptHasShape(id, s.rows[id], worlds[id], now);
      PassKeepsKeys(Write(s, id, Attempt(id, s.rows[id], worlds[id])), page[1..], worlds, now);
    }
  }

  lemma StepKeepsKeys(s: Tables, step: Step)
    requires Enabled(s, step)
    ensures KeysStay(s.rows, Apply(s, step).rows)
  {
    match step
    case Enqueue(tenantId, settings, cs, now) => InsertNewProperties(s.rows, RowsFor(tenantId, settings, cs, now));
    case Dispatch(_, _, now, page, worlds) => PassKeepsKeys(s, page, worlds, now);
  }

  lemma {:induction false} RunKeepsKeys(s: Tables, steps: seq<Step>)
    requires ValidRun(s, steps)
    ensures KeysStay(s.rows, RunFrom(s, steps).rows)
    decreases |steps|
  {
    if steps != [] {
      StepKeepsKeys(s, steps[0]);
      RunKeepsKeys(Apply(s, steps[0]), steps[1..]);
    }
  }

  lemma KnownKeyStays(a: seq<Row>, b: seq<Row>, key: string)
    requires KeysStay(a, b) && HasKey(a, key)
    ensures HasKey(b, key)
  {
    var i :| 0 <= i < |a| && a[i].idempotencyKey == key;
    assert b[i].idempotencyKey == key;
  }

  lemma EnqueuedKey(
    s: Tables, tenantId: string, settings: Option<NotificationSettings>, cs: seq<Candidate>, now: int, c: Candidate)
    requires c in cs && Supported(c)
    ensures HasKey(EnqueueCandidates(s, tenantId, settings, cs, now).rows, CandidateKey(tenantId, c))
  {
    InsertNewProperties(s.rows, RowsFor(tenantId, settings, cs, now));
    RowForCandidate(tenantId, settings, cs, now, c);
  }

  lemma RowForCandidate(
    tenantId: string, settings: Option<NotificationSettings>, cs: seq<Candidate>, now: int, c: Candidate)
    requires c in cs && Supported(c)
    ensures RowFor(tenantId, settings, c, now) in RowsFor(tenantId, settings, cs, now)
  {
    var kept := Filter(c => Supported(c), cs);
    var i :| 0 <= i < |kept| && kept[i] == c;
    assert RowsFor(tenantId, settings, cs, now)[i] == RowFor(tenantId, settings, c, now);
  }

  // ---------------------------------------------------------------- rows of one compliance record

  /** The candidates of a poll carry the creation time of the record they are about. */
  ghost predicate FromRecords(createdAt: map<string, string>, cs: seq<Candidate>) {
    forall c :: c in cs ==> c.relatedRecordId in createdAt && c.occurredAt == createdAt[c.relatedRecordId]
  }

  ghost predicate RunFromRecords(createdAt: map<string, string>, steps: seq<Step>) {
    forall k :: 0 <= k < |steps| && steps[k].Enqueue? ==> FromRecords(createdAt, steps[k].candidates)
  }

  /** A row made by enqueue for a record with a known creation time. */
  ghost predicate KeyedBy(createdAt: map<string, string>, r: Row) {
    && ComplianceEvent(r.eventType)
    && r.sourceRecordId in createdAt
    && r.idempotencyKey
       == RawKey(r.tenantId, r.eventType, r.sourceRecordId, "directory", Text.Prefix(createdAt[r.sourceRecordId], 10))
  }

  ghost predicate AllKeyed(createdAt: map<string, string>, rows: seq<Row>) {
    forall i :: 0 <= i < |rows| ==> KeyedBy(createdAt, rows[i])
  }

  lemma {:induction false} PassKeepsKeyed(
    createdAt: map<string, string>, s: Tables, page: seq<nat>, worlds: map<nat, World>, now: int)
    requires AllKeyed(createdAt, s.rows)
    requires Distinct(page) && PageFits(s.rows, page, worlds, now) && StillDue(s.rows, page, now)
    ensures AllKeyed(createdAt, DispatchPage(s, page, worlds, now).tables.rows)
    decreases |page|
  {
    if page != [] && !GateFor(s.rows[page[0]], worlds[page[0]]).Throws? {
      var id := page[0];
      var e := Attempt(id, s.rows[id], worlds[id]);
      AttemptHasShape(id, s.rows[id], worlds[id], now);
      PassKeepsKeyed(createdAt, Write(s, id, e), page[1..], worlds, now);
    }
  }

  lemma RowsForKeyed(
    createdAt: map<string, string>, tenantId: string, settings: Option<NotificationSettings>, cs: seq<Candidate>, now: int, k: nat)
    requires FromRecords(createdAt, cs) && k < |RowsFor(tenantId, settings, cs, now)|
    ensures KeyedBy(createdAt, RowsFor(tenantId, settings, cs, now)[k])
  {
    var c := Filter(c => Supported(c), cs)[k];
    assert c in cs && Supported(c);
  }

  lemma EnqueueKeepsKeyed(
    createdAt: map<string, string>, s: Tables, tenantId: string, settings: Option<NotificationSettings>,
    cs: seq<Candidate>, now: int)
    requires AllKeyed(createdAt, s.rows) && FromRecords(createdAt, cs)
    ensures AllKeyed(createdAt, EnqueueCandidates(s, tenantId, settings, cs, now).rows)
  {
    var data := RowsFor(tenantId, settings, cs, now);
    InsertNewProperties(s.rows, data);
    var r := InsertNew(s.rows, data);
    forall i | 0 <= i < |r| ensures KeyedBy(createdAt, r[i]) {
      if i >= |s.rows| {
        var k :| 0 <= k < |data| && data[k] == r[i];
        RowsForKeyed(createdAt, tenantId, settings, cs, now, k);
      }
    }
  }

  lemma StepKeepsKeyed(createdAt: map<string, string>, s: Tables, step: Step)
    requires AllKeyed(createdAt, s.rows) && Enabled(s, step)
    requires step.Enqueue? ==> FromRecords(createdAt, step.candidates)
    ensures AllKeyed(createdAt, Apply(s, step).rows)
  {
    match step
    case Dispatch(_, _, now, page, worlds) => PassKeepsKeyed(createdAt, s, page, worlds, now);
    case Enqueue(tenantId, settings, cs, now) => EnqueueKeepsKeyed(createdAt, s, tenantId, settings, cs, now);
  }

  lemma {:induction false} RunKeepsKeyed(createdAt: map<string, string>, s: Tables, steps: seq<Step>)
    requires AllKeyed(createdAt, s.rows) && ValidRun(s, steps) && RunFromRecords(createdAt, steps)
    ensures AllKeyed(createdAt, RunFrom(s, steps).rows)
    decreases |steps|
  {
    if steps != [] {
      StepKeepsKeyed(createdAt, s, steps[0]);
      RunKeepsKeyed(createdAt, Apply(s, steps[0]), steps[1..]);
    }
  }

  /** From the empty tables, however often the alerts are polled and dispatched, a compliance
      record of a tenant has at most one row per event type, hence at most two rows. */
  lemma AtMostTwoRowsPerRecord(createdAt: map<string, string>, steps: seq<Step>, i: nat, j: nat, k: nat)
    requires ValidRun(Tables([], []), steps) && RunFromRecords(createdAt, steps)
    requires i < j < k < |RunFrom(Tables([], []), steps).rows|
    ensures var rows := RunFrom(Tables([], []), steps).rows;
      && !(rows[i].tenantId == rows[j].tenantId && rows[i].sourceRecordId == rows[j].sourceRecordId
           && rows[i].eventType == rows[j].eventType)
      && !(rows[i].tenantId == rows[j].tenantId == rows[k].tenantId
           && rows[i].sourceRecordId == rows[j].sourceRecordId == rows[k].sourceRecordId)
  {
    var empty := Tables([], []);
    RunKeepsInv(empty, steps);
    RunKeepsKeyed(createdAt, empty, steps);
    var rows := RunFrom(empty, steps).rows;
    assert rows[i].idempotencyKey != rows[j].idempotencyKey && rows[j].idempotencyKey != rows[k].idempotencyKey
      && rows[i].idempotencyKey != rows[k].idempotencyKey;
  }

  ghost predicate About(r: Row, tenantId: string, c: Candidate) {
    r.tenantId == tenantId && r.eventType == AsEventType(c.alertType) && r.sourceRecordId == c.relatedRecordId
  }

  lemma KeyTellsRecord(createdAt: map<string, string>, r: Row, tenantId: string, c: Candidate)
    requires KeyedBy(createdAt, r) && BarFree(r.tenantId) && BarFree(r.sourceRecordId)
    requires BarFree(tenantId) && BarFree(c.relatedRecordId)
    requires r.idempotencyKey == CandidateKey(tenantId, c)
    ensures About(r, tenantId, c)
  {
    assert BarFree("directory");
    EventTexts(r.eventType, AsEventType(c.alertType));
    EventTexts(AsEventType(c.alertType), r.eventType);
    RawKeyInjective(
      r.tenantId, r.eventType, r.sourceRecordId, "directory", Text.Prefix(createdAt[r.sourceRecordId], 10),
      tenantId, AsEventType(c.alertType), c.relatedRecordId, "directory", Text.Prefix(c.occurredAt, 10));
  }

  /** Nothing is lost to the key: after a poll every supported candidate has exactly one row. */
  lemma EveryCandidateHasOneRow(
    createdAt: map<string, string>, s: Tables, tenantId: string, settings: Option<NotificationSettings>,
    cs: seq<Candidate>, now: int, c: Candidate)
    requires Inv(s) && AllKeyed(createdAt, s.rows) && FromRecords(createdAt, cs)
    requires BarFree(tenantId) && forall r :: r in s.rows ==> BarFree(r.tenantId)
    requires forall id :: id in createdAt ==> BarFree(id)
    requires c in cs && Supported(c)
    ensures var rows := EnqueueCandidates(s, tenantId, settings, cs, now).rows;
      exists i :: 0 <= i < |rows| && About(rows[i], tenantId, c)
        && forall j :: 0 <= j < |rows| && About(rows[j], tenantId, c) ==> j == i
  {
    var t := EnqueueCandidates(s, tenantId, settings, cs, now);
    StepKeepsKeyed(createdAt, s, Enqueue(tenantId, settings, cs, now));
    EnqueueKeepsInv(s, tenantId, settings, cs, now);
    var i := RowWithKey(s, tenantId, settings, cs, now, c);
    KeyTellsRecord(createdAt, t.rows[i], tenantId, c);
    forall j | 0 <= j < |t.rows| && About(t.rows[j], tenantId, c) ensures j == i {
      assert KeyedBy(createdAt, t.rows[j]) && KeyedBy(createdAt, t.rows[i]);
      assert t.rows[j].idempotencyKey == t.rows[i].idempotencyKey;
    }
  }

  lemma RowWithKey(
    s: Tables, tenantId: string, settings: Option<NotificationSettings>, cs: seq<Candidate>, now: int, c: Candidate)
    returns (i: nat)
    requires c in cs && Supported(c) && BarFree(tenantId) && forall r :: r in s.rows ==> BarFree(r.tenantId)
    ensures var rows := EnqueueCandidates(s, tenantId, settings, cs, now).rows;
      i < |rows| && rows[i].idempotencyKey == CandidateKey(tenantId, c) && BarFree(rows[i].tenantId)
  {
    RowForCandidate(tenantId, settings, cs, now, c);
    i := PlaceOfKey(s.rows, RowsFor(tenantId, settings, cs, now), CandidateKey(tenantId, c));
    InsertedTenants(s.rows, RowsFor(tenantId, settings, cs, now), tenantId);
  }

  lemma PlaceOfKey(rows: seq<Row>, data: seq<Row>, key: string) returns (i: nat)
    requires exists d :: d in data && d.idempotencyKey == key
    ensures i < |InsertNew(rows, data)| && InsertNew(rows, data)[i].idempotencyKey == key
  {
    InsertNewProperties(rows, data);
    var d :| d in data && d.idempotencyKey == key;
    i :| 0 <= i < |InsertNew(rows, data)| && InsertNew(rows, data)[i].idempotencyKey == key;
  }

  lemma InsertedTenants(rows: seq<Row>, data: seq<Row>, tenantId: string)
    requires BarFree(tenantId) && (forall r :: r in rows ==> BarFree(r.tenantId))
    requires forall k :: 0 <= k < |data| ==> data[k].tenantId == tenantId
    ensures forall i :: 0 <= i < |InsertNew(rows, data)| ==> BarFree(InsertNew(rows, data)[i].tenantId)
  {
    InsertNewProperties(rows, data);
    var all := InsertNew(rows, data);
    forall i | 0 <= i < |all| ensures BarFree(all[i].tenantId) {
      if i >= |rows| {
        var k :| 0 <= k < |data| && data[k] == all[i];
      } else {
        assert rows[i] in rows;
      }
    }
  }
}
