/** Which fill the predecessor scan assesses, and when all alert ids are distinct. */
module AlertIds {
  import opened Common
  import Text
  import opened FuelBaseline
  import opened DashboardAlerts

  // ---------------------------------------------------------------- the predecessor scan

  ghost predicate Chronological(rows: seq<FuelRow>) {
    forall i, j :: 0 <= i < j < |rows| ==> rows[i].vehicleId == rows[j].vehicleId ==> rows[i].createdAt <= rows[j].createdAt
  }

  ghost predicate OneVehicle(rows: seq<FuelRow>) {
    forall i, j :: 0 <= i < |rows| && 0 <= j < |rows| ==> rows[i].vehicleId == rows[j].vehicleId
  }

  lemma SeriesIsChronological(lookback: seq<FuelRow>, vehicleId: string)
    requires Chronological(lookback)
    ensures Chronological(Series(lookback, vehicleId)) && OneVehicle(Series(lookback, vehicleId))
  {
    FilterPairwise((r: FuelRow) => r.vehicleId == vehicleId, lookback,
      (a: FuelRow, b: FuelRow) => a.vehicleId == b.vehicleId ==> a.createdAt <= b.createdAt);
    var s := Series(lookback, vehicleId);
    assert forall i :: 0 <= i < |s| ==> s[i] in s;
  }

  ghost predicate TimesAscend(rows: seq<FuelRow>) {
    forall i, j :: 0 <= i < j < |rows| ==> rows[i].createdAt <= rows[j].createdAt
  }

  /** In a chronological series, the rows up to a moment are a prefix. */
  lemma UntilIsPrefix(series: seq<FuelRow>, at: int) returns (m: nat)
    requires TimesAscend(series)
    ensures m <= |series| && Until(series, at) == series[..m]
    ensures forall k :: 0 <= k < |series| ==> (series[k].createdAt <= at <==> k < m)
  {
    m := |series|;
    while m > 0 && series[m - 1].createdAt > at
      invariant m <= |series| && forall k :: m <= k < |series| ==> series[k].createdAt > at
    {
      m := m - 1;
    }
    FilterIsPrefix((r: FuelRow) => r.createdAt <= at, series, m);
  }

  /** For the fill at place `p` of its vehicle's series: the row assessed is that fill exactly when no
      later row of the vehicle has the same time, and then it is compared with its immediate predecessor. */
  lemma ScanFindsPredecessor(lookback: seq<FuelRow>, e: FuelEntry, p: nat)
    requires Chronological(lookback)
    requires p < |Series(lookback, e.row.vehicleId)| && Series(lookback, e.row.vehicleId)[p] == e.row
    requires forall i, j :: 0 <= i < j < |Series(lookback, e.row.vehicleId)| ==>
      Series(lookback, e.row.vehicleId)[i].id != Series(lookback, e.row.vehicleId)[j].id
    ensures var series, h := Series(lookback, e.row.vehicleId), History(lookback, e);
      && h != []
      && (h[|h| - 1] == e.row <==> (p + 1 < |series| ==> series[p + 1].createdAt > e.row.createdAt))
      && (h[|h| - 1] == e.row ==> |h| == p + 1)
      && (h[|h| - 1] == e.row && p > 0 ==> h[|h| - 2] == series[p - 1])
  {
    var series := Series(lookback, e.row.vehicleId);
    SeriesIsChronological(lookback, e.row.vehicleId);
    var m := UntilIsPrefix(series, e.row.createdAt);
    assert p < m;
    assert History(lookback, e)[m - 1] == series[m - 1];
  }

  lemma SeriesMembers(lookback: seq<FuelRow>, vehicleId: string)
    ensures forall r :: r in Series(lookback, vehicleId) <==> r in lookback && r.vehicleId == vehicleId
  {}

  lemma PrefixIsChronological(series: seq<FuelRow>, m: nat)
    requires m <= |series| && Chronological(series) && OneVehicle(series)
    ensures Chronological(series[..m]) && OneVehicle(series[..m])
  {}

  lemma LastOfHistory(lookback: seq<FuelRow>, e: FuelEntry)
    requires Chronological(lookback) && e.row in lookback
    ensures var h := History(lookback, e);
      && h != [] && e.row in h && Chronological(h) && OneVehicle(h)
      && h[|h| - 1] in lookback
      && h[|h| - 1].vehicleId == e.row.vehicleId && h[|h| - 1].createdAt == e.row.createdAt
  {
    var series := Series(lookback, e.row.vehicleId);
    SeriesIsChronological(lookback, e.row.vehicleId);
    SeriesMembers(lookback, e.row.vehicleId);
    LastOfUntil(series, e.row);
  }

  lemma LastOfUntil(series: seq<FuelRow>, r: FuelRow)
    requires Chronological(series) && OneVehicle(series) && r in series
    ensures var h := Until(series, r.createdAt);
      && h != [] && r in h && Chronological(h) && OneVehicle(h)
      && h[|h| - 1] in series && h[|h| - 1].createdAt == r.createdAt
  {
    var m := UntilIsPrefix(series, r.createdAt);
    var k :| 0 <= k < |series| && series[k] == r;
    PrefixIsChronological(series, m);
    LastOfPrefix(series, m, k);
  }

  /** With row `k` in the prefix and all later rows no older, the last row is no older either. */
  lemma LastOfPrefix(series: seq<FuelRow>, m: nat, k: nat)
    requires k < m <= |series| && Chronological(series) && OneVehicle(series)
    ensures var h := series[..m];
      && series[k] in h && h[m - 1] in series
      && h[m - 1].vehicleId == series[k].vehicleId && h[m - 1].createdAt >= series[k].createdAt
  {
    assert series[..m][k] == series[k];
  }

  // ---------------------------------------------------------------- distinct alerts

  /** The length of a type's text, and for the lengths 24 and 32 a letter that tells two texts apart. */
  function Shape(t: AlertType): (nat, char) {
    match t
    case ComplianceExpired => (18, '-') case ComplianceExpiringSoon => (24, 'o') case MissingDailyCheck => (19, '-')
    case CriticalChecklistIssue => (24, 'r') case ChecklistIssueReported => (24, 'h')
    case RepeatedChecklistIssuesVehicle => (33, '-') case DriverFrequentSkips => (21, '-')
    case FuelMissingReceipt => (20, '-') case FuelUsedOdometerFallback => (27, '-')
    case FuelUsedApprovedSource => (25, '-') case SuspiciousHighLiters => (22, '-')
    case FuelingTooSoonAfterPreviousFill => (36, '-') case SuspiciousHighLitersVsDistance => (34, '-')
    case SuspiciousConsumptionDeviation => (32, 'c') case SuspiciousHighRiskCombination => (32, 'h')
  }

  function Letter(s: string): char { if |s| == 24 then s[1] else if |s| == 32 then s[11] else '-' }

  predicate Shaped(t: AlertType) {
    ':' !in TypeText(t) && Shape(t) == (|TypeText(t)|, Letter(TypeText(t)))
  }

  lemma ComplianceTexts(t: AlertType)
    requires t.ComplianceExpired? || t.ComplianceExpiringSoon? || t.MissingDailyCheck?
    ensures Shaped(t)
  {}

  lemma ChecklistTexts(t: AlertType)
    requires t.CriticalChecklistIssue? || t.ChecklistIssueReported? || t.RepeatedChecklistIssuesVehicle?
    ensures Shaped(t)
  {}

  lemma EntryTexts(t: AlertType)
    requires t.FuelMissingReceipt? || t.FuelUsedOdometerFallback? || t.FuelUsedApprovedSource? || t.DriverFrequentSkips?
    ensures Shaped(t)
  {}

  lemma VolumeTexts(t: AlertType)
    requires t.SuspiciousHighLiters? || t.FuelingTooSoonAfterPreviousFill? || t.SuspiciousHighLitersVsDistance?
    ensures Shaped(t)
  {}

  lemma PatternTexts(t: AlertType)
    requires t.SuspiciousConsumptionDeviation? || t.SuspiciousHighRiskCombination?
    ensures Shaped(t)
  {}

  lemma TypeTexts(t: AlertType)
    ensures Shaped(t)
  {
    if t.ComplianceExpired? || t.ComplianceExpiringSoon? || t.MissingDailyCheck? {
      ComplianceTexts(t);
    } else if t.CriticalChecklistIssue? || t.ChecklistIssueReported? || t.RepeatedChecklistIssuesVehicle? {
      ChecklistTexts(t);
    } else if t.SuspiciousHighLiters? || t.FuelingTooSoonAfterPreviousFill? || t.SuspiciousHighLitersVsDistance? {
      VolumeTexts(t);
    } else if t.SuspiciousConsumptionDeviation? || t.SuspiciousHighRiskCombination? {
      PatternTexts(t);
    } else {
      EntryTexts(t);
    }
  }

  lemma ShapesDiffer(t: AlertType, u: AlertType)
    requires Shape(t) == Shape(u)
    ensures t == u
  {}

  /** An alert id determines the alert's type and record. */
  lemma IdsTellAlertsApart(a: Alert, b: Alert)
    ensures a.Id() == b.Id() <==> a.alertType == b.alertType && a.relatedRecordId == b.relatedRecordId
  {
    if a.Id() == b.Id() {
      TypeTexts(a.alertType);
      TypeTexts(b.alertType);
      Text.SplitFirst(TypeText(a.alertType), a.relatedRecordId, TypeText(b.alertType), b.relatedRecordId, ':');
      ShapesDiffer(a.alertType, b.alertType);
    }
  }

  ghost predicate SameAlert(a: Alert, b: Alert) {
    a.alertType == b.alertType && a.relatedRecordId == b.relatedRecordId
  }

  ghost predicate NoRepeats(s: seq<Alert>) {
    forall i, j :: 0 <= i < j < |s| ==> !SameAlert(s[i], s[j])
  }

  ghost predicate DistinctIds(s: seq<Alert>) {
    forall i, j :: 0 <= i < j < |s| ==> s[i].Id() != s[j].Id()
  }

  lemma DistinctIdsIffNoRepeats(s: seq<Alert>)
    ensures DistinctIds(s) <==> NoRepeats(s)
  {
    forall i, j | 0 <= i < j < |s| ensures s[i].Id() == s[j].Id() <==> SameAlert(s[i], s[j]) {
      IdsTellAlertsApart(s[i], s[j]);
    }
  }

  /** A loop over distinct records whose alerts name the record, once per type, repeats nothing. */
  lemma {:induction false} LoopHasNoRepeats<T>(f: T -> seq<Alert>, s: seq<T>, key: T -> string)
    requires forall k :: 0 <= k < |s| ==> NoRepeats(f(s[k])) && NamesOnly(f(s[k]), key(s[k]))
    requires forall k, l :: 0 <= k < l < |s| ==> key(s[k]) != key(s[l])
    ensures NoRepeats(FlatMap(f, s))
    ensures forall a :: a in FlatMap(f, s) ==> exists k :: 0 <= k < |s| && a.relatedRecordId == key(s[k])
  {
    if s != [] {
      var n := |s| - 1;
      var front := s[..n];
      LoopHasNoRepeats(f, front, key);
      forall a | a in FlatMap(f, s) ensures exists k :: 0 <= k < |s| && a.relatedRecordId == key(s[k]) {
        if a in FlatMap(f, front) {
          var k :| 0 <= k < n && a.relatedRecordId == key(front[k]);
          assert s[k] == front[k];
        } else {
          assert a in f(s[n]) && a.relatedRecordId == key(s[n]);
        }
      }
      var all, last := FlatMap(f, front), f(s[n]);
      forall i, j | 0 <= i < |all| && 0 <= j < |last| ensures !SameAlert(all[i], last[j]) {
        assert all[i] in all && last[j] in last;
        var k :| 0 <= k < n && all[i].relatedRecordId == key(front[k]);
        assert key(s[k]) != key(s[n]);
      }
    }
  }

  ghost predicate NamesOnly(alerts: seq<Alert>, recordId: string) {
    forall a :: a in alerts ==> a.relatedRecordId == recordId
  }

  function Loop(t: AlertType): nat {
    match t
    case ComplianceExpired => 0 case ComplianceExpiringSoon => 0
    case MissingDailyCheck => 1
    case CriticalChecklistIssue => 2 case ChecklistIssueReported => 2 case RepeatedChecklistIssuesVehicle => 2
    case DriverFrequentSkips => 3
    case FuelMissingReceipt => 4 case FuelUsedOdometerFallback => 4
    case FuelUsedApprovedSource => 4 case SuspiciousHighLiters => 4
    case FuelingTooSoonAfterPreviousFill => 5 case SuspiciousHighLitersVsDistance => 5
    case SuspiciousConsumptionDeviation => 5 case SuspiciousHighRiskCombination => 5
  }

  ghost predicate OfLoop(alerts: seq<Alert>, loop: nat) {
    forall a :: a in alerts ==> Loop(a.alertType) == loop
  }

  lemma {:induction false} LoopTypes<T>(f: T -> seq<Alert>, s: seq<T>, loop: nat)
    requires forall x :: x in s ==> OfLoop(f(x), loop)
    ensures OfLoop(FlatMap(f, s), loop)
  {
    if s != [] {
      LoopTypes(f, s[..|s| - 1], loop);
      assert s[|s| - 1] in s;
    }
  }

  ghost predicate BelowLoop(alerts: seq<Alert>, loop: nat) {
    forall a :: a in alerts ==> Loop(a.alertType) < loop
  }

  lemma AppendLoop(before: seq<Alert>, next: seq<Alert>, loop: nat)
    requires BelowLoop(before, loop) && OfLoop(next, loop)
    ensures BelowLoop(before + next, loop + 1)
    ensures NoRepeats(before + next) <==> NoRepeats(before) && NoRepeats(next)
  {
    var s := before + next;
    if NoRepeats(before) && NoRepeats(next) {
      forall i, j | 0 <= i < j < |s| ensures !SameAlert(s[i], s[j]) {
        if i < |before| <= j {
          assert s[i] in before && s[j] in next;
        }
      }
    }
    if NoRepeats(s) {
      forall i, j | 0 <= i < j < |before| ensures !SameAlert(before[i], before[j]) {
        assert s[i] == before[i] && s[j] == before[j];
      }
      forall i, j | 0 <= i < j < |next| ensures !SameAlert(next[i], next[j]) {
        assert s[|before| + i] == next[i] && s[|before| + j] == next[j];
      }
    }
  }

  // ---------------------------------------------------------------- the inputs

  /** Rows of one table have distinct keys; the two fuel queries see the same rows, the second in time order. */
  ghost predicate Consistent(i: Inputs) {
    && (forall k, l :: 0 <= k < l < |i.complianceRows| ==> i.complianceRows[k].id != i.complianceRows[l].id)
    && Distinct(i.activeVehicles) && Distinct(i.frequentSkippers)
    && (forall k, l :: 0 <= k < l < |i.checksWithIssues| ==> i.checksWithIssues[k].id != i.checksWithIssues[l].id)
    && (forall k, l :: 0 <= k < l < |i.fuelEntriesToday| ==> i.fuelEntriesToday[k].row.id != i.fuelEntriesToday[l].row.id)
    && DistinctRows(i.fuelEntriesLookback) && Chronological(i.fuelEntriesLookback)
    && (forall e :: e in i.fuelEntriesToday ==> e.row in i.fuelEntriesLookback)
  }

  ghost predicate DistinctRows(rows: seq<FuelRow>) {
    forall k, l :: 0 <= k < l < |rows| ==> rows[k].id != rows[l].id
  }

  /** No two of today's fills of a vehicle carry the same time. */
  ghost predicate DistinctTimes(today: seq<FuelEntry>) {
    forall k, l :: 0 <= k < l < |today| ==>
      !(today[k].row.vehicleId == today[l].row.vehicleId && today[k].row.createdAt == today[l].row.createdAt)
  }

  /** The record that the anomaly alerts of a fill name. */
  function AssessedRecord(lookback: seq<FuelRow>): FuelEntry -> string {
    (e: FuelEntry) => var h := History(lookback, e); if h == [] then "" else h[|h| - 1].id
  }

  /** One record, at most one alert per type, all types of one loop. */
  ghost predicate OnePerType(s: seq<Alert>, recordId: string, loop: nat) {
    NoRepeats(s) && NamesOnly(s, recordId) && OfLoop(s, loop)
  }

  lemma AppendType(s: seq<Alert>, next: seq<Alert>, t: AlertType, recordId: string)
    requires OnePerType(s, recordId, Loop(t)) && forall a :: a in s ==> a.alertType != t
    requires |next| <= 1 && forall a :: a in next ==> a.alertType == t && a.relatedRecordId == recordId
    ensures OnePerType(s + next, recordId, Loop(t))
    ensures forall a :: a in s + next ==> a.alertType == t || a in s
  {
    forall i, j | 0 <= i < j < |s + next| ensures !SameAlert((s + next)[i], (s + next)[j]) {
      assert (s + next)[i] in s;
      if j >= |s| {
        assert (s + next)[j] in next;
      }
    }
  }

  ghost predicate AtMostOne(s: seq<Alert>, t: AlertType, recordId: string) {
    |s| <= 1 && forall a :: a in s ==> a.alertType == t && a.relatedRecordId == recordId
  }

  lemma FourTypes(
    p: seq<Alert>, q: seq<Alert>, r: seq<Alert>, s: seq<Alert>,
    a: AlertType, b: AlertType, c: AlertType, d: AlertType, recordId: string)
    requires AtMostOne(p, a, recordId) && AtMostOne(q, b, recordId) && AtMostOne(r, c, recordId) && AtMostOne(s, d, recordId)
    requires Distinct([a, b, c, d]) && Loop(a) == Loop(b) == Loop(c) == Loop(d)
    ensures OnePerType(p + q + r + s, recordId, Loop(a))
  {
    var types := [a, b, c, d];
    assert types[0] != types[1] && types[0] != types[2] && types[0] != types[3]
      && types[1] != types[2] && types[1] != types[3] && types[2] != types[3];
    AppendType(p, q, b, recordId);
    AppendType(p + q, r, c, recordId);
    AppendType(p + q + r, s, d, recordId);
  }

  lemma FourAlertsOnce(recordId: string, at: int, a: Option<Severity>, b: Option<Severity>, c: Option<Severity>, d: Option<Severity>)
    ensures OnePerType(FourAlerts(recordId, at, a, b, c, d), recordId, 5)
  {
    FourTypes(
      Graded(FuelingTooSoonAfterPreviousFill, a, recordId, at), Graded(SuspiciousHighLitersVsDistance, b, recordId, at),
      Graded(SuspiciousConsumptionDeviation, c, recordId, at), Graded(SuspiciousHighRiskCombination, d, recordId, at),
      FuelingTooSoonAfterPreviousFill, SuspiciousHighLitersVsDistance,
      SuspiciousConsumptionDeviation, SuspiciousHighRiskCombination, recordId);
  }

  lemma EntryAlertsOnce(e: FuelEntry)
    ensures OnePerType(EntryAlerts(e), e.row.id, 4)
  {
    FourTypes(
      When(MissingReceipt(e), Alert(FuelMissingReceipt, Medium, e.row.id, e.row.createdAt)),
      When(e.odometerFallbackUsed, Alert(FuelUsedOdometerFallback, Medium, e.row.id, e.row.createdAt)),
      When(e.sourceType.ApprovedSource?, Alert(FuelUsedApprovedSource, Medium, e.row.id, e.row.createdAt)),
      When(e.row.liters > HIGH_LITERS_THRESHOLD, Alert(SuspiciousHighLiters, High, e.row.id, e.row.createdAt)),
      FuelMissingReceipt, FuelUsedOdometerFallback, FuelUsedApprovedSource, SuspiciousHighLiters, e.row.id);
  }

  lemma CheckAlertsOnce(c: CheckWithIssues, repeated: map<string, nat>)
    ensures OnePerType(CheckAlerts(c, repeated), c.id, 2)
  {
    var critical := c.criticalNotOkCount > 0;
    var count := if c.vehicleId in repeated then repeated[c.vehicleId] else 0;
    var p := When(critical, Alert(CriticalChecklistIssue, High, c.id, c.createdAt));
    var q := [Alert(ChecklistIssueReported, if critical then High else Medium, c.id, c.createdAt)];
    var r := When(count >= REPEATED_CHECKLIST_ISSUE_THRESHOLD,
      Alert(RepeatedChecklistIssuesVehicle, Medium, c.id, c.createdAt));
    AppendType(p, q, ChecklistIssueReported, c.id);
    AppendType(p + q, r, RepeatedChecklistIssuesVehicle, c.id);
  }

  lemma AnomalyAlertsOnce(lookback: seq<FuelRow>, e: FuelEntry)
    ensures OnePerType(AnomalyAlerts(e, lookback), AssessedRecord(lookback)(e), 5)
  {
    var h := History(lookback, e);
    if |h| >= 2 {
      var a := Assess(h);
      FourAlertsOnce(a.current.id, a.current.createdAt, GradeIf(a.tooSoon, true),
        GradeIf(HighLiters(a), VeryHighLiters(a)), GradeIf(AbnormalDeviation(a), SevereDeviation(a)),
        GradeIf(RiskScore(e, a) >= HIGH_RISK_SCORE_THRESHOLD, RiskScore(e, a) >= 80));
    }
  }

  lemma SameIdSameRow(rows: seq<FuelRow>, a: FuelRow, b: FuelRow)
    requires DistinctRows(rows) && a in rows && b in rows && a.id == b.id
    ensures a == b
  {
    var i :| 0 <= i < |rows| && rows[i] == a;
    var j :| 0 <= j < |rows| && rows[j] == b;
  }

  /** Fills of different vehicles or times are assessed as different rows. */
  lemma AssessedApart(lookback: seq<FuelRow>, d: FuelEntry, e: FuelEntry)
    requires Chronological(lookback) && DistinctRows(lookback) && d.row in lookback && e.row in lookback
    requires d.row.vehicleId != e.row.vehicleId || d.row.createdAt != e.row.createdAt
    ensures AssessedRecord(lookback)(d) != AssessedRecord(lookback)(e)
  {
    var g := AssessedRow(lookback, d);
    var h := AssessedRow(lookback, e);
    if g.id == h.id {
      SameIdSameRow(lookback, g, h);
    }
  }

  lemma AssessedRow(lookback: seq<FuelRow>, e: FuelEntry) returns (r: FuelRow)
    requires Chronological(lookback) && e.row in lookback
    ensures r in lookback && r.vehicleId == e.row.vehicleId && r.createdAt == e.row.createdAt
    ensures AssessedRecord(lookback)(e) == r.id
  {
    LastOfHistory(lookback, e);
    var h := History(lookback, e);
    r := h[|h| - 1];
  }

  /** With distinct times, different fills are assessed under different records. */
  lemma DistinctTimesSuffice(i: Inputs)
    requires Consistent(i) && DistinctTimes(i.fuelEntriesToday)
    ensures NoRepeats(FlatMap(AnomalyLoop(i.fuelEntriesLookback), i.fuelEntriesToday))
  {
    var lookback, today := i.fuelEntriesLookback, i.fuelEntriesToday;
    var key := AssessedRecord(lookback);
    forall k, l | 0 <= k < l < |today| ensures key(today[k]) != key(today[l]) {
      assert today[k] in today && today[l] in today;
      AssessedApart(lookback, today[k], today[l]);
    }
    forall k | 0 <= k < |today|
      ensures NoRepeats(AnomalyLoop(lookback)(today[k])) && NamesOnly(AnomalyLoop(lookback)(today[k]), key(today[k]))
    {
      AnomalyAlertsOnce(lookback, today[k]);
    }
    LoopHasNoRepeats(AnomalyLoop(lookback), today, key);
  }

  lemma {:induction false} AlertOfElement<T>(f: T -> seq<Alert>, s: seq<T>, k: nat) returns (p: nat)
    requires k < |s| && f(s[k]) != []
    ensures p < |FlatMap(f, s)| && FlatMap(f, s)[p] == f(s[k])[0]
    ensures p == |FlatMap(f, s[..k])|
  {
    if k == |s| - 1 {
      p := |FlatMap(f, s[..k])|;
    } else {
      assert s[..|s| - 1][..k] == s[..k];
      p := AlertOfElement(f, s[..|s| - 1], k);
    }
  }

  lemma {:induction false} FlatMapGrows<T>(f: T -> seq<Alert>, s: seq<T>, k: nat, l: nat)
    requires k < l <= |s| && f(s[k]) != []
    ensures |FlatMap(f, s[..k])| < |FlatMap(f, s[..l])|
  {
    assert s[..l][..l - 1] == s[..l - 1];
    if k < l - 1 {
      FlatMapGrows(f, s, k, l - 1);
    }
  }

  /** Two fills of a vehicle with one time are both reported, as too soon, under the same record. */
  lemma EqualTimesRepeat(i: Inputs, k: nat, l: nat)
    requires Consistent(i) && k < l < |i.fuelEntriesToday|
    requires i.fuelEntriesToday[k].row.vehicleId == i.fuelEntriesToday[l].row.vehicleId
    requires i.fuelEntriesToday[k].row.createdAt == i.fuelEntriesToday[l].row.createdAt
    ensures !NoRepeats(FlatMap(AnomalyLoop(i.fuelEntriesLookback), i.fuelEntriesToday))
  {
    var lookback, today := i.fuelEntriesLookback, i.fuelEntriesToday;
    var d, e := today[k], today[l];
    assert d in today && e in today;
    LastOfHistory(lookback, d);
    LastOfHistory(lookback, e);
    var h := History(lookback, d);
    assert h == History(lookback, e);
    TiedFillsAreTooSoon(h, d.row, e.row);
    var loop := AnomalyLoop(lookback);
    FirstAlertIsTooSoon(d, Assess(h));
    FirstAlertIsTooSoon(e, Assess(h));
    var p := AlertOfElement(loop, today, k);
    var q := AlertOfElement(loop, today, l);
    FlatMapGrows(loop, today, k, l);
    assert SameAlert(FlatMap(loop, today)[p], FlatMap(loop, today)[q]);
  }

  lemma TiedFillsAreTooSoon(h: seq<FuelRow>, a: FuelRow, b: FuelRow)
    requires Chronological(h) && OneVehicle(h) && a in h && b in h && a != b
    requires a.createdAt == b.createdAt && h[|h| - 1].createdAt == a.createdAt
    ensures |h| >= 2 && Assess(h).tooSoon
  {
    var i :| 0 <= i < |h| && h[i] == a;
    var j :| 0 <= j < |h| && h[j] == b;
    var first := if i < j then i else j;
    assert h[first].createdAt <= h[|h| - 2].createdAt <= h[|h| - 1].createdAt;
  }

  lemma FirstAlertIsTooSoon(e: FuelEntry, a: Assessment)
    requires a.tooSoon
    ensures var s := AssessedAlerts(e, a);
      s != [] && s[0].alertType == FuelingTooSoonAfterPreviousFill && s[0].relatedRecordId == a.current.id
  {}

  /** A whole loop over the rows of one table. */
  lemma LoopOnce<T>(f: T -> seq<Alert>, s: seq<T>, key: T -> string, loop: nat)
    requires forall x :: x in s ==> OnePerType(f(x), key(x), loop)
    requires forall k, l :: 0 <= k < l < |s| ==> key(s[k]) != key(s[l])
    ensures NoRepeats(FlatMap(f, s)) && OfLoop(FlatMap(f, s), loop)
  {
    LoopHasNoRepeats(f, s, key);
    LoopTypes(f, s, loop);
  }

  lemma TableLoops(i: Inputs)
    requires Consistent(i)
    ensures var c, k := FlatMap(ComplianceLoop(i), i.complianceRows), FlatMap(CheckLoop(i), i.checksWithIssues);
      NoRepeats(c) && OfLoop(c, 0) && NoRepeats(k) && OfLoop(k, 2)
    ensures var m, s := FlatMap(MissingLoop(i), i.activeVehicles), FlatMap(SkipperLoop(i), i.frequentSkippers);
      NoRepeats(m) && OfLoop(m, 1) && NoRepeats(s) && OfLoop(s, 3)
  {
    LoopOnce(ComplianceLoop(i), i.complianceRows, (c: ComplianceRow) => c.id, 0);
    LoopOnce(MissingLoop(i), i.activeVehicles, (v: string) => v, 1);
    LoopOnce(SkipperLoop(i), i.frequentSkippers, (d: string) => d, 3);
    forall c | c in i.checksWithIssues ensures OnePerType(CheckLoop(i)(c), c.id, 2) {
      CheckAlertsOnce(c, i.repeatedVehicleIssues);
    }
    LoopOnce(CheckLoop(i), i.checksWithIssues, (c: CheckWithIssues) => c.id, 2);
  }

  lemma EntryLoop(i: Inputs)
    requires Consistent(i)
    ensures NoRepeats(FlatMap(EntryAlerts, i.fuelEntriesToday)) && OfLoop(FlatMap(EntryAlerts, i.fuelEntriesToday), 4)
  {
    forall e | e in i.fuelEntriesToday ensures OnePerType(EntryAlerts(e), e.row.id, 4) {
      EntryAlertsOnce(e);
    }
    LoopOnce(EntryAlerts, i.fuelEntriesToday, (e: FuelEntry) => e.row.id, 4);
  }

  lemma SixLoops(c: seq<Alert>, m: seq<Alert>, k: seq<Alert>, s: seq<Alert>, f: seq<Alert>, a: seq<Alert>)
    requires OfLoop(c, 0) && OfLoop(m, 1) && OfLoop(k, 2) && OfLoop(s, 3) && OfLoop(f, 4) && OfLoop(a, 5)
    requires NoRepeats(c) && NoRepeats(m) && NoRepeats(k) && NoRepeats(s) && NoRepeats(f)
    ensures NoRepeats(c + m + k + s + f + a) <==> NoRepeats(a)
  {
    AppendLoop(c, m, 1);
    AppendLoop(c + m, k, 2);
    AppendLoop(c + m + k, s, 3);
    AppendLoop(c + m + k + s, f, 4);
    AppendLoop(c + m + k + s + f, a, 5);
  }

  /** All ids of all alerts of a dashboard are distinct exactly when no two of the day's fills
      of a vehicle carry the same time. */
  lemma AllAlertIdsDistinct(i: Inputs)
    requires Consistent(i)
    ensures DistinctIds(AllAlerts(i)) <==> DistinctTimes(i.fuelEntriesToday)
  {
    TableLoops(i);
    EntryLoop(i);
    AnomalyLoopTypes(i);
    DistinctIdsIffNoRepeats(AllAlerts(i));
    SixLoops(
      FlatMap(ComplianceLoop(i), i.complianceRows),
      if i.cutoffPassed then FlatMap(MissingLoop(i), i.activeVehicles) else [],
      FlatMap(CheckLoop(i), i.checksWithIssues),
      if i.cutoffPassed then FlatMap(SkipperLoop(i), i.frequentSkippers) else [],
      FlatMap(EntryAlerts, i.fuelEntriesToday),
      FlatMap(AnomalyLoop(i.fuelEntriesLookback), i.fuelEntriesToday));
    if DistinctTimes(i.fuelEntriesToday) {
      DistinctTimesSuffice(i);
    } else {
      var today := i.fuelEntriesToday;
      var x, y :| 0 <= x < y < |today|
        && today[x].row.vehicleId == today[y].row.vehicleId && today[x].row.createdAt == today[y].row.createdAt;
      EqualTimesRepeat(i, x, y);
    }
  }

  lemma AnomalyLoopTypes(i: Inputs)
    ensures OfLoop(FlatMap(AnomalyLoop(i.fuelEntriesLookback), i.fuelEntriesToday), 5)
  {
    forall e | e in i.fuelEntriesToday ensures OfLoop(AnomalyLoop(i.fuelEntriesLookback)(e), 5) {
      AnomalyAlertsOnce(i.fuelEntriesLookback, e);
    }
    LoopTypes(AnomalyLoop(i.fuelEntriesLookback), i.fuelEntriesToday, 5);
  }

  // ---------------------------------------------------------------- alerts that come together

  lemma {:induction false} FromSomeElement<T>(f: T -> seq<Alert>, s: seq<T>, a: Alert)
    requires a in FlatMap(f, s)
    ensures exists x :: x in s && a in f(x)
  {
    if a in f(s[|s| - 1]) {
      assert s[|s| - 1] in s;
    } else {
      FromSomeElement(f, s[..|s| - 1], a);
    }
  }

  lemma LoopsBeforeAnomalies(i: Inputs)
    ensures OfLoop(FlatMap(ComplianceLoop(i), i.complianceRows), 0)
    ensures OfLoop(FlatMap(MissingLoop(i), i.activeVehicles), 1)
    ensures OfLoop(FlatMap(CheckLoop(i), i.checksWithIssues), 2)
    ensures OfLoop(FlatMap(SkipperLoop(i), i.frequentSkippers), 3)
    ensures OfLoop(FlatMap(EntryAlerts, i.fuelEntriesToday), 4)
  {
    forall c | c in i.checksWithIssues ensures OfLoop(CheckLoop(i)(c), 2) {
      CheckAlertsOnce(c, i.repeatedVehicleIssues);
    }
    forall e | e in i.fuelEntriesToday ensures OfLoop(EntryAlerts(e), 4) {
      EntryAlertsOnce(e);
    }
    LoopTypes(ComplianceLoop(i), i.complianceRows, 0);
    LoopTypes(MissingLoop(i), i.activeVehicles, 1);
    LoopTypes(CheckLoop(i), i.checksWithIssues, 2);
    LoopTypes(SkipperLoop(i), i.frequentSkippers, 3);
    LoopTypes(EntryAlerts, i.fuelEntriesToday, 4);
  }

  lemma SomeElementAlert<T>(f: T -> seq<Alert>, s: seq<T>, x: T, a: Alert)
    requires x in s && a in f(x)
    ensures a in FlatMap(f, s)
  {
    var k :| 0 <= k < |s| && s[k] == x;
    ElementAlert(f, s, k, a);
  }

  lemma {:induction false} ElementAlert<T>(f: T -> seq<Alert>, s: seq<T>, k: nat, a: Alert)
    requires k < |s| && a in f(s[k])
    ensures a in FlatMap(f, s)
  {
    if k < |s| - 1 {
      ElementAlert(f, s[..|s| - 1], k, a);
    }
  }

  ghost predicate DeviationFor(a: Alert, b: Alert) {
    b.alertType.SuspiciousConsumptionDeviation? && b.relatedRecordId == a.relatedRecordId && (a.severity.High? ==> b.severity.High?)
  }

  lemma DeviationOfSameFill(e: FuelEntry, lookback: seq<FuelRow>, a: Alert) returns (b: Alert)
    requires a in AnomalyAlerts(e, lookback) && a.alertType.SuspiciousHighLitersVsDistance?
    ensures b in AnomalyAlerts(e, lookback) && DeviationFor(a, b)
  {
    var s := AnomalyAlerts(e, lookback);
    HighLitersImpliesDeviationAlert(e, lookback);
    var k :| 0 <= k < |s| && s[k] == a;
    assert Raised(s, SuspiciousHighLitersVsDistance, a.severity);
    var grade := if Raised(s, SuspiciousConsumptionDeviation, High) then High else Medium;
    var l :| 0 <= l < |s| && s[l].alertType == SuspiciousConsumptionDeviation && s[l].severity == grade;
    b := s[l];
  }

  lemma LastOfSix(c: seq<Alert>, m: seq<Alert>, k: seq<Alert>, s: seq<Alert>, f: seq<Alert>, x: seq<Alert>, a: Alert)
    requires OfLoop(c, 0) && OfLoop(m, 1) && OfLoop(k, 2) && OfLoop(s, 3) && OfLoop(f, 4)
    ensures a in x ==> a in c + m + k + s + f + x
    ensures a in c + m + k + s + f + x && Loop(a.alertType) == 5 ==> a in x
  {}

  lemma AnomalyLoopIn(i: Inputs, a: Alert)
    requires Loop(a.alertType) == 5
    ensures a in AllAlerts(i) <==> a in FlatMap(AnomalyLoop(i.fuelEntriesLookback), i.fuelEntriesToday)
  {
    LoopsBeforeAnomalies(i);
    LastOfSix(FlatMap(ComplianceLoop(i), i.complianceRows),
      if i.cutoffPassed then FlatMap(MissingLoop(i), i.activeVehicles) else [],
      FlatMap(CheckLoop(i), i.checksWithIssues),
      if i.cutoffPassed then FlatMap(SkipperLoop(i), i.frequentSkippers) else [],
      FlatMap(EntryAlerts, i.fuelEntriesToday),
      FlatMap(AnomalyLoop(i.fuelEntriesLookback), i.fuelEntriesToday), a);
  }

  ghost predicate InPairs(s: seq<Alert>) {
    forall a :: a in s && a.alertType.SuspiciousHighLitersVsDistance? ==> exists b :: b in s && DeviationFor(a, b)
  }

  lemma LoopIsInPairs(lookback: seq<FuelRow>, today: seq<FuelEntry>)
    ensures InPairs(FlatMap(AnomalyLoop(lookback), today))
  {
    forall a | a in FlatMap(AnomalyLoop(lookback), today) && a.alertType.SuspiciousHighLitersVsDistance?
      ensures exists b :: b in FlatMap(AnomalyLoop(lookback), today) && DeviationFor(a, b)
    {
      var b := PairInLoop(lookback, today, a);
    }
  }

  lemma PairInLoop(lookback: seq<FuelRow>, today: seq<FuelEntry>, a: Alert) returns (b: Alert)
    requires a in FlatMap(AnomalyLoop(lookback), today) && a.alertType.SuspiciousHighLitersVsDistance?
    ensures b in FlatMap(AnomalyLoop(lookback), today) && DeviationFor(a, b)
  {
    FromSomeElement(AnomalyLoop(lookback), today, a);
    var e :| e in today && a in AnomalyLoop(lookback)(e);
    b := DeviationOfSameFill(e, lookback, a);
    SomeElementAlert(AnomalyLoop(lookback), today, e, b);
  }

  /** Pairs of one loop are pairs of a list that has the same alerts of that loop. */
  lemma PairInAlerts(alerts: seq<Alert>, loop: seq<Alert>, a: Alert) returns (b: Alert)
    requires InPairs(loop) && forall x: Alert :: Loop(x.alertType) == 5 ==> (x in alerts <==> x in loop)
    requires a in alerts && a.alertType.SuspiciousHighLitersVsDistance?
    ensures b in alerts && DeviationFor(a, b)
  {
    assert Loop(a.alertType) == 5;
    b :| b in loop && DeviationFor(a, b);
    assert Loop(b.alertType) == 5;
  }

  /** Of all alerts of a dashboard, every one about litres against distance has one about the consumption deviation
      of the same record beside it, HIGH with HIGH. */
  lemma HighLitersAlertsComeInPairs(i: Inputs, a: Alert) returns (b: Alert)
    requires a in AllAlerts(i) && a.alertType.SuspiciousHighLitersVsDistance?
    ensures b in AllAlerts(i) && DeviationFor(a, b)
  {
    var loop := FlatMap(AnomalyLoop(i.fuelEntriesLookback), i.fuelEntriesToday);
    forall x: Alert | Loop(x.alertType) == 5 ensures x in AllAlerts(i) <==> x in loop {
      AnomalyLoopIn(i, x);
    }
    LoopIsInPairs(i.fuelEntriesLookback, i.fuelEntriesToday);
    b := PairInAlerts(AllAlerts(i), loop, a);
  }
}
