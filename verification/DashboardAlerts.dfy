/** The alert-producing loops of the tenant dashboard (alerts.service.ts). */
module DashboardAlerts {
  import opened Common
  import opened FuelBaseline

  const HIGH_LITERS_THRESHOLD := 120.0
  const HIGH_RISK_SCORE_THRESHOLD: nat := 60
  const REPEATED_CHECKLIST_ISSUE_THRESHOLD: nat := 2

  datatype AlertType =
    | ComplianceExpired | ComplianceExpiringSoon | MissingDailyCheck
    | CriticalChecklistIssue | ChecklistIssueReported | RepeatedChecklistIssuesVehicle
    | DriverFrequentSkips | FuelMissingReceipt | FuelUsedOdometerFallback | FuelUsedApprovedSource
    | SuspiciousHighLiters | FuelingTooSoonAfterPreviousFill | SuspiciousHighLitersVsDistance
    | SuspiciousConsumptionDeviation | SuspiciousHighRiskCombination

  datatype Severity = Medium | High

  datatype Alert = Alert(alertType: AlertType, severity: Severity, relatedRecordId: string, occurredAt: int) {
    function Id(): string { MakeAlertId(alertType, relatedRecordId) }
  }

  datatype SourceType = Card | Tank | Station | Manual | ApprovedSource

  datatype FuelEntry = FuelEntry(
    row: FuelRow, sourceType: SourceType, receiptUrl: Option<string>, odometerFallbackUsed: bool)

  datatype ComplianceRow = ComplianceRow(id: string, expiryDate: Option<int>, createdAt: int)

  datatype CheckWithIssues = CheckWithIssues(id: string, vehicleId: string, criticalNotOkCount: nat, createdAt: int)

  /** The results of the dashboard queries, and what the clock says. */
  datatype Inputs = Inputs(
    complianceRows: seq<ComplianceRow>, nowDate: int, cutoffPassed: bool,
    activeVehicles: seq<string>, submittedVehicleIds: set<string>,
    checksWithIssues: seq<CheckWithIssues>, repeatedVehicleIssues: map<string, nat>,
    frequentSkippers: seq<string>, dayEnd: int,
    fuelEntriesToday: seq<FuelEntry>, fuelEntriesLookback: seq<FuelRow>)

  function TypeText(t: AlertType): string {
    match t
    case ComplianceExpired => "compliance_expired"
    case ComplianceExpiringSoon => "compliance_expiring_soon"
    case MissingDailyCheck => "missing_daily_check"
    case CriticalChecklistIssue => "critical_checklist_issue"
    case ChecklistIssueReported => "checklist_issue_reported"
    case RepeatedChecklistIssuesVehicle => "repeated_checklist_issues_vehicle"
    case DriverFrequentSkips => "driver_frequent_skips"
    case FuelMissingReceipt => "fuel_missing_receipt"
    case FuelUsedOdometerFallback => "fuel_used_odometer_fallback"
    case FuelUsedApprovedSource => "fuel_used_approved_source"
    case SuspiciousHighLiters => "suspicious_high_liters"
    case FuelingTooSoonAfterPreviousFill => "fueling_too_soon_after_previous_fill"
    case SuspiciousHighLitersVsDistance => "suspicious_high_liters_vs_distance"
    case SuspiciousConsumptionDeviation => "suspicious_consumption_deviation"
    case SuspiciousHighRiskCombination => "suspicious_high_risk_combination"
  }

  function MakeAlertId(t: AlertType, recordId: string): string { TypeText(t) + [':'] + recordId }

  function When(condition: bool, a: Alert): seq<Alert> { if condition then [a] else [] }

  // ---------------------------------------------------------------- the loops, one element each

  function ComplianceAlerts(c: ComplianceRow, nowDate: int): seq<Alert> {
    if c.expiryDate.None? then []
    else if c.expiryDate.value < nowDate then [Alert(ComplianceExpired, High, c.id, c.createdAt)]
    else [Alert(ComplianceExpiringSoon, Medium, c.id, c.createdAt)]
  }

  function MissingCheckAlerts(vehicleId: string, submitted: set<string>, dayEnd: int): seq<Alert> {
    When(vehicleId !in submitted, Alert(MissingDailyCheck, High, vehicleId, dayEnd))
  }

  function CheckAlerts(c: CheckWithIssues, repeated: map<string, nat>): seq<Alert> {
    var critical := c.criticalNotOkCount > 0;
    var repeatedIssueCount := if c.vehicleId in repeated then repeated[c.vehicleId] else 0;
    When(critical, Alert(CriticalChecklistIssue, High, c.id, c.createdAt))
    + [Alert(ChecklistIssueReported, if critical then High else Medium, c.id, c.createdAt)]
    + When(repeatedIssueCount >= REPEATED_CHECKLIST_ISSUE_THRESHOLD,
           Alert(RepeatedChecklistIssuesVehicle, Medium, c.id, c.createdAt))
  }

  function SkipperAlerts(driverId: string, dayEnd: int): seq<Alert> {
    [Alert(DriverFrequentSkips, Medium, driverId, dayEnd)]
  }

  predicate MissingReceipt(e: FuelEntry) {
    (e.sourceType.Card? || e.sourceType.Station? || e.sourceType.ApprovedSource?) && e.receiptUrl.GetOr("") == ""
  }

  function EntryAlerts(e: FuelEntry): seq<Alert> {
    When(MissingReceipt(e), Alert(FuelMissingReceipt, Medium, e.row.id, e.row.createdAt))
    + When(e.odometerFallbackUsed, Alert(FuelUsedOdometerFallback, Medium, e.row.id, e.row.createdAt))
    + When(e.sourceType.ApprovedSource?, Alert(FuelUsedApprovedSource, Medium, e.row.id, e.row.createdAt))
    + When(e.row.liters > HIGH_LITERS_THRESHOLD, Alert(SuspiciousHighLiters, High, e.row.id, e.row.createdAt))
  }

  function Series(lookback: seq<FuelRow>, vehicleId: string): seq<FuelRow> {
    Filter((r: FuelRow) => r.vehicleId == vehicleId, lookback)
  }

  function Until(series: seq<FuelRow>, at: int): seq<FuelRow> {
    Filter((r: FuelRow) => r.createdAt <= at, series)
  }

  function History(lookback: seq<FuelRow>, e: FuelEntry): seq<FuelRow> {
    Until(Series(lookback, e.row.vehicleId), e.row.createdAt)
  }

  function RiskScore(e: FuelEntry, a: Assessment): nat {
    (if MissingReceipt(e) then 20 else 0) + (if e.odometerFallbackUsed then 15 else 0)
    + (if e.sourceType.ApprovedSource? then 15 else 0) + (if AbnormalDeviation(a) then 30 else 0)
    + (if a.tooSoon then 20 else 0)
  }

  function Graded(t: AlertType, grade: Option<Severity>, recordId: string, at: int): seq<Alert> {
    if grade.Some? then [Alert(t, grade.value, recordId, at)] else []
  }

  function GradeIf(raised: bool, high: bool): Option<Severity> {
    if !raised then None else if high then Some(High) else Some(Medium)
  }

  function FourAlerts(
    recordId: string, at: int, tooSoon: Option<Severity>, liters: Option<Severity>,
    deviation: Option<Severity>, risk: Option<Severity>): seq<Alert>
  {
    Graded(FuelingTooSoonAfterPreviousFill, tooSoon, recordId, at)
    + Graded(SuspiciousHighLitersVsDistance, liters, recordId, at)
    + Graded(SuspiciousConsumptionDeviation, deviation, recordId, at)
    + Graded(SuspiciousHighRiskCombination, risk, recordId, at)
  }

  /** The four alerts that look at the fill together with its history. */
  function AssessedAlerts(e: FuelEntry, a: Assessment): seq<Alert> {
    FourAlerts(a.current.id, a.current.createdAt,
      GradeIf(a.tooSoon, true),
      GradeIf(HighLiters(a), VeryHighLiters(a)),
      GradeIf(AbnormalDeviation(a), SevereDeviation(a)),
      GradeIf(RiskScore(e, a) >= HIGH_RISK_SCORE_THRESHOLD, RiskScore(e, a) >= 80))
  }

  function AnomalyAlerts(e: FuelEntry, lookback: seq<FuelRow>): seq<Alert> {
    var history := History(lookback, e);
    if |history| < 2 then [] else AssessedAlerts(e, Assess(history))
  }

  // ---------------------------------------------------------------- all loops

  function ComplianceLoop(i: Inputs): ComplianceRow -> seq<Alert> { c => ComplianceAlerts(c, i.nowDate) }
  function MissingLoop(i: Inputs): string -> seq<Alert> { v => MissingCheckAlerts(v, i.submittedVehicleIds, i.dayEnd) }
  function CheckLoop(i: Inputs): CheckWithIssues -> seq<Alert> { c => CheckAlerts(c, i.repeatedVehicleIssues) }
  function SkipperLoop(i: Inputs): string -> seq<Alert> { d => SkipperAlerts(d, i.dayEnd) }
  function AnomalyLoop(lookback: seq<FuelRow>): FuelEntry -> seq<Alert> { e => AnomalyAlerts(e, lookback) }

  /** All alerts, loop by loop. */
  function AllAlerts(i: Inputs): seq<Alert> {
    FlatMap(ComplianceLoop(i), i.complianceRows)
    + (if i.cutoffPassed then FlatMap(MissingLoop(i), i.activeVehicles) else [])
    + FlatMap(CheckLoop(i), i.checksWithIssues)
    + (if i.cutoffPassed then FlatMap(SkipperLoop(i), i.frequentSkippers) else [])
    + FlatMap(EntryAlerts, i.fuelEntriesToday)
    + FlatMap(AnomalyLoop(i.fuelEntriesLookback), i.fuelEntriesToday)
  }

  lemma NextFlatMap<T>(f: T -> seq<Alert>, s: seq<T>, n: nat)
    requires n < |s|
    ensures FlatMap(f, s[..n + 1]) == FlatMap(f, s[..n]) + f(s[n])
    ensures n + 1 == |s| ==> FlatMap(f, s[..n + 1]) == FlatMap(f, s)
  {
    assert s[..n + 1][..n] == s[..n];
    assert s[..|s|] == s;
  }

  /** The alerts as the service collects them, each loop pushing onto one list. */
  method CollectAlerts(i: Inputs) returns (alerts: seq<Alert>)
    ensures alerts == AllAlerts(i)
  {
    var vehicles := CollectVehicleAlerts(i);
    var checks := CollectChecklistAlerts(i);
    var fuel := CollectFuelAlerts(i);
    alerts := vehicles + checks + fuel;
    JoinedPairs(
      FlatMap(ComplianceLoop(i), i.complianceRows), if i.cutoffPassed then FlatMap(MissingLoop(i), i.activeVehicles) else [],
      FlatMap(CheckLoop(i), i.checksWithIssues), if i.cutoffPassed then FlatMap(SkipperLoop(i), i.frequentSkippers) else [],
      FlatMap(EntryAlerts, i.fuelEntriesToday), FlatMap(AnomalyLoop(i.fuelEntriesLookback), i.fuelEntriesToday));
  }

  lemma JoinedPairs<T>(a: seq<T>, b: seq<T>, c: seq<T>, d: seq<T>, e: seq<T>, f: seq<T>)
    ensures (a + b) + (c + d) + (e + f) == a + b + c + d + e + f
  {
    assert (a + b) + (c + d) == a + b + c + d;
  }

  method CollectVehicleAlerts(i: Inputs) returns (alerts: seq<Alert>)
    ensures alerts == FlatMap(ComplianceLoop(i), i.complianceRows)
      + (if i.cutoffPassed then FlatMap(MissingLoop(i), i.activeVehicles) else [])
  {
    alerts := [];
    for n := 0 to |i.complianceRows|
      invariant alerts == FlatMap(ComplianceLoop(i), i.complianceRows[..n])
    {
      NextFlatMap(ComplianceLoop(i), i.complianceRows, n);
      alerts := alerts + ComplianceAlerts(i.complianceRows[n], i.nowDate);
    }
    assert i.complianceRows[..|i.complianceRows|] == i.complianceRows;
    var missing := if i.cutoffPassed then i.activeVehicles else [];
    ghost var done := alerts;
    for n := 0 to |missing|
      invariant alerts == done + FlatMap(MissingLoop(i), missing[..n])
    {
      NextFlatMap(MissingLoop(i), missing, n);
      if missing[n] in i.submittedVehicleIds {
        continue;
      }
      alerts := alerts + [Alert(MissingDailyCheck, High, missing[n], i.dayEnd)];
    }
    assert missing[..|missing|] == missing;
  }

  method CollectChecklistAlerts(i: Inputs) returns (alerts: seq<Alert>)
    ensures alerts == FlatMap(CheckLoop(i), i.checksWithIssues)
      + (if i.cutoffPassed then FlatMap(SkipperLoop(i), i.frequentSkippers) else [])
  {
    alerts := [];
    for n := 0 to |i.checksWithIssues|
      invariant alerts == FlatMap(CheckLoop(i), i.checksWithIssues[..n])
    {
      NextFlatMap(CheckLoop(i), i.checksWithIssues, n);
      alerts := alerts + CheckAlerts(i.checksWithIssues[n], i.repeatedVehicleIssues);
    }
    assert i.checksWithIssues[..|i.checksWithIssues|] == i.checksWithIssues;
    if i.cutoffPassed {
      ghost var done := alerts;
      for n := 0 to |i.frequentSkippers|
        invariant alerts == done + FlatMap(SkipperLoop(i), i.frequentSkippers[..n])
      {
        NextFlatMap(SkipperLoop(i), i.frequentSkippers, n);
        alerts := alerts + [Alert(DriverFrequentSkips, Medium, i.frequentSkippers[n], i.dayEnd)];
      }
      assert i.frequentSkippers[..|i.frequentSkippers|] == i.frequentSkippers;
    }
  }

  method CollectFuelAlerts(i: Inputs) returns (alerts: seq<Alert>)
    ensures alerts == FlatMap(EntryAlerts, i.fuelEntriesToday)
      + FlatMap(AnomalyLoop(i.fuelEntriesLookback), i.fuelEntriesToday)
  {
    alerts := [];
    var today := i.fuelEntriesToday;
    for n := 0 to |today|
      invariant alerts == FlatMap(EntryAlerts, today[..n])
    {
      NextFlatMap(EntryAlerts, today, n);
      alerts := alerts + EntryAlerts(today[n]);
    }
    assert today[..|today|] == today;
    var anomalies := CollectAnomalies(today, i.fuelEntriesLookback);
    alerts := alerts + anomalies;
  }

  method CollectAnomalies(today: seq<FuelEntry>, lookback: seq<FuelRow>) returns (alerts: seq<Alert>)
    ensures alerts == FlatMap(AnomalyLoop(lookback), today)
  {
    alerts := [];
    var byVehicle := GroupByVehicle(lookback);
    for n := 0 to |today|
      invariant alerts == FlatMap(AnomalyLoop(lookback), today[..n])
    {
      NextFlatMap(AnomalyLoop(lookback), today, n);
      var e := today[n];
      var candidateSeries := if e.row.vehicleId in byVehicle then byVehicle[e.row.vehicleId] else [];
      var history := Until(candidateSeries, e.row.createdAt);
      if |history| < 2 {
        continue;
      }
      alerts := alerts + AssessedAlerts(e, Assess(history));
    }
    assert today[..|today|] == today;
  }

  method GroupByVehicle(rows: seq<FuelRow>) returns (groups: map<string, seq<FuelRow>>)
    ensures forall v :: Series(rows, v) == if v in groups then groups[v] else []
  {
    groups := map[];
    for n := 0 to |rows|
      invariant forall v :: Series(rows[..n], v) == if v in groups then groups[v] else []
    {
      assert rows[..n + 1][..n] == rows[..n];
      var item := rows[n];
      groups := groups[item.vehicleId := (if item.vehicleId in groups then groups[item.vehicleId] else []) + [item]];
    }
    assert rows[..|rows|] == rows;
  }

  // ---------------------------------------------------------------- what the alerts say about each other

  ghost predicate Raised(alerts: seq<Alert>, t: AlertType, grade: Severity) {
    exists k :: 0 <= k < |alerts| && alerts[k].alertType == t && alerts[k].severity == grade
  }

  ghost predicate RaisedAtAll(alerts: seq<Alert>, t: AlertType) {
    Raised(alerts, t, Medium) || Raised(alerts, t, High)
  }

  lemma RaisedInEither(a: seq<Alert>, b: seq<Alert>, t: AlertType, grade: Severity)
    ensures Raised(a + b, t, grade) <==> Raised(a, t, grade) || Raised(b, t, grade)
  {
    if Raised(a, t, grade) {
      var k :| 0 <= k < |a| && a[k].alertType == t && a[k].severity == grade;
      assert (a + b)[k] == a[k];
    }
    if Raised(b, t, grade) {
      var k :| 0 <= k < |b| && b[k].alertType == t && b[k].severity == grade;
      assert (a + b)[|a| + k] == b[k];
    }
  }

  lemma RaisedInFour(p: seq<Alert>, q: seq<Alert>, r: seq<Alert>, s: seq<Alert>, t: AlertType, g: Severity)
    ensures Raised(p + q + r + s, t, g) <==> Raised(p, t, g) || Raised(q, t, g) || Raised(r, t, g) || Raised(s, t, g)
  {
    RaisedInEither(p + q + r, s, t, g);
    RaisedInEither(p + q, r, t, g);
    RaisedInEither(p, q, t, g);
  }

  lemma RaisedAlone(t: AlertType, grade: Option<Severity>, recordId: string, at: int, u: AlertType, g: Severity)
    ensures Raised(Graded(t, grade, recordId, at), u, g) <==> t == u && grade == Some(g)
  {
    if grade.Some? {
      assert Graded(t, grade, recordId, at)[0].alertType == t;
    }
  }

  lemma FourAlertsAre(
    recordId: string, at: int, tooSoon: Option<Severity>, liters: Option<Severity>,
    deviation: Option<Severity>, risk: Option<Severity>, t: AlertType, g: Severity)
    ensures Raised(FourAlerts(recordId, at, tooSoon, liters, deviation, risk), t, g) <==>
      || (t.FuelingTooSoonAfterPreviousFill? && tooSoon == Some(g))
      || (t.SuspiciousHighLitersVsDistance? && liters == Some(g))
      || (t.SuspiciousConsumptionDeviation? && deviation == Some(g))
      || (t.SuspiciousHighRiskCombination? && risk == Some(g))
  {
    var p := Graded(FuelingTooSoonAfterPreviousFill, tooSoon, recordId, at);
    var q := Graded(SuspiciousHighLitersVsDistance, liters, recordId, at);
    var r := Graded(SuspiciousConsumptionDeviation, deviation, recordId, at);
    var s := Graded(SuspiciousHighRiskCombination, risk, recordId, at);
    RaisedInFour(p, q, r, s, t, g);
    RaisedAlone(FuelingTooSoonAfterPreviousFill, tooSoon, recordId, at, t, g);
    RaisedAlone(SuspiciousHighLitersVsDistance, liters, recordId, at, t, g);
    RaisedAlone(SuspiciousConsumptionDeviation, deviation, recordId, at, t, g);
    RaisedAlone(SuspiciousHighRiskCombination, risk, recordId, at, t, g);
  }

  lemma AssessedAlertsAre(e: FuelEntry, a: Assessment, t: AlertType, g: Severity)
    ensures Raised(AssessedAlerts(e, a), t, g) <==>
      || (t.FuelingTooSoonAfterPreviousFill? && GradeIf(a.tooSoon, true) == Some(g))
      || (t.SuspiciousHighLitersVsDistance? && GradeIf(HighLiters(a), VeryHighLiters(a)) == Some(g))
      || (t.SuspiciousConsumptionDeviation? && GradeIf(AbnormalDeviation(a), SevereDeviation(a)) == Some(g))
      || (t.SuspiciousHighRiskCombination?
          && GradeIf(RiskScore(e, a) >= HIGH_RISK_SCORE_THRESHOLD, RiskScore(e, a) >= 80) == Some(g))
  {
    FourAlertsAre(a.current.id, a.current.createdAt, GradeIf(a.tooSoon, true),
      GradeIf(HighLiters(a), VeryHighLiters(a)), GradeIf(AbnormalDeviation(a), SevereDeviation(a)),
      GradeIf(RiskScore(e, a) >= HIGH_RISK_SCORE_THRESHOLD, RiskScore(e, a) >= 80), t, g);
  }

  /** Litres out of proportion to the distance are always reported as a consumption deviation
      of the same fill as well, and as HIGH if HIGH; all anomaly alerts of a fill name one record. */
  lemma HighLitersImpliesDeviationAlert(e: FuelEntry, lookback: seq<FuelRow>)
    ensures var s := AnomalyAlerts(e, lookback);
      && (RaisedAtAll(s, SuspiciousHighLitersVsDistance) ==> RaisedAtAll(s, SuspiciousConsumptionDeviation))
      && (Raised(s, SuspiciousHighLitersVsDistance, High) ==> Raised(s, SuspiciousConsumptionDeviation, High))
      && (forall k, l :: 0 <= k < |s| && 0 <= l < |s| ==> s[k].relatedRecordId == s[l].relatedRecordId)
  {
    var history := History(lookback, e);
    if |history| >= 2 {
      HighLitersIsAbnormal(history);
      AssessedImplications(e, Assess(history));
    }
  }

  lemma AssessedImplications(e: FuelEntry, a: Assessment)
    requires (HighLiters(a) ==> AbnormalDeviation(a)) && (VeryHighLiters(a) ==> SevereDeviation(a))
    ensures var s := AssessedAlerts(e, a);
      && (RaisedAtAll(s, SuspiciousHighLitersVsDistance) ==> RaisedAtAll(s, SuspiciousConsumptionDeviation))
      && (Raised(s, SuspiciousHighLitersVsDistance, High) ==> Raised(s, SuspiciousConsumptionDeviation, High))
      && (forall k :: 0 <= k < |s| ==> s[k].relatedRecordId == a.current.id)
  {
    AssessedAlertsAre(e, a, SuspiciousHighLitersVsDistance, Medium);
    AssessedAlertsAre(e, a, SuspiciousHighLitersVsDistance, High);
    AssessedAlertsAre(e, a, SuspiciousConsumptionDeviation, Medium);
    AssessedAlertsAre(e, a, SuspiciousConsumptionDeviation, High);
  }

  function Count(b: bool): nat { if b then 1 else 0 }

  /** A high-risk alert means an abnormal deviation with two more factors, or all four others;
      in either case at least three of the five factors. */
  lemma HighRiskMeans(e: FuelEntry, lookback: seq<FuelRow>)
    requires |History(lookback, e)| >= 2
    ensures var a := Assess(History(lookback, e));
      var others := Count(MissingReceipt(e)) + Count(e.odometerFallbackUsed)
        + Count(e.sourceType.ApprovedSource?) + Count(a.tooSoon);
      var raised := RaisedAtAll(AnomalyAlerts(e, lookback), SuspiciousHighRiskCombination);
      && (raised <==> if AbnormalDeviation(a) then others >= 2 else others == 4)
      && (raised ==> others + Count(AbnormalDeviation(a)) >= 3)
  {
    var a := Assess(History(lookback, e));
    AssessedAlertsAre(e, a, SuspiciousHighRiskCombination, Medium);
    AssessedAlertsAre(e, a, SuspiciousHighRiskCombination, High);
  }
}
