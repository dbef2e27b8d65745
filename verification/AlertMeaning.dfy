/** Which alerts a dashboard raises, read from the rows its queries return (alerts.service.ts). */
module AlertMeaning {
  import opened AlertIds
  import opened Common
  import opened DashboardAlerts
  import opened FuelBaseline

  // ---------------------------------------------------------------- the warrant of an alert

  predicate Names(a: Alert, recordId: string, at: int) { a.relatedRecordId == recordId && a.occurredAt == at }

  /** A document that expires before today is HIGH and expired; any other with a date is MEDIUM and expires soon. */
  ghost predicate DocumentWarrants(i: Inputs, a: Alert) {
    exists c :: c in i.complianceRows && Names(a, c.id, c.createdAt) && c.expiryDate.Some?
      && (if a.alertType.ComplianceExpired? then a.severity.High? && c.expiryDate.value < i.nowDate
          else a.severity.Medium? && i.nowDate <= c.expiryDate.value)
  }

  /** After the cutoff, an active vehicle without a submitted check. */
  ghost predicate MissingWarrants(i: Inputs, a: Alert) {
    && i.cutoffPassed && a.severity.High? && a.occurredAt == i.dayEnd
    && a.relatedRecordId in i.activeVehicles && a.relatedRecordId !in i.submittedVehicleIds
  }

  ghost predicate SkipperWarrants(i: Inputs, a: Alert) {
    i.cutoffPassed && a.severity.Medium? && a.occurredAt == i.dayEnd && a.relatedRecordId in i.frequentSkippers
  }

  /** A check with issues is always reported, HIGH if a required item is among them; such a check is critical too; and
      from two days with issues on the vehicle is one of repeated issues. */
  ghost predicate CheckWarrants(i: Inputs, a: Alert) {
    exists c :: c in i.checksWithIssues && Names(a, c.id, c.createdAt) && CheckIs(i, c, a)
  }

  predicate CheckIs(i: Inputs, c: CheckWithIssues, a: Alert) {
    if a.alertType.CriticalChecklistIssue? then a.severity.High? && c.criticalNotOkCount >= 1
    else if a.alertType.ChecklistIssueReported? then a.severity.High? <==> c.criticalNotOkCount >= 1
    else a.severity.Medium? && c.vehicleId in i.repeatedVehicleIssues && i.repeatedVehicleIssues[c.vehicleId] >= 2
  }

  /** A fill by card, at a station or from an approved source should have a receipt. */
  predicate LacksReceipt(e: FuelEntry) {
    !e.sourceType.Tank? && !e.sourceType.Manual? && (e.receiptUrl.None? || e.receiptUrl.value == "")
  }

  ghost predicate EntryWarrants(i: Inputs, a: Alert) {
    exists e :: e in i.fuelEntriesToday && Names(a, e.row.id, e.row.createdAt) && EntryIs(e, a)
  }

  predicate EntryIs(e: FuelEntry, a: Alert) {
    if a.alertType.FuelMissingReceipt? then a.severity.Medium? && LacksReceipt(e)
    else if a.alertType.FuelUsedOdometerFallback? then a.severity.Medium? && e.odometerFallbackUsed
    else if a.alertType.FuelUsedApprovedSource? then a.severity.Medium? && e.sourceType.ApprovedSource?
    else a.severity.High? && e.row.liters > 120.0
  }

  /** Kilometres between two fills; a decreasing odometer counts as none. */
  function Driven(previous: FuelRow, current: FuelRow): Option<int> {
    if previous.odometerKm.None? || current.odometerKm.None? then None
    else if current.odometerKm.value < previous.odometerKm.value then Some(0)
    else Some(current.odometerKm.value - previous.odometerKm.value)
  }

  /** Within two hours or thirty kilometres. */
  predicate Early(previous: FuelRow, current: FuelRow) {
    || current.createdAt - previous.createdAt <= 7200000
    || (Driven(previous, current).Some? && Driven(previous, current).value <= 30)
  }

  /** Litres and kilometres of the sample against which a fill after `km` kilometres is measured: three points at
      least, some litres in all, and 25 km at least. */
  predicate Measurable(sample: seq<BaselinePoint>, km: Option<int>) {
    |sample| >= 3 && TotalLiters(sample) > 0.0 && km.Some? && km.value >= 25
  }

  /** The litres are at least `factor` times what the sample used per kilometre. */
  predicate AtLeastTimes(sample: seq<BaselinePoint>, km: int, liters: real, factor: real) {
    liters * TotalDistance(sample) as real >= factor * (TotalLiters(sample) * km as real)
  }

  predicate AtMostTimes(sample: seq<BaselinePoint>, km: int, liters: real, factor: real) {
    liters * TotalDistance(sample) as real <= factor * (TotalLiters(sample) * km as real)
  }

  /** Consumption off by the given share or more, upwards or downwards. */
  predicate OffBy(sample: seq<BaselinePoint>, km: Option<int>, liters: real, share: real) {
    Measurable(sample, km) && (AtLeastTimes(sample, km.value, liters, 1.0 + share) || AtMostTimes(sample, km.value, liters, 1.0 - share))
  }

  predicate TooMuch(sample: seq<BaselinePoint>, km: Option<int>, liters: real, share: real) {
    Measurable(sample, km) && AtLeastTimes(sample, km.value, liters, 1.0 + share)
  }

  function OtherFactors(e: FuelEntry, early: bool): nat {
    Count(LacksReceipt(e)) + Count(e.odometerFallbackUsed) + Count(e.sourceType.ApprovedSource?) + Count(early)
  }

  /** The last row of the vehicle up to the fill's time against the one before it and the sample before it. */
  predicate FillIs(e: FuelEntry, previous: FuelRow, current: FuelRow, sample: seq<BaselinePoint>, a: Alert) {
    var km, liters := Driven(previous, current), current.liters;
    if a.alertType.FuelingTooSoonAfterPreviousFill? then a.severity.High? && Early(previous, current)
    else if a.alertType.SuspiciousHighLitersVsDistance? then
      TooMuch(sample, km, liters, 0.4) && (a.severity.High? <==> TooMuch(sample, km, liters, 0.8))
    else if a.alertType.SuspiciousConsumptionDeviation? then
      OffBy(sample, km, liters, 0.35) && (a.severity.High? <==> OffBy(sample, km, liters, 0.6))
    else
      var others, off := OtherFactors(e, Early(previous, current)), OffBy(sample, km, liters, 0.35);
      (if off then others >= 2 else others == 4) && (a.severity.High? <==> off && others >= 3)
  }

  ghost predicate FillWarrants(lookback: seq<FuelRow>, e: FuelEntry, a: Alert) {
    var h := History(lookback, e);
    && |h| >= 2 && Names(a, h[|h| - 1].id, h[|h| - 1].createdAt)
    && FillIs(e, h[|h| - 2], h[|h| - 1], BaselinePoints(h[..|h| - 1]), a)
  }

  ghost predicate AnomalyWarrants(i: Inputs, a: Alert) {
    exists e :: e in i.fuelEntriesToday && FillWarrants(i.fuelEntriesLookback, e, a)
  }

  ghost predicate Warranted(i: Inputs, a: Alert) {
    match a.alertType
    case ComplianceExpired => DocumentWarrants(i, a)
    case ComplianceExpiringSoon => DocumentWarrants(i, a)
    case MissingDailyCheck => MissingWarrants(i, a)
    case CriticalChecklistIssue => CheckWarrants(i, a)
    case ChecklistIssueReported => CheckWarrants(i, a)
    case RepeatedChecklistIssuesVehicle => CheckWarrants(i, a)
    case DriverFrequentSkips => SkipperWarrants(i, a)
    case FuelMissingReceipt => EntryWarrants(i, a)
    case FuelUsedOdometerFallback => EntryWarrants(i, a)
    case FuelUsedApprovedSource => EntryWarrants(i, a)
    case SuspiciousHighLiters => EntryWarrants(i, a)
    case FuelingTooSoonAfterPreviousFill => AnomalyWarrants(i, a)
    case SuspiciousHighLitersVsDistance => AnomalyWarrants(i, a)
    case SuspiciousConsumptionDeviation => AnomalyWarrants(i, a)
    case SuspiciousHighRiskCombination => AnomalyWarrants(i, a)
  }

  // ---------------------------------------------------------------- the simple loops

  lemma InLoop<T(!new)>(f: T -> seq<Alert>, s: seq<T>, a: Alert)
    ensures a in FlatMap(f, s) <==> exists x :: x in s && a in f(x)
  {
    if a in FlatMap(f, s) {
      FromSomeElement(f, s, a);
    }
    if x :| x in s && a in f(x) {
      SomeElementAlert(f, s, x, a);
    }
  }

  lemma DocumentLoopIff(i: Inputs, a: Alert)
    requires Loop(a.alertType) == 0
    ensures a in FlatMap(ComplianceLoop(i), i.complianceRows) <==> DocumentWarrants(i, a)
  {
    InLoop(ComplianceLoop(i), i.complianceRows, a);
    forall c | c in i.complianceRows
      ensures a in ComplianceLoop(i)(c) <==>
        Names(a, c.id, c.createdAt) && c.expiryDate.Some?
        && (if a.alertType.ComplianceExpired? then a.severity.High? && c.expiryDate.value < i.nowDate
            else a.severity.Medium? && i.nowDate <= c.expiryDate.value)
    {
      assert ComplianceLoop(i)(c) == ComplianceAlerts(c, i.nowDate);
    }
  }

  lemma InWhen(condition: bool, b: Alert, a: Alert)
    ensures a in When(condition, b) <==> condition && a == b
  {}

  lemma MissingLoopIff(i: Inputs, a: Alert)
    requires a.alertType.MissingDailyCheck?
    ensures a in FlatMap(MissingLoop(i), i.activeVehicles)
      <==> a.severity.High? && a.occurredAt == i.dayEnd
           && a.relatedRecordId in i.activeVehicles && a.relatedRecordId !in i.submittedVehicleIds
  {
    InLoop(MissingLoop(i), i.activeVehicles, a);
    forall v | v in i.activeVehicles
      ensures a in MissingLoop(i)(v) <==>
        a == Alert(MissingDailyCheck, High, v, i.dayEnd) && v !in i.submittedVehicleIds
    {
      InWhen(v !in i.submittedVehicleIds, Alert(MissingDailyCheck, High, v, i.dayEnd), a);
    }
  }

  lemma SkipperLoopIff(i: Inputs, a: Alert)
    requires a.alertType.DriverFrequentSkips?
    ensures a in FlatMap(SkipperLoop(i), i.frequentSkippers)
      <==> a.severity.Medium? && a.occurredAt == i.dayEnd && a.relatedRecordId in i.frequentSkippers
  {
    InLoop(SkipperLoop(i), i.frequentSkippers, a);
    forall d | d in i.frequentSkippers
      ensures a in SkipperLoop(i)(d) <==> a == Alert(DriverFrequentSkips, Medium, d, i.dayEnd)
    {
      assert SkipperLoop(i)(d) == SkipperAlerts(d, i.dayEnd);
    }
  }

  lemma InThree(p: seq<Alert>, q: seq<Alert>, r: seq<Alert>, a: Alert)
    ensures a in p + q + r <==> a in p || a in q || a in r
  {}

  lemma CheckAlertsAre(i: Inputs, c: CheckWithIssues, a: Alert)
    requires Loop(a.alertType) == 2
    ensures a in CheckAlerts(c, i.repeatedVehicleIssues) <==> Names(a, c.id, c.createdAt) && CheckIs(i, c, a)
  {
    var critical := c.criticalNotOkCount > 0;
    var count := if c.vehicleId in i.repeatedVehicleIssues then i.repeatedVehicleIssues[c.vehicleId] else 0;
    var one := Alert(CriticalChecklistIssue, High, c.id, c.createdAt);
    var two := Alert(ChecklistIssueReported, if critical then High else Medium, c.id, c.createdAt);
    var three := Alert(RepeatedChecklistIssuesVehicle, Medium, c.id, c.createdAt);
    InThree(When(critical, one), [two], When(count >= REPEATED_CHECKLIST_ISSUE_THRESHOLD, three), a);
    InWhen(critical, one, a);
    InWhen(count >= REPEATED_CHECKLIST_ISSUE_THRESHOLD, three, a);
  }

  lemma CheckLoopIff(i: Inputs, a: Alert)
    requires Loop(a.alertType) == 2
    ensures a in FlatMap(CheckLoop(i), i.checksWithIssues) <==> CheckWarrants(i, a)
  {
    InLoop(CheckLoop(i), i.checksWithIssues, a);
    forall c | c in i.checksWithIssues
      ensures a in CheckLoop(i)(c) <==> Names(a, c.id, c.createdAt) && CheckIs(i, c, a)
    {
      CheckAlertsAre(i, c, a);
      assert CheckLoop(i)(c) == CheckAlerts(c, i.repeatedVehicleIssues);
    }
  }

  lemma InFour(p: seq<Alert>, q: seq<Alert>, r: seq<Alert>, s: seq<Alert>, a: Alert)
    ensures a in p + q + r + s <==> a in p || a in q || a in r || a in s
  {}

  lemma ReceiptIff(e: FuelEntry)
    ensures MissingReceipt(e) <==> LacksReceipt(e)
  {}

  lemma EntryAlertsAre(e: FuelEntry, a: Alert)
    requires Loop(a.alertType) == 4
    ensures a in EntryAlerts(e) <==> Names(a, e.row.id, e.row.createdAt) && EntryIs(e, a)
  {
    var one := Alert(FuelMissingReceipt, Medium, e.row.id, e.row.createdAt);
    var two := Alert(FuelUsedOdometerFallback, Medium, e.row.id, e.row.createdAt);
    var three := Alert(FuelUsedApprovedSource, Medium, e.row.id, e.row.createdAt);
    var four := Alert(SuspiciousHighLiters, High, e.row.id, e.row.createdAt);
    InFour(When(MissingReceipt(e), one), When(e.odometerFallbackUsed, two), When(e.sourceType.ApprovedSource?, three),
      When(e.row.liters > HIGH_LITERS_THRESHOLD, four), a);
    InWhen(MissingReceipt(e), one, a);
    InWhen(e.odometerFallbackUsed, two, a);
    InWhen(e.sourceType.ApprovedSource?, three, a);
    InWhen(e.row.liters > HIGH_LITERS_THRESHOLD, four, a);
    ReceiptIff(e);
  }

  lemma EntryLoopIff(i: Inputs, a: Alert)
    requires Loop(a.alertType) == 4
    ensures a in FlatMap(EntryAlerts, i.fuelEntriesToday) <==> EntryWarrants(i, a)
  {
    InLoop(EntryAlerts, i.fuelEntriesToday, a);
    forall e | e in i.fuelEntriesToday
      ensures a in EntryAlerts(e) <==> Names(a, e.row.id, e.row.createdAt) && EntryIs(e, a)
    {
      EntryAlertsAre(e, a);
    }
  }

  // ---------------------------------------------------------------- the anomaly loop

  /** The history is the vehicle's rows up to the time of the fill, in the order of the query. */
  lemma HistoryIs(lookback: seq<FuelRow>, e: FuelEntry, r: FuelRow)
    ensures r in History(lookback, e) <==> r in lookback && r.vehicleId == e.row.vehicleId && r.createdAt <= e.row.createdAt
  {}

  lemma AssessmentIs(h: seq<FuelRow>)
    requires |h| >= 2
    ensures var a := Assess(h);
      && a.current == h[|h| - 1] && a.distanceKm == Driven(h[|h| - 2], h[|h| - 1])
      && (a.tooSoon <==> Early(h[|h| - 2], h[|h| - 1]))
  {}

  /** What is expected is the sample's litres per kilometre times the kilometres. */
  lemma ExpectedIs(h: seq<FuelRow>)
    requires |h| >= 2
    ensures var a, sample := Assess(h), BaselinePoints(h[..|h| - 1]);
      && (a.expectedLiters.Some? <==> Measurable(sample, a.distanceKm))
      && (a.expectedLiters.Some? ==>
            && a.expectedLiters.value > 0.0 && TotalDistance(sample) > 0
            && a.expectedLiters.value * TotalDistance(sample) as real == TotalLiters(sample) * a.distanceKm.value as real
            && a.deviationPercent == Some((a.current.liters - a.expectedLiters.value) / a.expectedLiters.value * 100.0))
  {
    var a, sample := Assess(h), BaselinePoints(h[..|h| - 1]);
    BaselineMissingIffFewPoints(h[..|h| - 1]);
    var b := BaselineLitersPer100Km(sample);
    if b.Some? {
      RateIs(TotalLiters(sample), TotalDistance(sample) as real, b.value);
      if a.distanceKm.Some? && a.distanceKm.value >= 25 {
        ShareIs(TotalLiters(sample), TotalDistance(sample) as real, b.value, a.distanceKm.value as real);
      }
    }
  }

  lemma RateIs(liters: real, distance: real, b: real)
    requires distance > 0.0 && b == liters / distance * 100.0
    ensures b * distance == 100.0 * liters && (b > 0.0 <==> liters > 0.0)
  {
    var q := liters / distance;
    assert q * distance == liters;
    ScaleBy(q, 0.0, distance);
  }

  lemma ShareIs(liters: real, distance: real, b: real, km: real)
    requires distance > 0.0 && km > 0.0 && b * distance == 100.0 * liters
    ensures b * km / 100.0 * distance == liters * km && (b * km / 100.0 > 0.0 <==> b > 0.0)
  {
    assert b * km / 100.0 * distance == (b * distance) * km / 100.0;
    ScaleBy(b, 0.0, km);
  }

  /** Comparing with the expectation is comparing with the sample. */
  lemma TimesExpected(sample: seq<BaselinePoint>, km: int, liters: real, expected: real, factor: real)
    requires TotalDistance(sample) > 0 && expected * TotalDistance(sample) as real == TotalLiters(sample) * km as real
    ensures liters >= factor * expected <==> AtLeastTimes(sample, km, liters, factor)
    ensures liters <= factor * expected <==> AtMostTimes(sample, km, liters, factor)
  {
    var d := TotalDistance(sample) as real;
    ScaleBy(liters, factor * expected, d);
    assert factor * expected * d == factor * (expected * d);
  }

  lemma DeviationBelow(l: real, e: real, percent: real)
    requires e > 0.0
    ensures (l - e) / e * 100.0 <= -percent <==> l <= (1.0 - percent / 100.0) * e
  {
    var q := (l - e) / e;
    assert q * e == l - e;
    ScaleBy(q, -percent / 100.0, e);
    assert (1.0 - percent / 100.0) * e == e - percent / 100.0 * e;
  }

  lemma DeviationAbove(l: real, e: real, percent: real)
    requires e > 0.0
    ensures (l - e) / e * 100.0 >= percent <==> l >= (1.0 + percent / 100.0) * e
  {
    DeviationScale(l, e, percent);
  }

  lemma TestsAre(h: seq<FuelRow>)
    requires |h| >= 2
    ensures var a, sample := Assess(h), BaselinePoints(h[..|h| - 1]);
      && (HighLiters(a) <==> TooMuch(sample, a.distanceKm, a.current.liters, 0.4))
      && (VeryHighLiters(a) <==> TooMuch(sample, a.distanceKm, a.current.liters, 0.8))
      && (AbnormalDeviation(a) <==> OffBy(sample, a.distanceKm, a.current.liters, 0.35))
      && (SevereDeviation(a) <==> OffBy(sample, a.distanceKm, a.current.liters, 0.6))
  {
    var a, sample := Assess(h), BaselinePoints(h[..|h| - 1]);
    ExpectedIs(h);
    if a.expectedLiters.Some? {
      LitersTests(a, sample);
      DeviationTests(a, sample);
    }
  }

  ghost predicate Expects(a: Assessment, sample: seq<BaselinePoint>) {
    && a.expectedLiters.Some? && a.expectedLiters.value > 0.0 && Measurable(sample, a.distanceKm) && TotalDistance(sample) > 0
    && a.expectedLiters.value * TotalDistance(sample) as real == TotalLiters(sample) * a.distanceKm.value as real
    && a.deviationPercent == Some((a.current.liters - a.expectedLiters.value) / a.expectedLiters.value * 100.0)
  }

  lemma LitersTests(a: Assessment, sample: seq<BaselinePoint>)
    requires Expects(a, sample)
    ensures HighLiters(a) <==> TooMuch(sample, a.distanceKm, a.current.liters, 0.4)
    ensures VeryHighLiters(a) <==> TooMuch(sample, a.distanceKm, a.current.liters, 0.8)
  {
    TimesExpected(sample, a.distanceKm.value, a.current.liters, a.expectedLiters.value, 1.0 + 0.4);
    TimesExpected(sample, a.distanceKm.value, a.current.liters, a.expectedLiters.value, 1.0 + 0.8);
  }

  lemma DeviationTest(a: Assessment, sample: seq<BaselinePoint>, percent: real)
    requires Expects(a, sample) && percent > 0.0
    ensures Abs(a.deviationPercent.value) >= percent <==> OffBy(sample, a.distanceKm, a.current.liters, percent / 100.0)
  {
    var l, e := a.current.liters, a.expectedLiters.value;
    DeviationAbove(l, e, percent);
    DeviationBelow(l, e, percent);
    TimesExpected(sample, a.distanceKm.value, l, e, 1.0 + percent / 100.0);
    TimesExpected(sample, a.distanceKm.value, l, e, 1.0 - percent / 100.0);
  }

  lemma DeviationTests(a: Assessment, sample: seq<BaselinePoint>)
    requires Expects(a, sample)
    ensures AbnormalDeviation(a) <==> OffBy(sample, a.distanceKm, a.current.liters, 0.35)
    ensures SevereDeviation(a) <==> OffBy(sample, a.distanceKm, a.current.liters, 0.6)
  {
    DeviationTest(a, sample, 35.0);
    DeviationTest(a, sample, 60.0);
  }

  lemma InGraded(t: AlertType, grade: Option<Severity>, recordId: string, at: int, a: Alert)
    ensures a in Graded(t, grade, recordId, at) <==> grade == Some(a.severity) && a.alertType == t && Names(a, recordId, at)
  {}

  lemma InFourAlerts(
    recordId: string, at: int, tooSoon: Option<Severity>, liters: Option<Severity>,
    deviation: Option<Severity>, risk: Option<Severity>, a: Alert)
    requires Loop(a.alertType) == 5
    ensures a in FourAlerts(recordId, at, tooSoon, liters, deviation, risk) <==>
      Names(a, recordId, at) && Some(a.severity) ==
        if a.alertType.FuelingTooSoonAfterPreviousFill? then tooSoon
        else if a.alertType.SuspiciousHighLitersVsDistance? then liters
        else if a.alertType.SuspiciousConsumptionDeviation? then deviation else risk
  {
    InFour(Graded(FuelingTooSoonAfterPreviousFill, tooSoon, recordId, at), Graded(SuspiciousHighLitersVsDistance, liters, recordId, at),
      Graded(SuspiciousConsumptionDeviation, deviation, recordId, at), Graded(SuspiciousHighRiskCombination, risk, recordId, at), a);
    InGraded(FuelingTooSoonAfterPreviousFill, tooSoon, recordId, at, a);
    InGraded(SuspiciousHighLitersVsDistance, liters, recordId, at, a);
    InGraded(SuspiciousConsumptionDeviation, deviation, recordId, at, a);
    InGraded(SuspiciousHighRiskCombination, risk, recordId, at, a);
  }

  lemma RiskIs(e: FuelEntry, a: Assessment)
    ensures var others := OtherFactors(e, a.tooSoon);
      && (RiskScore(e, a) >= 60 <==> if AbnormalDeviation(a) then others >= 2 else others == 4)
      && (RiskScore(e, a) >= 80 <==> AbnormalDeviation(a) && others >= 3)
  {
    ReceiptIff(e);
  }

  lemma AssessedAre(e: FuelEntry, h: seq<FuelRow>, a: Alert)
    requires |h| >= 2 && Loop(a.alertType) == 5
    ensures a in AssessedAlerts(e, Assess(h)) <==>
      Names(a, h[|h| - 1].id, h[|h| - 1].createdAt) && FillIs(e, h[|h| - 2], h[|h| - 1], BaselinePoints(h[..|h| - 1]), a)
  {
    var s := Assess(h);
    AssessmentIs(h);
    TestsAre(h);
    RiskIs(e, s);
    GradesAre(e, h, s, a);
    InFourAlerts(s.current.id, s.current.createdAt, GradeIf(s.tooSoon, true), GradeIf(HighLiters(s), VeryHighLiters(s)),
      GradeIf(AbnormalDeviation(s), SevereDeviation(s)),
      GradeIf(RiskScore(e, s) >= HIGH_RISK_SCORE_THRESHOLD, RiskScore(e, s) >= 80), a);
  }

  lemma GradesAre(e: FuelEntry, h: seq<FuelRow>, s: Assessment, a: Alert)
    requires |h| >= 2 && Loop(a.alertType) == 5
    requires var previous, current, sample := h[|h| - 2], h[|h| - 1], BaselinePoints(h[..|h| - 1]);
      var km, others := Driven(previous, current), OtherFactors(e, Early(previous, current));
      && (s.tooSoon <==> Early(previous, current))
      && (HighLiters(s) <==> TooMuch(sample, km, current.liters, 0.4))
      && (VeryHighLiters(s) <==> TooMuch(sample, km, current.liters, 0.8))
      && (AbnormalDeviation(s) <==> OffBy(sample, km, current.liters, 0.35))
      && (SevereDeviation(s) <==> OffBy(sample, km, current.liters, 0.6))
      && (RiskScore(e, s) >= 60 <==> if AbnormalDeviation(s) then others >= 2 else others == 4)
      && (RiskScore(e, s) >= 80 <==> AbnormalDeviation(s) && others >= 3)
    ensures FillIs(e, h[|h| - 2], h[|h| - 1], BaselinePoints(h[..|h| - 1]), a) <==> GradeOf(e, s, a.alertType) == Some(a.severity)
  {}

  function GradeOf(e: FuelEntry, s: Assessment, t: AlertType): Option<Severity> {
    if t.FuelingTooSoonAfterPreviousFill? then GradeIf(s.tooSoon, true)
    else if t.SuspiciousHighLitersVsDistance? then GradeIf(HighLiters(s), VeryHighLiters(s))
    else if t.SuspiciousConsumptionDeviation? then GradeIf(AbnormalDeviation(s), SevereDeviation(s))
    else GradeIf(RiskScore(e, s) >= 60, RiskScore(e, s) >= 80)
  }

  lemma AnomalyAlertsAre(lookback: seq<FuelRow>, e: FuelEntry, a: Alert)
    requires Loop(a.alertType) == 5
    ensures a in AnomalyAlerts(e, lookback) <==> FillWarrants(lookback, e, a)
  {
    if |History(lookback, e)| >= 2 {
      AssessedAre(e, History(lookback, e), a);
    }
  }

  lemma AnomalyLoopIff(i: Inputs, a: Alert)
    requires Loop(a.alertType) == 5
    ensures a in FlatMap(AnomalyLoop(i.fuelEntriesLookback), i.fuelEntriesToday) <==> AnomalyWarrants(i, a)
  {
    InLoop(AnomalyLoop(i.fuelEntriesLookback), i.fuelEntriesToday, a);
    forall e | e in i.fuelEntriesToday
      ensures a in AnomalyLoop(i.fuelEntriesLookback)(e) <==> FillWarrants(i.fuelEntriesLookback, e, a)
    {
      AnomalyAlertsAre(i.fuelEntriesLookback, e, a);
    }
  }

  // ---------------------------------------------------------------- the whole list

  lemma InSix(c: seq<Alert>, m: seq<Alert>, k: seq<Alert>, s: seq<Alert>, f: seq<Alert>, x: seq<Alert>, a: Alert)
    requires OfLoop(c, 0) && OfLoop(m, 1) && OfLoop(k, 2) && OfLoop(s, 3) && OfLoop(f, 4) && OfLoop(x, 5)
    ensures a in c + m + k + s + f + x <==> a in OneOf(c, m, k, s, f, x, Loop(a.alertType))
  {}

  function OneOf(
    c: seq<Alert>, m: seq<Alert>, k: seq<Alert>, s: seq<Alert>, f: seq<Alert>, x: seq<Alert>, loop: nat): seq<Alert>
  {
    match loop case 0 => c case 1 => m case 2 => k case 3 => s case 4 => f case _ => x
  }

  /** The alerts of one loop. */
  function PartOf(i: Inputs, loop: nat): seq<Alert> {
    match loop
    case 0 => FlatMap(ComplianceLoop(i), i.complianceRows)
    case 1 => if i.cutoffPassed then FlatMap(MissingLoop(i), i.activeVehicles) else []
    case 2 => FlatMap(CheckLoop(i), i.checksWithIssues)
    case 3 => if i.cutoffPassed then FlatMap(SkipperLoop(i), i.frequentSkippers) else []
    case 4 => FlatMap(EntryAlerts, i.fuelEntriesToday)
    case _ => FlatMap(AnomalyLoop(i.fuelEntriesLookback), i.fuelEntriesToday)
  }

  lemma PartsAreAll(i: Inputs)
    ensures AllAlerts(i) == PartOf(i, 0) + PartOf(i, 1) + PartOf(i, 2) + PartOf(i, 3) + PartOf(i, 4) + PartOf(i, 5)
  {}

  lemma PartsAreOfLoops(i: Inputs)
    ensures OfLoop(PartOf(i, 0), 0) && OfLoop(PartOf(i, 1), 1) && OfLoop(PartOf(i, 2), 2)
    ensures OfLoop(PartOf(i, 3), 3) && OfLoop(PartOf(i, 4), 4) && OfLoop(PartOf(i, 5), 5)
  {
    LoopsBeforeAnomalies(i);
    AnomalyLoopTypes(i);
  }

  lemma InOwnPart(
    all: seq<Alert>, c: seq<Alert>, m: seq<Alert>, k: seq<Alert>, s: seq<Alert>, f: seq<Alert>, x: seq<Alert>,
    own: seq<Alert>, a: Alert)
    requires all == c + m + k + s + f + x && own == OneOf(c, m, k, s, f, x, Loop(a.alertType))
    requires OfLoop(c, 0) && OfLoop(m, 1) && OfLoop(k, 2) && OfLoop(s, 3) && OfLoop(f, 4) && OfLoop(x, 5)
    ensures a in all <==> a in own
  {
    InSix(c, m, k, s, f, x, a);
  }

  lemma PartIsOneOf(i: Inputs, loop: nat)
    requires loop <= 5
    ensures PartOf(i, loop) == OneOf(PartOf(i, 0), PartOf(i, 1), PartOf(i, 2), PartOf(i, 3), PartOf(i, 4), PartOf(i, 5), loop)
  {}

  lemma AlertsByLoop(i: Inputs, a: Alert)
    ensures a in AllAlerts(i) <==> a in PartOf(i, Loop(a.alertType))
  {
    PartsAreAll(i);
    PartsAreOfLoops(i);
    PartIsOneOf(i, Loop(a.alertType));
    InOwnPart(AllAlerts(i), PartOf(i, 0), PartOf(i, 1), PartOf(i, 2), PartOf(i, 3), PartOf(i, 4), PartOf(i, 5),
      PartOf(i, Loop(a.alertType)), a);
  }

  /** A dashboard raises exactly the warranted alerts, each with the grade, the record and the time of its warrant. */
  lemma AlertsAreWarranted(i: Inputs, a: Alert)
    ensures a in AllAlerts(i) <==> Warranted(i, a)
  {
    AlertsByLoop(i, a);
    match Loop(a.alertType)
    case 0 => DocumentLoopIff(i, a);
    case 1 => MissingLoopIff(i, a);
    case 2 => CheckLoopIff(i, a);
    case 3 => SkipperLoopIff(i, a);
    case 4 => EntryLoopIff(i, a);
    case _ => AnomalyLoopIff(i, a);
  }
}
