/** A dashboard poll turns its compliance alerts into outbox candidates (alerts.service.ts). */
module Polling {
  import opened Common
  import opened DashboardAlerts
  import AlertIds
  import AlertMeaning
  import Outbox
  import OutboxGuards
  import OutboxKeys
  import OutboxRuns

  /** Parts of an alert that only end up in the message. */
  datatype Description = Description(reason: string, actionTarget: Option<string>, siteId: Option<string>)

  predicate IsNotified(a: Alert) {
    (a.alertType.ComplianceExpired? || a.alertType.ComplianceExpiringSoon?) && a.relatedRecordId != ""
  }

  function SeverityText(s: Severity): string { if s.High? then "HIGH" else "MEDIUM" }

  function CandidateFor(a: Alert, iso: int -> string, describe: Alert -> Description): Outbox.Candidate {
    var d := describe(a);
    Outbox.Candidate(TypeText(a.alertType), a.relatedRecordId, iso(a.occurredAt),
      d.reason, SeverityText(a.severity), d.actionTarget, d.siteId)
  }

  /** `iso` renders a time as the text the service stores. */
  function NotificationCandidates(alerts: seq<Alert>, iso: int -> string, describe: Alert -> Description)
    : seq<Outbox.Candidate>
  {
    Map((a: Alert) => CandidateFor(a, iso, describe), Filter((a: Alert) => IsNotified(a), alerts))
  }

  lemma ComplianceAlertsComeFromRows(i: Inputs, a: Alert)
    requires a in AllAlerts(i) && IsNotified(a)
    ensures exists c :: c in i.complianceRows && a in ComplianceAlerts(c, i.nowDate)
  {
    AlertIds.AnomalyLoopTypes(i);
    AlertIds.LoopsBeforeAnomalies(i);
    AlertIds.FromSomeElement(ComplianceLoop(i), i.complianceRows, a);
  }

  /** In whatever order the alerts are sorted, a poll enqueues each compliance record under its own
      creation time: the assumption on which the outbox holds at most two rows per record. */
  lemma PollsCarryCreationTimes(
    i: Inputs, sorted: seq<Alert>, iso: int -> string, describe: Alert -> Description, createdAt: map<string, string>)
    requires multiset(sorted) == multiset(AllAlerts(i))
    requires forall c :: c in i.complianceRows ==> c.id in createdAt && createdAt[c.id] == iso(c.createdAt)
    ensures OutboxKeys.FromRecords(createdAt, NotificationCandidates(sorted, iso, describe))
    ensures forall c :: c in NotificationCandidates(sorted, iso, describe) ==> Outbox.Supported(c)
  {
    var notified := Filter((a: Alert) => IsNotified(a), sorted);
    var cs := NotificationCandidates(sorted, iso, describe);
    forall k | 0 <= k < |cs|
      ensures cs[k].relatedRecordId in createdAt && cs[k].occurredAt == createdAt[cs[k].relatedRecordId]
      ensures Outbox.Supported(cs[k])
    {
      var a := notified[k];
      assert a in notified;
      assert a in multiset(sorted) && a in multiset(AllAlerts(i));
      CandidateOfAlert(i, a, iso, describe, createdAt);
    }
  }

  lemma CandidateOfAlert(
    i: Inputs, a: Alert, iso: int -> string, describe: Alert -> Description, createdAt: map<string, string>)
    requires a in AllAlerts(i) && IsNotified(a)
    requires forall c :: c in i.complianceRows ==> c.id in createdAt && createdAt[c.id] == iso(c.createdAt)
    ensures var c := CandidateFor(a, iso, describe);
      && c.relatedRecordId in createdAt && c.occurredAt == createdAt[c.relatedRecordId] && Outbox.Supported(c)
  {
    ComplianceAlertsComeFromRows(i, a);
    var c :| c in i.complianceRows && a in ComplianceAlerts(c, i.nowDate);
    CandidateOfRow(c, i.nowDate, a, iso, describe);
  }

  lemma CandidateOfRow(c: ComplianceRow, nowDate: int, a: Alert, iso: int -> string, describe: Alert -> Description)
    requires a in ComplianceAlerts(c, nowDate)
    ensures var d := CandidateFor(a, iso, describe);
      d.relatedRecordId == c.id && d.occurredAt == iso(c.createdAt) && Outbox.Supported(d)
  {}

  // ---------------------------------------------------------------- what a poll enqueues

  /** The document of the record has expired before today, or has a date from today on. */
  ghost predicate ExpiredDocument(i: Inputs, recordId: string) {
    exists c :: c in i.complianceRows && c.id == recordId && c.expiryDate.Some? && c.expiryDate.value < i.nowDate
  }

  ghost predicate ExpiringDocument(i: Inputs, recordId: string) {
    exists c :: c in i.complianceRows && c.id == recordId && c.expiryDate.Some? && i.nowDate <= c.expiryDate.value
  }

  /** The alert a document of the record warrants. */
  lemma DocumentAlert(i: Inputs, c: ComplianceRow)
    requires c in i.complianceRows && c.expiryDate.Some?
    ensures var expired := c.expiryDate.value < i.nowDate;
      Alert(if expired then ComplianceExpired else ComplianceExpiringSoon, if expired then High else Medium, c.id, c.createdAt)
        in AllAlerts(i)
  {
    var expired := c.expiryDate.value < i.nowDate;
    var a := Alert(if expired then ComplianceExpired else ComplianceExpiringSoon, if expired then High else Medium, c.id, c.createdAt);
    assert AlertMeaning.DocumentWarrants(i, a);
    AlertMeaning.AlertsAreWarranted(i, a);
  }

  lemma AlertDocument(i: Inputs, a: Alert)
    requires a in AllAlerts(i) && IsNotified(a)
    ensures if a.alertType.ComplianceExpired? then ExpiredDocument(i, a.relatedRecordId) else ExpiringDocument(i, a.relatedRecordId)
  {
    AlertMeaning.AlertsAreWarranted(i, a);
  }

  /** The poll has a candidate of the alert type for the record. */
  ghost predicate Enqueues(cs: seq<Outbox.Candidate>, alertType: string, recordId: string) {
    exists d :: d in cs && d.alertType == alertType && d.relatedRecordId == recordId
  }

  lemma CandidateInPoll(sorted: seq<Alert>, a: Alert, iso: int -> string, describe: Alert -> Description)
    requires a in sorted && IsNotified(a)
    ensures CandidateFor(a, iso, describe) in NotificationCandidates(sorted, iso, describe)
  {
    var notified := Filter((a: Alert) => IsNotified(a), sorted);
    var k :| 0 <= k < |notified| && notified[k] == a;
    assert NotificationCandidates(sorted, iso, describe)[k] == CandidateFor(a, iso, describe);
  }

  lemma AlertOfCandidate(sorted: seq<Alert>, d: Outbox.Candidate, iso: int -> string, describe: Alert -> Description) returns (a: Alert)
    requires d in NotificationCandidates(sorted, iso, describe)
    ensures a in sorted && IsNotified(a) && d == CandidateFor(a, iso, describe)
  {
    var notified := Filter((a: Alert) => IsNotified(a), sorted);
    var k :| 0 <= k < |notified| && NotificationCandidates(sorted, iso, describe)[k] == d;
    a := notified[k];
    assert a in notified;
  }

  lemma TextsDiffer()
    ensures "compliance_expired" != "compliance_expiring_soon"
  {
    assert |"compliance_expired"| != |"compliance_expiring_soon"|;
  }

  /** A poll notifies of an expired document, and of one that expires soon, exactly if there is one for the record. */
  lemma PollNotifiesIff(
    i: Inputs, sorted: seq<Alert>, iso: int -> string, describe: Alert -> Description, recordId: string)
    requires multiset(sorted) == multiset(AllAlerts(i))
    ensures var cs := NotificationCandidates(sorted, iso, describe);
      && (Enqueues(cs, "compliance_expired", recordId) <==> recordId != "" && ExpiredDocument(i, recordId))
      && (Enqueues(cs, "compliance_expiring_soon", recordId) <==> recordId != "" && ExpiringDocument(i, recordId))
      && (forall d :: d in cs ==> d.alertType == "compliance_expired" || d.alertType == "compliance_expiring_soon")
  {
    TextsDiffer();
    assert forall a :: a in sorted <==> a in multiset(sorted);
    assert forall a :: a in AllAlerts(i) <==> a in multiset(AllAlerts(i));
    forall d | d in NotificationCandidates(sorted, iso, describe)
      ensures d.relatedRecordId != ""
      ensures d.alertType == "compliance_expired" || d.alertType == "compliance_expiring_soon"
      ensures d.alertType == "compliance_expired" ==> ExpiredDocument(i, d.relatedRecordId)
      ensures d.alertType == "compliance_expiring_soon" ==> ExpiringDocument(i, d.relatedRecordId)
    {
      var a := AlertOfCandidate(sorted, d, iso, describe);
      AlertDocument(i, a);
    }
    forall c | c in i.complianceRows && c.id != "" && c.expiryDate.Some?
      ensures Enqueues(NotificationCandidates(sorted, iso, describe),
        if c.expiryDate.value < i.nowDate then "compliance_expired" else "compliance_expiring_soon", c.id)
    {
      DocumentIsNotified(i, sorted, iso, describe, c);
    }
  }

  lemma DocumentIsNotified(
    i: Inputs, sorted: seq<Alert>, iso: int -> string, describe: Alert -> Description, c: ComplianceRow)
    requires multiset(sorted) == multiset(AllAlerts(i)) && c in i.complianceRows && c.id != "" && c.expiryDate.Some?
    ensures Enqueues(NotificationCandidates(sorted, iso, describe),
      if c.expiryDate.value < i.nowDate then "compliance_expired" else "compliance_expiring_soon", c.id)
  {
    var expired := c.expiryDate.value < i.nowDate;
    var a := Alert(if expired then ComplianceExpired else ComplianceExpiringSoon, if expired then High else Medium, c.id, c.createdAt);
    DocumentAlert(i, c);
    assert a in multiset(AllAlerts(i)) && a in multiset(sorted);
    CandidateInPoll(sorted, a, iso, describe);
  }

  /** A row that a poll adds is about a document that has expired, or about one that expires soon, as its event says. */
  lemma NewRowsAreWarranted(
    i: Inputs, sorted: seq<Alert>, iso: int -> string, describe: Alert -> Description, s: Outbox.Tables,
    tenantId: string, settings: Option<Outbox.NotificationSettings>, now: int, n: nat)
    requires multiset(sorted) == multiset(AllAlerts(i))
    requires |s.rows| <= n < |Outbox.EnqueueCandidates(s, tenantId, settings, NotificationCandidates(sorted, iso, describe), now).rows|
    ensures var r := Outbox.EnqueueCandidates(s, tenantId, settings, NotificationCandidates(sorted, iso, describe), now).rows[n];
      && (r.eventType.ComplianceExpired? || r.eventType.ComplianceExpiringSoon?)
      && (r.eventType.ComplianceExpired? ==> ExpiredDocument(i, r.sourceRecordId))
      && (r.eventType.ComplianceExpiringSoon? ==> ExpiringDocument(i, r.sourceRecordId))
  {
    var cs := NotificationCandidates(sorted, iso, describe);
    var c := OutboxGuards.NewRowsAre(s, tenantId, settings, cs, now, n);
    PollNotifiesIff(i, sorted, iso, describe, c.relatedRecordId);
  }

  // ---------------------------------------------------------------- runs of polls and passes

  /** The step enqueues the candidates of one poll: of any dashboard whose compliance rows carry the fixed creation
      times `created`, its alerts sorted in any way. */
  ghost predicate EnqueuesPoll(
    step: OutboxRuns.Step, i: Inputs, sorted: seq<Alert>, iso: int -> string, describe: Alert -> Description,
    created: map<string, int>)
  {
    && step.Enqueue? && step.candidates == NotificationCandidates(sorted, iso, describe)
    && multiset(sorted) == multiset(AllAlerts(i))
    && forall c :: c in i.complianceRows ==> c.id in created && created[c.id] == c.createdAt
  }

  ghost predicate PolledRun(steps: seq<OutboxRuns.Step>, iso: int -> string, created: map<string, int>) {
    forall k :: 0 <= k < |steps| && steps[k].Enqueue? ==>
      exists i, sorted, describe :: EnqueuesPoll(steps[k], i, sorted, iso, describe, created)
  }

  function CreationTexts(created: map<string, int>, iso: int -> string): map<string, string> {
    map id | id in created :: iso(created[id])
  }

  lemma PolledRunsAreFromRecords(steps: seq<OutboxRuns.Step>, iso: int -> string, created: map<string, int>)
    requires PolledRun(steps, iso, created)
    ensures OutboxKeys.RunFromRecords(CreationTexts(created, iso), steps)
  {
    forall k | 0 <= k < |steps| && steps[k].Enqueue?
      ensures OutboxKeys.FromRecords(CreationTexts(created, iso), steps[k].candidates)
    {
      var i, sorted, describe :| EnqueuesPoll(steps[k], i, sorted, iso, describe, created);
      PollsCarryCreationTimes(i, sorted, iso, describe, CreationTexts(created, iso));
    }
  }

  /** However often dashboards are polled and the queue is dispatched, a compliance record of a tenant has at most
      one row per event type, hence at most two. */
  lemma PolledRecordsHaveTwoRows(
    steps: seq<OutboxRuns.Step>, iso: int -> string, created: map<string, int>, i: nat, j: nat, k: nat)
    requires OutboxRuns.ValidRun(Outbox.Tables([], []), steps) && PolledRun(steps, iso, created)
    requires i < j < k < |OutboxRuns.RunFrom(Outbox.Tables([], []), steps).rows|
    ensures var rows := OutboxRuns.RunFrom(Outbox.Tables([], []), steps).rows;
      && !(rows[i].tenantId == rows[j].tenantId && rows[i].sourceRecordId == rows[j].sourceRecordId
           && rows[i].eventType == rows[j].eventType)
      && !(rows[i].tenantId == rows[j].tenantId == rows[k].tenantId
           && rows[i].sourceRecordId == rows[j].sourceRecordId == rows[k].sourceRecordId)
  {
    PolledRunsAreFromRecords(steps, iso, created);
    OutboxKeys.AtMostTwoRowsPerRecord(CreationTexts(created, iso), steps, i, j, k);
  }
}
