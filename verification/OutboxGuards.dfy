/** Enqueue and dispatch look at the same settings at different times, and the preview looks at
    the same directory as the dispatch: how the three agree. */
module OutboxGuards {
  import opened Common
  import opened ContactDirectory
  import opened Outbox
  import opened OutboxKeys
  import opened OutboxRuns
  import Text

  predicate RefusedBySettings(g: Gate) {
    g.Blocked? && g.block.providerName == "policy_guard" && !g.block.status.SkippedNoRecipients?
  }

  /** Under unchanged settings a row is enqueued as pending only if the dispatch guards let it through, every
      row they would refuse is already enqueued with the status they would give it, and only the event's own
      switch is judged by enqueue alone. */
  lemma EnqueueAnticipatesGuards(tenantId: string, c: Candidate, now: int, w: World)
    ensures var r := RowFor(tenantId, w.settings, c, now);
      var g := GateFor(r, w);
      && (r.status.Pending? ==> !RefusedBySettings(g))
      && (RefusedBySettings(g) ==> r.status == g.block.status || !EventEnabled(w.settings, c.alertType))
      && (!r.status.Pending? && !RefusedBySettings(g) ==> r.status.SkippedDisabled?)
  {
    var r := RowFor(tenantId, w.settings, c, now);
    if w.settings.Some? && w.settings.value.notificationsEnabled && w.settings.value.whatsappEnabled {
      assert !RefusedBySettings(GateFor(r, w));
    }
  }

  /** With the channel open, the row enqueued for a candidate is sent to exactly the recipients previewed for
      the candidate's site; it has none, or throws, exactly if the preview does. */
  lemma EnqueuedRowSendsToPreview(
    tenantId: string, settings: Option<NotificationSettings>, c: Candidate, now: int, w: World)
    requires w.settings.Some? && w.settings.value.notificationsEnabled && w.settings.value.whatsappEnabled
    requires w.provider.Some?
    ensures var r := RowFor(tenantId, settings, c, now);
      match PreviewRecipients(w.directory, tenantId, AsEventType(c.alertType), c.siteId)
      case Failure(e) => GateFor(r, w) == Throws(e)
      case Success(p) =>
        if p.items == [] then GateFor(r, w).Blocked? && GateFor(r, w).block.status.SkippedNoRecipients?
        else GateFor(r, w) == Open(Map(PlainRecipient, p.items))
  {
    var payload := CandidatePayload(c);
    assert ParseSiteId(payload) == c.siteId;
    PreviewEqualsDispatch(w.directory, tenantId, AsEventType(c.alertType), c.siteId, payload);
  }

  // ---------------------------------------------------------------- what enqueue stores

  /** The message says why, how grave and since when. */
  ghost predicate Tells(payload: Json, c: Candidate) {
    && payload.JObject? && {"reason", "severity", "occurred_at", "related_record_id"} <= payload.fields.Keys
    && payload.fields["reason"] == JString(c.reason) && payload.fields["severity"] == JString(c.severity)
    && payload.fields["occurred_at"] == JString(c.occurredAt) && payload.fields["related_record_id"] == JString(c.relatedRecordId)
  }

  /** The new row of a batch: one of a supported candidate, fresh, under that candidate's event, record and site. */
  ghost predicate NewRowOf(r: Row, tenantId: string, c: Candidate, now: int) {
    && r.tenantId == tenantId && r.sourceRecordId == c.relatedRecordId
    && (r.eventType.ComplianceExpired? <==> c.alertType == "compliance_expired")
    && (r.eventType.ComplianceExpiringSoon? <==> c.alertType == "compliance_expiring_soon")
    && ParseSiteId(r.payload) == c.siteId && r.recipient.None? && Tells(r.payload, c)
    && r.attemptCount == 0 && r.maxAttempts == 5 && r.nextAttemptAt == now == r.createdAt
  }

  lemma SupportedTypes(c: Candidate)
    requires Supported(c)
    ensures c.alertType == "compliance_expired" <==> c.alertType != "compliance_expiring_soon"
  {
    assert |"compliance_expired"| != |"compliance_expiring_soon"|;
  }

  lemma RowForIsNew(tenantId: string, settings: Option<NotificationSettings>, c: Candidate, now: int)
    requires Supported(c)
    ensures NewRowOf(RowFor(tenantId, settings, c, now), tenantId, c, now)
  {
    SupportedTypes(c);
    assert ParseSiteId(CandidatePayload(c)) == c.siteId;
    PayloadTells(c);
  }

  lemma PayloadTells(c: Candidate)
    ensures Tells(CandidatePayload(c), c)
  {}

  lemma {:induction false} NewRowsAre(s: Tables, tenantId: string, settings: Option<NotificationSettings>, cs: seq<Candidate>, now: int, i: nat)
    returns (c: Candidate)
    requires |s.rows| <= i < |EnqueueCandidates(s, tenantId, settings, cs, now).rows|
    ensures var r := EnqueueCandidates(s, tenantId, settings, cs, now).rows[i];
      && c in cs && Supported(c) && NewRowOf(r, tenantId, c, now) && r == RowFor(tenantId, settings, c, now)
  {
    var data := RowsFor(tenantId, settings, cs, now);
    InsertNewProperties(s.rows, data);
    var k :| 0 <= k < |data| && data[k] == InsertNew(s.rows, data)[i];
    c := Filter(c => Supported(c), cs)[k];
    assert c in Filter(c => Supported(c), cs);
    RowForIsNew(tenantId, settings, c, now);
  }

  /** The switches a tenant has on; none without a settings row. */
  predicate On(settings: Option<NotificationSettings>, eventType: EventType) {
    && settings.Some? && settings.value.notificationsEnabled
    && (eventType.ComplianceExpired? ==> settings.value.eventComplianceExpired)
    && (eventType.ComplianceExpiringSoon? ==> settings.value.eventComplianceExpiringSoon)
  }

  lemma StatusOfRow(tenantId: string, settings: Option<NotificationSettings>, c: Candidate, now: int)
    requires Supported(c)
    ensures var r := RowFor(tenantId, settings, c, now);
      && (r.status.SkippedDisabled? <==> !On(settings, r.eventType))
      && (r.status.SkippedNotConfigured? <==> On(settings, r.eventType) && !settings.value.whatsappEnabled)
      && (r.status.Pending? <==> On(settings, r.eventType) && settings.value.whatsappEnabled)
  {
    SupportedTypes(c);
  }

  /** A new row is disabled exactly if notifications or its own event's switch are off, not configured exactly if
      else the channel is off, and pending exactly if nothing is. */
  lemma NewRowStatusIff(s: Tables, tenantId: string, settings: Option<NotificationSettings>, cs: seq<Candidate>, now: int, i: nat)
    requires |s.rows| <= i < |EnqueueCandidates(s, tenantId, settings, cs, now).rows|
    ensures var r := EnqueueCandidates(s, tenantId, settings, cs, now).rows[i];
      && (r.eventType.ComplianceExpired? || r.eventType.ComplianceExpiringSoon?)
      && (r.status.SkippedDisabled? <==>
            || settings.None? || !settings.value.notificationsEnabled
            || (r.eventType.ComplianceExpired? && !settings.value.eventComplianceExpired)
            || (r.eventType.ComplianceExpiringSoon? && !settings.value.eventComplianceExpiringSoon))
      && (r.status.SkippedNotConfigured? <==> !r.status.SkippedDisabled? && !settings.value.whatsappEnabled)
      && (r.status.Pending? <==> !r.status.SkippedDisabled? && settings.value.whatsappEnabled)
  {
    var c := NewRowsAre(s, tenantId, settings, cs, now, i);
    StatusOfRow(tenantId, settings, c, now);
    SupportedTypes(c);
  }

  /** The settings differ at most in the switch of the other event. */
  predicate SameBut(a: NotificationSettings, b: NotificationSettings, other: EventType) {
    && a.notificationsEnabled == b.notificationsEnabled && a.whatsappEnabled == b.whatsappEnabled
    && (!other.ComplianceExpired? ==> a.eventComplianceExpired == b.eventComplianceExpired)
    && (!other.ComplianceExpiringSoon? ==> a.eventComplianceExpiringSoon == b.eventComplianceExpiringSoon)
  }

  predicate Agree(r: Row, q: Row, other: EventType) {
    r.idempotencyKey == q.idempotencyKey && (r.eventType != other ==> r == q)
  }

  ghost predicate RowsAgree(a: seq<Row>, b: seq<Row>, other: EventType) {
    |a| == |b| && forall i :: 0 <= i < |a| ==> Agree(a[i], b[i], other)
  }

  lemma {:induction false} InsertAgrees(rows: seq<Row>, rows': seq<Row>, data: seq<Row>, data': seq<Row>, other: EventType)
    requires RowsAgree(rows, rows', other) && RowsAgree(data, data', other)
    ensures RowsAgree(InsertNew(rows, data), InsertNew(rows', data'), other)
  {
    if data != [] {
      InsertAgrees(rows, rows', data[..|data| - 1], data'[..|data| - 1], other);
      SameKeys(InsertNew(rows, data[..|data| - 1]), InsertNew(rows', data'[..|data| - 1]), other, data[|data| - 1].idempotencyKey);
    }
  }

  lemma SameKeys(a: seq<Row>, b: seq<Row>, other: EventType, key: string)
    requires RowsAgree(a, b, other)
    ensures HasKey(a, key) <==> HasKey(b, key)
  {
    if i :| 0 <= i < |a| && a[i].idempotencyKey == key {
      assert b[i].idempotencyKey == key;
    }
    if i :| 0 <= i < |b| && b[i].idempotencyKey == key {
      assert a[i].idempotencyKey == key;
    }
  }

  /** Turning the switch of one event changes no row of the other. */
  lemma SwitchesAreSeparate(
    s: Tables, tenantId: string, a: NotificationSettings, b: NotificationSettings, cs: seq<Candidate>, now: int, other: EventType)
    requires SameBut(a, b, other)
    ensures RowsAgree(EnqueueCandidates(s, tenantId, Some(a), cs, now).rows, EnqueueCandidates(s, tenantId, Some(b), cs, now).rows, other)
  {
    var left, right := RowsFor(tenantId, Some(a), cs, now), RowsFor(tenantId, Some(b), cs, now);
    var kept := Filter(c => Supported(c), cs);
    forall k | 0 <= k < |left| ensures Agree(left[k], right[k], other) {
      assert kept[k] in kept;
      SupportedTypes(kept[k]);
    }
    InsertAgrees(s.rows, s.rows, left, right, other);
  }

  /** Two candidates share a key exactly if event, record and day are the same. */
  lemma CandidateKeysIff(tenantId: string, c: Candidate, d: Candidate)
    requires Supported(c) && Supported(d) && BarFree(tenantId) && BarFree(c.relatedRecordId) && BarFree(d.relatedRecordId)
    ensures CandidateKey(tenantId, c) == CandidateKey(tenantId, d) <==>
      && c.alertType == d.alertType && c.relatedRecordId == d.relatedRecordId
      && Text.Prefix(c.occurredAt, 10) == Text.Prefix(d.occurredAt, 10)
  {
    SupportedTypes(c);
    SupportedTypes(d);
    EventTexts(AsEventType(c.alertType), AsEventType(d.alertType));
    EventTexts(AsEventType(d.alertType), AsEventType(c.alertType));
    if CandidateKey(tenantId, c) == CandidateKey(tenantId, d) {
      RawKeyInjective(
        tenantId, AsEventType(c.alertType), c.relatedRecordId, "directory", Text.Prefix(c.occurredAt, 10),
        tenantId, AsEventType(d.alertType), d.relatedRecordId, "directory", Text.Prefix(d.occurredAt, 10));
    }
  }
}
