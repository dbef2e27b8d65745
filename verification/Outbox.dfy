/** The notification outbox: rows enqueued under an idempotency key, dispatched in
    pages with capped, backed-off retries (notification-dispatch.service.ts). */
module Outbox {
  import opened Common
  import Text
  import opened ContactDirectory

  const RETRY_BACKOFF_SECONDS: seq<nat> := [60, 5 * 60, 15 * 60, 60 * 60]
  const DEFAULT_MAX_ATTEMPTS: nat := 5

  datatype Status =
    | Pending | Sent | FailedRetryable | FailedPermanent
    | SkippedDisabled | SkippedNoRecipients | SkippedNotConfigured | Stubbed

  datatype Row = Row(
    tenantId: string, eventType: EventType, sourceRecordId: string, idempotencyKey: string,
    recipient: Option<string>, recipientLabel: Option<string>, payload: Json,
    status: Status, attemptCount: nat, maxAttempts: nat, nextAttemptAt: int,
    providerName: Option<string>, lastErrorCode: Option<string>, lastErrorMessage: Option<string>,
    dispatchedAt: Option<int>, createdAt: int)

  datatype Delivery = Delivery(
    outboxId: nat, tenantId: string, providerName: string, recipient: Option<string>,
    status: Status, attemptNumber: nat, responseCode: Option<int>, providerMessageId: Option<string>,
    errorCode: Option<string>, errorMessage: Option<string>, createdAt: int)

  /** The two tables. A row's identity is its place in `rows`, which only grows. */
  datatype Tables = Tables(rows: seq<Row>, log: seq<Delivery>)

  datatype NotificationSettings = NotificationSettings(
    notificationsEnabled: bool, whatsappEnabled: bool,
    eventComplianceExpired: bool, eventComplianceExpiringSoon: bool)

  datatype Candidate = Candidate(
    alertType: string, relatedRecordId: string, occurredAt: string,
    reason: string, severity: string, actionTarget: Option<string>, siteId: Option<string>)

  datatype SendStatus = SentOk | StubbedOk | RetryLater | GiveUp

  datatype SendResult = SendResult(
    status: SendStatus, providerName: string, responseCode: Option<int>,
    providerMessageId: Option<string>, errorCode: Option<string>, errorMessage: Option<string>)

  datatype Answer = Answer(result: SendResult, loggedAt: int)

  /** What one attempt reads from outside the outbox: the settings row, the configured
      provider, the directory, the provider's answers in sending order, and the clock
      when the attempt ends. Each may differ from attempt to attempt. */
  datatype World = World(
    settings: Option<NotificationSettings>, provider: Option<string>,
    directory: Snapshot, answers: seq<Answer>, clock: int)

  predicate Active(r: Row) { r.status.Pending? || r.status.FailedRetryable? }

  predicate Succeeded(d: Delivery) { d.status.Sent? || d.status.Stubbed? }

  function BackoffSeconds(attemptCount: nat): nat {
    if attemptCount == 0 then 3600
    else if attemptCount <= |RETRY_BACKOFF_SECONDS| then RETRY_BACKOFF_SECONDS[attemptCount - 1]
    else RETRY_BACKOFF_SECONDS[|RETRY_BACKOFF_SECONDS| - 1]
  }

  // ---------------------------------------------------------------- enqueue

  predicate Supported(c: Candidate) {
    c.alertType == "compliance_expired" || c.alertType == "compliance_expiring_soon"
  }

  function AsEventType(alertType: string): EventType {
    if alertType == "compliance_expired" then ComplianceExpired else ComplianceExpiringSoon
  }

  function EventText(e: EventType): string {
    match e
    case ComplianceExpired => "COMPLIANCE_EXPIRED"
    case ComplianceExpiringSoon => "COMPLIANCE_EXPIRING_SOON"
    case Future(name) => name
  }

  function EventEnabled(settings: Option<NotificationSettings>, alertType: string): bool {
    settings.Some? && settings.value.notificationsEnabled
    && if alertType == "compliance_expired" then settings.value.eventComplianceExpired
       else settings.value.eventComplianceExpiringSoon
  }

  /** The text that is hashed; the hash itself is taken as injective. */
  function RawKey(tenantId: string, e: EventType, sourceRecordId: string, recipient: string, date: string): string {
    tenantId + ['|'] + (EventText(e) + ['|'] + (sourceRecordId + ['|'] + (recipient + ['|'] + date)))
  }

  function CandidateKey(tenantId: string, c: Candidate): string {
    RawKey(tenantId, AsEventType(c.alertType), c.relatedRecordId, "directory", Text.Prefix(c.occurredAt, 10))
  }

  function OptionalText(t: Option<string>): Json {
    if t.Some? then JString(t.value) else JNull
  }

  function CandidatePayload(c: Candidate): Json {
    JObject(map[
      "reason" := JString(c.reason), "severity" := JString(c.severity),
      "occurred_at" := JString(c.occurredAt), "related_record_id" := JString(c.relatedRecordId),
      "action_target" := OptionalText(c.actionTarget), "site_id" := OptionalText(c.siteId)])
  }

  function RowFor(tenantId: string, settings: Option<NotificationSettings>, c: Candidate, now: int): Row {
    var status :=
      if !EventEnabled(settings, c.alertType) then SkippedDisabled
      else if settings.Some? && !settings.value.whatsappEnabled then SkippedNotConfigured
      else Pending;
    Row(tenantId, AsEventType(c.alertType), c.relatedRecordId, CandidateKey(tenantId, c),
        None, None, CandidatePayload(c), status, 0, DEFAULT_MAX_ATTEMPTS, now, None, None, None, None, now)
  }

  function RowsFor(tenantId: string, settings: Option<NotificationSettings>, cs: seq<Candidate>, now: int): seq<Row> {
    Map(c => RowFor(tenantId, settings, c, now), Filter(c => Supported(c), cs))
  }

  lemma RowsForNext(tenantId: string, settings: Option<NotificationSettings>, cs: seq<Candidate>, n: nat, now: int)
    requires n < |cs|
    ensures RowsFor(tenantId, settings, cs[..n + 1], now) == RowsFor(tenantId, settings, cs[..n], now)
      + if Supported(cs[n]) then [RowFor(tenantId, settings, cs[n], now)] else []
  {
    assert cs[..n + 1][..n] == cs[..n];
  }

  predicate HasKey(rows: seq<Row>, key: string) {
    exists i :: 0 <= i < |rows| && rows[i].idempotencyKey == key
  }

  /** createMany with skipDuplicates: the unique index on the key drops later rows. */
  function InsertNew(rows: seq<Row>, data: seq<Row>): seq<Row> {
    if data == [] then rows
    else
      var r := InsertNew(rows, data[..|data| - 1]);
      var d := data[|data| - 1];
      if HasKey(r, d.idempotencyKey) then r else r + [d]
  }

  function EnqueueCandidates(
    s: Tables, tenantId: string, settings: Option<NotificationSettings>, cs: seq<Candidate>, now: int): Tables
  {
    s.(rows := InsertNew(s.rows, RowsFor(tenantId, settings, cs, now)))
  }

  // ---------------------------------------------------------------- the page query

  predicate Due(r: Row, tenantId: Option<string>, now: int) {
    && (tenantId.Some? && tenantId.value != "" ==> r.tenantId == tenantId.value)
    && Active(r) && r.nextAttemptAt <= now
  }

  function DueIds(rows: seq<Row>, tenantId: Option<string>, now: int): set<nat> {
    set i: nat | i < |rows| && Due(rows[i], tenantId, now)
  }

  predicate DueBefore(a: Row, b: Row) {
    a.nextAttemptAt < b.nextAttemptAt || (a.nextAttemptAt == b.nextAttemptAt && a.createdAt <= b.createdAt)
  }

  /** Any answer the database may give: due rows without repetition, ordered by
      (next_attempt_at, created_at), and as many of the first ones as the limit allows. */
  ghost predicate IsDuePage(rows: seq<Row>, tenantId: Option<string>, now: int, limit: nat, page: seq<nat>) {
    && Distinct(page) && (forall k :: 0 <= k < |page| ==> page[k] in DueIds(rows, tenantId, now))
    && |page| == Min(limit, |DueIds(rows, tenantId, now)|)
    && (forall k, l :: 0 <= k < l < |page| ==> DueBefore(rows[page[k]], rows[page[l]]))
    && (forall k, i :: 0 <= k < |page| && i in DueIds(rows, tenantId, now) && i !in page ==>
          DueBefore(rows[page[k]], rows[i]))
  }

  function Min(a: nat, b: nat): nat { if a <= b then a else b }

  // ---------------------------------------------------------------- one attempt

  datatype Block = Block(
    status: Status, providerName: string, logCode: Option<string>, logMessage: Option<string>,
    rowCode: Option<string>, rowMessage: Option<string>)

  /** The guards in the order they are tried. Resolving recipients may throw. */
  datatype Gate = Blocked(block: Block) | Throws(error: string) | Open(recipients: seq<Recipient>)

  function RowRecipients(r: Row, w: World): Resolved {
    if r.recipient.GetOr("") != ""
    then Success([Recipient(r.recipient.value, r.recipientLabel.GetOr(r.recipient.value))])
    else ResolveRecipients(w.directory, r.tenantId, r.eventType, r.payload)
  }

  function GateFor(r: Row, w: World): Gate {
    if !(w.settings.Some? && w.settings.value.notificationsEnabled) then
      Blocked(Block(SkippedDisabled, "policy_guard", None, None, None, None))
    else if !w.settings.value.whatsappEnabled then
      Blocked(Block(SkippedNotConfigured, "policy_guard", None, None, None, Some("WhatsApp channel is disabled.")))
    else if w.provider.None? then
      var message := Some("Notification provider is not configured.");
      Blocked(Block(SkippedNotConfigured, "provider_unavailable",
                    Some("provider_unavailable"), message, Some("provider_unavailable"), message))
    else match RowRecipients(r, w)
      case Failure(e) => Throws(e)
      case Success(recipients) =>
        if recipients == [] then
          Blocked(Block(SkippedNoRecipients, "policy_guard", None, None, None,
                        Some("No recipients resolved for this notification.")))
        else Open(recipients)
  }

  /** The clock does not run backwards during the attempt, and every send is answered. */
  ghost predicate Fits(r: Row, w: World, now: int) {
    && now <= w.clock
    && (forall k :: 0 <= k < |w.answers| ==> now <= w.answers[k].loggedAt <= w.clock)
    && (GateFor(r, w).Open? ==> |w.answers| == |GateFor(r, w).recipients|)
  }

  function LogStatus(s: SendStatus): Status {
    match s case SentOk => Sent case StubbedOk => Stubbed
    case RetryLater => FailedRetryable case GiveUp => FailedPermanent
  }

  predicate IsSuccess(r: SendResult) { r.status.SentOk? || r.status.StubbedOk? }

  predicate AnySuccess(rs: seq<SendResult>) { exists k :: 0 <= k < |rs| && IsSuccess(rs[k]) }

  predicate AnyRetryable(rs: seq<SendResult>) { exists k :: 0 <= k < |rs| && rs[k].status.RetryLater? }

  /** The log keeps the provider's message id of successes and the error of failures. */
  function SendLog(id: nat, r: Row, recipient: Recipient, a: Answer): Delivery {
    var ok := IsSuccess(a.result);
    Delivery(id, r.tenantId, a.result.providerName, Some(recipient.recipient), LogStatus(a.result.status),
      r.attemptCount + 1, a.result.responseCode, if ok then a.result.providerMessageId else None,
      if ok then None else a.result.errorCode, if ok then None else a.result.errorMessage, a.loggedAt)
  }

  function LastGiveUp(rs: seq<SendResult>): Option<SendResult> {
    if rs == [] then None
    else if rs[|rs| - 1].status.GiveUp? then Some(rs[|rs| - 1])
    else LastGiveUp(rs[..|rs| - 1])
  }

  /** The row after a send loop with results `rs` (never empty). */
  function Settle(r: Row, rs: seq<SendResult>, clock: int): Row
    requires rs != []
  {
    var attempt := r.attemptCount + 1;
    var provider := rs[|rs| - 1].providerName;
    if AnyRetryable(rs) && !AnySuccess(rs) then
      var reachedMax := attempt >= r.maxAttempts;
      r.(status := if reachedMax then FailedPermanent else FailedRetryable,
         attemptCount := attempt,
         nextAttemptAt := if reachedMax then r.nextAttemptAt else clock + 1000 * BackoffSeconds(attempt),
         providerName := Some(provider),
         lastErrorCode := Some("retryable_send_failed"),
         lastErrorMessage := Some("Retryable send failure."),
         dispatchedAt := if reachedMax then Some(clock) else r.dispatchedAt)
    else if AnySuccess(rs) then
      r.(status := if provider == "dev_stub" then Stubbed else Sent,
         attemptCount := attempt, providerName := Some(provider),
         lastErrorCode := None, lastErrorMessage := None, dispatchedAt := Some(clock))
    else
      var e := LastGiveUp(rs);
      r.(status := FailedPermanent, attemptCount := attempt, providerName := Some(provider),
         lastErrorCode := Some(if e.Some? then e.value.errorCode.GetOr("permanent_send_failed") else "permanent_send_failed"),
         lastErrorMessage := Some(if e.Some? then e.value.errorMessage.GetOr("Permanent send failure.") else "Permanent send failure."),
         dispatchedAt := Some(clock))
  }

  lemma NextResult(rs: seq<SendResult>, n: nat)
    requires n < |rs|
    ensures AnySuccess(rs[..n + 1]) == (AnySuccess(rs[..n]) || IsSuccess(rs[n]))
    ensures AnyRetryable(rs[..n + 1]) == (AnyRetryable(rs[..n]) || rs[n].status.RetryLater?)
    ensures LastGiveUp(rs[..n + 1]) == if rs[n].status.GiveUp? then Some(rs[n]) else LastGiveUp(rs[..n])
  {
    assert rs[..n + 1][..n] == rs[..n];
    assert forall k :: 0 <= k < n ==> rs[..n + 1][k] == rs[..n][k];
  }

  datatype Effect = Effect(row: Row, log: seq<Delivery>)

  function Attempt(id: nat, r: Row, w: World): Effect
    requires GateFor(r, w).Open? ==> |w.answers| == |GateFor(r, w).recipients|
  {
    match GateFor(r, w)
    case Throws(_) => Effect(r, [])
    case Blocked(b) =>
      Effect(
        r.(status := b.status, attemptCount := r.attemptCount + 1, providerName := Some(b.providerName),
           lastErrorCode := b.rowCode, lastErrorMessage := b.rowMessage, dispatchedAt := Some(w.clock)),
        [Delivery(id, r.tenantId, b.providerName, r.recipient, b.status, r.attemptCount + 1,
                  None, None, b.logCode, b.logMessage, w.clock)])
    case Open(recipients) =>
      Effect(
        Settle(r, Results(w.answers), w.clock),
        seq(|recipients|, k requires 0 <= k < |recipients| => SendLog(id, r, recipients[k], w.answers[k])))
  }

  function Results(answers: seq<Answer>): seq<SendResult> { Map((a: Answer) => a.result, answers) }

  // ---------------------------------------------------------------- one pass

  /** `worlds` holds what the outside answers for each row of the page. */
  ghost predicate PageFits(rows: seq<Row>, page: seq<nat>, worlds: map<nat, World>, now: int) {
    forall k :: 0 <= k < |page| ==>
      page[k] < |rows| && page[k] in worlds && Fits(rows[page[k]], worlds[page[k]], now)
  }

  datatype Pass = Pass(tables: Tables, processed: nat, threw: bool)

  function Write(s: Tables, id: nat, e: Effect): Tables
    requires id < |s.rows|
  {
    Tables(s.rows[id := e.row], s.log + e.log)
  }

  /** The rows of the page in order; an error of the recipient resolution ends the pass. */
  ghost function DispatchPage(s: Tables, page: seq<nat>, worlds: map<nat, World>, now: int): Pass
    requires Distinct(page) && PageFits(s.rows, page, worlds, now)
    decreases |page|
  {
    if page == [] then Pass(s, 0, false)
    else
      var id := page[0];
      if GateFor(s.rows[id], worlds[id]).Throws? then Pass(s, 0, true)
      else
        var next := Write(s, id, Attempt(id, s.rows[id], worlds[id]));
        var rest := DispatchPage(next, page[1..], worlds, now);
        rest.(processed := rest.processed + 1)
  }

  /** Processing the head of a page leaves the rest of the page as it was. */
  lemma PageStep(s: Tables, page: seq<nat>, n: nat, worlds: map<nat, World>, now: int)
    requires n < |page| && Distinct(page[n..]) && PageFits(s.rows, page[n..], worlds, now)
    requires !GateFor(s.rows[page[n..][0]], worlds[page[n..][0]]).Throws?
    ensures page[n..][0] == page[n]
    ensures var next := Write(s, page[n], Attempt(page[n], s.rows[page[n]], worlds[page[n]]));
      && Distinct(page[n + 1..]) && PageFits(next.rows, page[n + 1..], worlds, now)
      && var pass, rest := DispatchPage(s, page[n..], worlds, now), DispatchPage(next, page[n + 1..], worlds, now);
         pass == rest.(processed := rest.processed + 1)
  {
    assert page[n..][1..] == page[n + 1..];
  }

  /** The page so far holds the first rows of `all` in order, and `left` the others. */
  ghost predicate Chosen(rows: seq<Row>, all: set<nat>, left: set<nat>, page: seq<nat>) {
    && (forall i :: i in all ==> i < |rows|)
    && left <= all && Distinct(page) && (forall k :: 0 <= k < |page| ==> page[k] in all - left)
    && (forall i :: i in all ==> i in left || i in page) && |page| + |left| == |all|
    && (forall k, l :: 0 <= k < l < |page| ==> DueBefore(rows[page[k]], rows[page[l]]))
    && (forall k, i :: 0 <= k < |page| && i in left ==> DueBefore(rows[page[k]], rows[i]))
  }

  lemma ChooseNext(rows: seq<Row>, all: set<nat>, left: set<nat>, page: seq<nat>, least: nat)
    requires Chosen(rows, all, left, page) && least in left
    requires forall i :: i in left ==> DueBefore(rows[least], rows[i])
    ensures Chosen(rows, all, left - {least}, page + [least])
  {
    var next := page + [least];
    forall i | i in all && i !in left - {least} ensures i in next {
      if i != least {
        var k :| 0 <= k < |page| && page[k] == i;
        assert next[k] == i;
      } else {
        assert next[|page|] == i;
      }
    }
  }

  lemma DuePageFits(
    rows: seq<Row>, tenantId: Option<string>, now: int, limit: nat, page: seq<nat>, worlds: map<nat, World>)
    requires IsDuePage(rows, tenantId, now, limit, page)
    requires forall id :: id in DueIds(rows, tenantId, now) ==> id in worlds && Fits(rows[id], worlds[id], now)
    ensures Distinct(page) && PageFits(rows, page, worlds, now)
  {}

  lemma MinimumExists(rows: seq<Row>, ids: set<nat>) returns (least: nat)
    requires ids != {} && forall i :: i in ids ==> i < |rows|
    ensures least in ids && forall i :: i in ids ==> DueBefore(rows[least], rows[i])
  {
    var first :| first in ids;
    if ids == {first} {
      least := first;
    } else {
      var rest := ids - {first};
      assert ids == rest + {first};
      least := MinimumExists(rows, rest);
      if DueBefore(rows[first], rows[least]) {
        least := first;
      }
    }
  }

  /** The outbox and delivery tables, changed in place by the two service functions. */
  class NotificationOutbox {
    var rows: seq<Row>
    var log: seq<Delivery>

    ghost function Contents(): Tables
      reads this
    {
      Tables(rows, log)
    }

    constructor ()
      ensures Contents() == Tables([], [])
    {
      rows, log := [], [];
    }

    method EnqueueComplianceNotificationCandidates(
      tenantId: string, settings: Option<NotificationSettings>, candidates: seq<Candidate>, now: int)
      modifies this`rows
      ensures Contents() == EnqueueCandidates(old(Contents()), tenantId, settings, candidates, now)
    {
      var data: seq<Row> := [];
      for n := 0 to |candidates|
        invariant data == RowsFor(tenantId, settings, candidates[..n], now)
        invariant rows == old(rows)
      {
        RowsForNext(tenantId, settings, candidates, n, now);
        if !Supported(candidates[n]) {
          continue;
        }
        data := data + [RowFor(tenantId, settings, candidates[n], now)];
      }
      assert candidates[..|candidates|] == candidates;
      CreateMany(data);
    }

    method CreateMany(data: seq<Row>)
      modifies this`rows
      ensures rows == InsertNew(old(rows), data)
    {
      for n := 0 to |data|
        invariant rows == InsertNew(old(rows), data[..n])
      {
        assert data[..n + 1][..n] == data[..n];
        if !HasKey(rows, data[n].idempotencyKey) {
          rows := rows + [data[n]];
        }
      }
      assert data[..|data|] == data;
    }

    /** The findMany of a dispatch pass; equal sort keys are returned in any order. */
    method FindDue(tenantId: Option<string>, limit: nat, now: int) returns (page: seq<nat>)
      ensures IsDuePage(rows, tenantId, now, limit, page)
    {
      var all := DueIds(rows, tenantId, now);
      var left := all;
      page := [];
      while |page| < limit && left != {}
        invariant Chosen(rows, all, left, page) && |page| <= limit
      {
        ghost var minimum := MinimumExists(rows, left);
        var least :| least in left && forall i :: i in left ==> DueBefore(rows[least], rows[i]);
        ChooseNext(rows, all, left, page, least);
        page := page + [least];
        left := left - {least};
      }
    }

    /** The send loop with its two flags and the last permanent failure. */
    method SendToAll(id: nat, row: Row, recipients: seq<Recipient>, w: World)
      requires id < |rows| && rows[id] == row && recipients != [] && |w.answers| == |recipients|
      modifies this
      ensures Contents() == Write(old(Contents()), id,
        Effect(Settle(row, Results(w.answers), w.clock),
               seq(|recipients|, k requires 0 <= k < |recipients| => SendLog(id, row, recipients[k], w.answers[k]))))
    {
      ghost var results := Results(w.answers);
      var attemptNumber := row.attemptCount + 1;
      var atLeastOneSent, hasRetryableFailure := false, false;
      var permanentFailureCode: Option<string> := None;
      var permanentFailureMessage: Option<string> := None;
      var providerName := w.provider.GetOr("");
      for n := 0 to |recipients|
        invariant rows == old(rows)
        invariant log == old(log) + seq(n, k requires 0 <= k < n => SendLog(id, row, recipients[k], w.answers[k]))
        invariant atLeastOneSent == AnySuccess(results[..n])
        invariant hasRetryableFailure == AnyRetryable(results[..n])
        invariant n > 0 ==> providerName == results[n - 1].providerName
        invariant LastGiveUp(results[..n]).None? ==> permanentFailureCode.None? && permanentFailureMessage.None?
        invariant LastGiveUp(results[..n]).Some? ==>
          && permanentFailureCode == Some(LastGiveUp(results[..n]).value.errorCode.GetOr("permanent_send_failed"))
          && permanentFailureMessage == Some(LastGiveUp(results[..n]).value.errorMessage.GetOr("Permanent send failure."))
      {
        var result := w.answers[n].result;
        NextResult(results, n);
        providerName := result.providerName;
        log := log + [SendLog(id, row, recipients[n], w.answers[n])];
        if IsSuccess(result) {
          atLeastOneSent := true;
          continue;
        }
        if result.status.RetryLater? {
          hasRetryableFailure := true;
          continue;
        }
        permanentFailureCode := Some(result.errorCode.GetOr("permanent_send_failed"));
        permanentFailureMessage := Some(result.errorMessage.GetOr("Permanent send failure."));
      }
      assert results[..|recipients|] == results;
      if hasRetryableFailure && !atLeastOneSent {
        var reachedMax := attemptNumber >= row.maxAttempts;
        MarkOutbox(id, if reachedMax then FailedPermanent else FailedRetryable, attemptNumber,
          if reachedMax then row.nextAttemptAt else w.clock + 1000 * BackoffSeconds(attemptNumber),
          providerName, Some("retryable_send_failed"), Some("Retryable send failure."),
          if reachedMax then Some(w.clock) else row.dispatchedAt);
      } else if atLeastOneSent {
        MarkOutbox(id, if providerName == "dev_stub" then Stubbed else Sent, attemptNumber,
          row.nextAttemptAt, providerName, None, None, Some(w.clock));
      } else {
        MarkOutbox(id, FailedPermanent, attemptNumber, row.nextAttemptAt, providerName,
          Some(permanentFailureCode.GetOr("permanent_send_failed")),
          Some(permanentFailureMessage.GetOr("Permanent send failure.")), Some(w.clock));
      }
    }

    method MarkOutbox(id: nat, status: Status, attemptCount: nat, nextAttemptAt: int, providerName: string,
      lastErrorCode: Option<string>, lastErrorMessage: Option<string>, dispatchedAt: Option<int>)
      requires id < |rows|
      modifies this`rows
      ensures rows == old(rows)[id := old(rows)[id].(status := status, attemptCount := attemptCount,
        nextAttemptAt := nextAttemptAt, providerName := Some(providerName), lastErrorCode := lastErrorCode,
        lastErrorMessage := lastErrorMessage, dispatchedAt := dispatchedAt)]
    {
      rows := rows[id := rows[id].(status := status, attemptCount := attemptCount,
        nextAttemptAt := nextAttemptAt, providerName := Some(providerName), lastErrorCode := lastErrorCode,
        lastErrorMessage := lastErrorMessage, dispatchedAt := dispatchedAt)];
    }

    /** One iteration of the pass, on the row as read by the page query. */
    method ProcessRow(id: nat, row: Row, w: World, ghost now: int) returns (threw: bool)
      requires id < |rows| && rows[id] == row && Fits(row, w, now)
      modifies this
      ensures threw == GateFor(row, w).Throws?
      ensures Contents() == Write(old(Contents()), id, Attempt(id, row, w))
    {
      threw := false;
      var gate := GateFor(row, w);
      match gate {
        case Throws(_) =>
          threw := true;
          assert rows == rows[id := row];
        case Blocked(b) =>
          log := log + [Delivery(id, row.tenantId, b.providerName, row.recipient, b.status,
            row.attemptCount + 1, None, None, b.logCode, b.logMessage, w.clock)];
          MarkOutbox(id, b.status, row.attemptCount + 1, row.nextAttemptAt, b.providerName,
            b.rowCode, b.rowMessage, Some(w.clock));
        case Open(recipients) =>
          SendToAll(id, row, recipients, w);
      }
    }

    /** A whole pass: the page is read once, then its rows are processed one by one.
        A pass that throws reports nothing. */
    method DispatchPendingNotifications(tenantId: Option<string>, limit: nat, now: int, worlds: map<nat, World>)
      returns (processed: Option<nat>, ghost page: seq<nat>)
      requires forall id :: id in DueIds(rows, tenantId, now) ==> id in worlds && Fits(rows[id], worlds[id], now)
      modifies this
      ensures IsDuePage(old(rows), tenantId, now, limit, page) && PageFits(old(rows), page, worlds, now)
      ensures var pass := DispatchPage(old(Contents()), page, worlds, now);
        && Contents() == pass.tables
        && processed == if pass.threw then None else Some(|page|)
    {
      var ids := FindDue(tenantId, limit, now);
      page := ids;
      DuePageFits(rows, tenantId, now, limit, ids, worlds);
      var threw := ProcessPage(ids, worlds, now);
      processed := if threw then None else Some(|ids|);
    }

    method ProcessPage(ids: seq<nat>, worlds: map<nat, World>, now: int) returns (threw: bool)
      requires Distinct(ids) && PageFits(rows, ids, worlds, now)
      modifies this
      ensures var pass := DispatchPage(old(Contents()), ids, worlds, now);
        Contents() == pass.tables && threw == pass.threw
    {
      var snapshot := rows;
      ghost var start := Contents();
      assert ids[0..] == ids;
      for n := 0 to |ids|
        invariant |rows| == |snapshot| && Distinct(ids[n..]) && PageFits(rows, ids[n..], worlds, now)
        invariant forall k :: n <= k < |ids| ==> rows[ids[k]] == snapshot[ids[k]]
        invariant DispatchPage(start, ids, worlds, now).tables == DispatchPage(Contents(), ids[n..], worlds, now).tables
        invariant DispatchPage(start, ids, worlds, now).threw == DispatchPage(Contents(), ids[n..], worlds, now).threw
      {
        ghost var before := Contents();
        assert ids[n..][0] == ids[n];
        threw := ProcessRow(ids[n], snapshot[ids[n]], worlds[ids[n]], now);
        if threw {
          assert Contents().rows == before.rows;
          return;
        }
        PageStep(before, ids, n, worlds, now);
      }
      threw := false;
    }
  }
}
