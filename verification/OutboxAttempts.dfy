/** What one attempt makes of a row, read from the settings and from the entries it logs, and how a row is
    retried over whole runs. */
module OutboxAttempts {
  import opened Common
  import opened ContactDirectory
  import opened Outbox
  import opened OutboxRuns

  // ---------------------------------------------------------------- one attempt

  /** The channel is on for the row and somebody is to be told. */
  predicate Sends(r: Row, w: World) {
    && w.settings.Some? && w.settings.value.notificationsEnabled && w.settings.value.whatsappEnabled
    && w.provider.Some? && RowRecipients(r, w).Success? && RowRecipients(r, w).value != []
  }

  predicate Answered(r: Row, w: World) {
    Sends(r, w) ==> |w.answers| == |RowRecipients(r, w).value|
  }

  lemma OpenIffSends(r: Row, w: World)
    ensures GateFor(r, w).Open? <==> Sends(r, w)
    ensures Sends(r, w) ==> GateFor(r, w).recipients == RowRecipients(r, w).value
  {}

  predicate LoggedWith(log: seq<Delivery>, status: Status) {
    exists k :: 0 <= k < |log| && log[k].status == status
  }

  predicate AnySent(log: seq<Delivery>) { LoggedWith(log, Sent) || LoggedWith(log, Stubbed) }

  /** Entry k names the k-th recipient and tells what the provider answered for it. */
  ghost predicate TellsAnswer(d: Delivery, recipient: string, s: SendResult, attempt: nat) {
    && d.recipient == Some(recipient) && d.attemptNumber == attempt && d.providerName == s.providerName
    && d.responseCode == s.responseCode
    && (d.status.Sent? <==> s.status.SentOk?) && (d.status.Stubbed? <==> s.status.StubbedOk?)
    && (d.status.FailedRetryable? <==> s.status.RetryLater?) && (d.status.FailedPermanent? <==> s.status.GiveUp?)
    && (d.status.Sent? || d.status.Stubbed? ==> d.providerMessageId == s.providerMessageId && d.errorCode.None? && d.errorMessage.None?)
    && (d.status.FailedRetryable? || d.status.FailedPermanent? ==> d.providerMessageId.None? && d.errorCode == s.errorCode && d.errorMessage == s.errorMessage)
  }

  lemma EntryAt(id: nat, r: Row, w: World, k: nat)
    requires Sends(r, w) && Answered(r, w) && k < |w.answers|
    ensures var log, results := Attempt(id, r, w).log, Results(w.answers);
      && |log| == |results| == |w.answers| && log[k].providerName == results[k].providerName
      && (!IsSuccess(results[k]) ==> log[k].errorCode == results[k].errorCode && log[k].errorMessage == results[k].errorMessage)
  {
    OpenIffSends(r, w);
    assert Attempt(id, r, w).log[k] == SendLog(id, r, RowRecipients(r, w).value[k], w.answers[k]);
  }

  /** An attempt that sends logs one entry per recipient, in order. */
  lemma OneEntryPerRecipient(id: nat, r: Row, w: World)
    requires Sends(r, w) && Answered(r, w)
    ensures var log, rs := Attempt(id, r, w).log, RowRecipients(r, w).value;
      && |log| == |rs|
      && (forall k :: 0 <= k < |rs| ==> log[k].outboxId == id && log[k].tenantId == r.tenantId)
      && (forall k :: 0 <= k < |rs| ==> TellsAnswer(log[k], rs[k].recipient, w.answers[k].result, r.attemptCount + 1))
  {
    OpenIffSends(r, w);
    var log, rs := Attempt(id, r, w).log, RowRecipients(r, w).value;
    forall k | 0 <= k < |rs| ensures TellsAnswer(log[k], rs[k].recipient, w.answers[k].result, r.attemptCount + 1) {
      EntryTells(id, r, rs[k], w.answers[k]);
    }
  }

  lemma EntryTells(id: nat, r: Row, recipient: Recipient, a: Answer)
    ensures TellsAnswer(SendLog(id, r, recipient, a), recipient.recipient, a.result, r.attemptCount + 1)
  {}

  /** Seconds until the next try after `attempts` of them. */
  function Pause(attempts: nat): nat
    requires attempts >= 1
  {
    if attempts == 1 then 60 else if attempts == 2 then 300 else if attempts == 3 then 900 else 3600
  }

  /** The row after a retryable failure: due again after the pause, or given up at the cap. */
  ghost predicate RetriedOrGivenUp(r: Row, next: Row, clock: int) {
    var attempts := r.attemptCount + 1;
    if attempts < r.maxAttempts then
      next.status.FailedRetryable? && next.nextAttemptAt == clock + 1000 * Pause(attempts) && next.dispatchedAt == r.dispatchedAt
    else
      next.status.FailedPermanent? && next.nextAttemptAt == r.nextAttemptAt && next.dispatchedAt == Some(clock)
  }

  /** The row after an attempt that sent, judged by what it logged. */
  ghost predicate SettledBy(r: Row, next: Row, log: seq<Delivery>, clock: int) {
    && log != [] && next.attemptCount == r.attemptCount + 1 && next.providerName == Some(log[|log| - 1].providerName)
    && (AnySent(log) ==>
          && next.status == (if log[|log| - 1].providerName == "dev_stub" then Stubbed else Sent)
          && next.dispatchedAt == Some(clock) && next.lastErrorCode.None? && next.lastErrorMessage.None?)
    && (!AnySent(log) && LoggedWith(log, FailedRetryable) ==>
          RetriedOrGivenUp(r, next, clock) && next.lastErrorCode == Some("retryable_send_failed"))
    && (!AnySent(log) && !LoggedWith(log, FailedRetryable) ==>
          && next.status.FailedPermanent? && next.dispatchedAt == Some(clock)
          && next.lastErrorCode == Some(log[|log| - 1].errorCode.GetOr("permanent_send_failed"))
          && next.lastErrorMessage == Some(log[|log| - 1].errorMessage.GetOr("Permanent send failure.")))
  }

  lemma LogSummary(id: nat, r: Row, w: World)
    requires Sends(r, w) && Answered(r, w)
    ensures var log, results := Attempt(id, r, w).log, Results(w.answers);
      && |log| == |results|
      && (AnySent(log) <==> AnySuccess(results)) && (LoggedWith(log, FailedRetryable) <==> AnyRetryable(results))
  {
    var log, results := Attempt(id, r, w).log, Results(w.answers);
    OpenIffSends(r, w);
    forall k | 0 <= k < |log|
      ensures (log[k].status.FailedRetryable? <==> results[k].status.RetryLater?)
        && (log[k].status.Sent? || log[k].status.Stubbed? <==> IsSuccess(results[k]))
    {
      EntryTells(id, r, RowRecipients(r, w).value[k], w.answers[k]);
      assert log[k] == SendLog(id, r, RowRecipients(r, w).value[k], w.answers[k]);
    }
    SameSummary(log, results);
  }

  lemma SameSummary(log: seq<Delivery>, results: seq<SendResult>)
    requires |log| == |results|
    requires forall k :: 0 <= k < |log| ==> (log[k].status.FailedRetryable? <==> results[k].status.RetryLater?)
    requires forall k :: 0 <= k < |log| ==> (log[k].status.Sent? || log[k].status.Stubbed? <==> IsSuccess(results[k]))
    ensures (AnySent(log) <==> AnySuccess(results)) && (LoggedWith(log, FailedRetryable) <==> AnyRetryable(results))
  {}

  /** Sent if anything was, and Stubbed if the stub answered last; else tried again after 1, 5, 15 or 60 minutes if
      anything may be and the cap is not reached; else failed for good, with the last error. */
  lemma SendingSettles(id: nat, r: Row, w: World)
    requires Sends(r, w) && Answered(r, w)
    ensures SettledBy(r, Attempt(id, r, w).row, Attempt(id, r, w).log, w.clock)
  {
    OpenIffSends(r, w);
    LogSummary(id, r, w);
    LastEntry(id, r, w);
    SettlesByResults(r, Results(w.answers), w.clock);
  }

  lemma LastEntry(id: nat, r: Row, w: World)
    requires Sends(r, w) && Answered(r, w)
    ensures var log, results := Attempt(id, r, w).log, Results(w.answers);
      && log != [] && |log| == |results| && log[|log| - 1].providerName == results[|results| - 1].providerName
      && (!IsSuccess(results[|results| - 1]) ==>
            && log[|log| - 1].errorCode == results[|results| - 1].errorCode
            && log[|log| - 1].errorMessage == results[|results| - 1].errorMessage)
  {
    EntryAt(id, r, w, |w.answers| - 1);
  }

  /** The same, of the provider's results. */
  ghost predicate SettledByResults(r: Row, next: Row, rs: seq<SendResult>, clock: int)
    requires rs != []
  {
    var last := rs[|rs| - 1];
    && next.attemptCount == r.attemptCount + 1 && next.providerName == Some(last.providerName)
    && (AnySuccess(rs) ==>
          && next.status == (if last.providerName == "dev_stub" then Stubbed else Sent)
          && next.dispatchedAt == Some(clock) && next.lastErrorCode.None? && next.lastErrorMessage.None?)
    && (!AnySuccess(rs) && AnyRetryable(rs) ==>
          RetriedOrGivenUp(r, next, clock) && next.lastErrorCode == Some("retryable_send_failed"))
    && (!AnySuccess(rs) && !AnyRetryable(rs) ==>
          && next.status.FailedPermanent? && next.dispatchedAt == Some(clock) && last.status.GiveUp?
          && next.lastErrorCode == Some(last.errorCode.GetOr("permanent_send_failed"))
          && next.lastErrorMessage == Some(last.errorMessage.GetOr("Permanent send failure.")))
  }

  lemma SettlesByResults(r: Row, rs: seq<SendResult>, clock: int)
    requires rs != []
    ensures SettledByResults(r, Settle(r, rs, clock), rs, clock)
  {
    var last := rs[|rs| - 1];
    if !AnySuccess(rs) && !AnyRetryable(rs) {
      assert last.status.GiveUp?;
      assert LastGiveUp(rs) == Some(last);
    }
  }

  /** An attempt that does not send is refused by the first guard that fails, and says so in one entry, or throws
      and changes nothing. */
  lemma RefusalsAre(id: nat, r: Row, w: World)
    requires !Sends(r, w) && Answered(r, w)
    ensures var e := Attempt(id, r, w);
      var on := w.settings.Some? && w.settings.value.notificationsEnabled;
      if on && w.settings.value.whatsappEnabled && w.provider.Some? && RowRecipients(r, w).Failure? then e == Effect(r, [])
      else
        && e.row.status == (if !on then SkippedDisabled
                            else if !w.settings.value.whatsappEnabled || w.provider.None? then SkippedNotConfigured
                            else SkippedNoRecipients)
        && e.row.attemptCount == r.attemptCount + 1 && e.row.dispatchedAt == Some(w.clock)
        && |e.log| == 1 && e.log[0].status == e.row.status && e.log[0].recipient == r.recipient
  {
    OpenIffSends(r, w);
  }

  // ---------------------------------------------------------------- the queue

  /** A row is queued for a tenant's pass exactly if it waits or is to be retried, is the tenant's, and its time has come. */
  lemma QueuedIff(rows: seq<Row>, i: nat, tenantId: string, now: int)
    requires i < |rows| && tenantId != ""
    ensures i in DueIds(rows, Some(tenantId), now) <==>
      (rows[i].status.Pending? || rows[i].status.FailedRetryable?) && rows[i].tenantId == tenantId && rows[i].nextAttemptAt <= now
    ensures i in DueIds(rows, None, now) <==>
      (rows[i].status.Pending? || rows[i].status.FailedRetryable?) && rows[i].nextAttemptAt <= now
  {}

  /** No row waits behind one that fell due later, or at the same time but was created later. */
  lemma LongestWaitingFirst(
    rows: seq<Row>, tenantId: Option<string>, now: int, limit: nat, page: seq<nat>, k: nat, i: nat)
    requires IsDuePage(rows, tenantId, now, limit, page) && k < |page| && i in DueIds(rows, tenantId, now)
    requires i !in page || (exists l :: k < l < |page| && page[l] == i)
    ensures rows[page[k]].nextAttemptAt <= rows[i].nextAttemptAt
    ensures rows[page[k]].nextAttemptAt == rows[i].nextAttemptAt ==> rows[page[k]].createdAt <= rows[i].createdAt
  {
    if i in page {
      var l :| k < l < |page| && page[l] == i;
      assert DueBefore(rows[page[k]], rows[page[l]]);
    }
  }

  // ---------------------------------------------------------------- a row over a run

  /** The rows a pass gets to before it ends or throws. */
  ghost function Reached(s: Tables, step: Step): seq<nat>
    requires Enabled(s, step) && step.Dispatch?
  {
    ReachedIn(s, step.page, step.worlds, step.now)
  }

  ghost function ReachedIn(s: Tables, page: seq<nat>, worlds: map<nat, World>, now: int): seq<nat>
    requires Distinct(page) && PageFits(s.rows, page, worlds, now)
  {
    ProcessedAtMost(s, page, worlds, now);
    page[..DispatchPage(s, page, worlds, now).processed]
  }

  lemma {:induction false} ProcessedAtMost(s: Tables, page: seq<nat>, worlds: map<nat, World>, now: int)
    requires Distinct(page) && PageFits(s.rows, page, worlds, now)
    ensures DispatchPage(s, page, worlds, now).processed <= |page|
    decreases |page|
  {
    if page != [] && !GateFor(s.rows[page[0]], worlds[page[0]]).Throws? {
      ProcessedAtMost(Write(s, page[0], Attempt(page[0], s.rows[page[0]], worlds[page[0]])), page[1..], worlds, now);
    }
  }

  /** A pass leaves a row as its attempt does if it gets to it, and as it was if not. */
  lemma {:induction false} PassWritesReached(s: Tables, page: seq<nat>, worlds: map<nat, World>, now: int, i: nat)
    requires Distinct(page) && PageFits(s.rows, page, worlds, now) && i < |s.rows|
    ensures var t := DispatchPage(s, page, worlds, now).tables;
      && |t.rows| == |s.rows|
      && t.rows[i] == if i in ReachedIn(s, page, worlds, now) then Attempt(i, s.rows[i], worlds[i]).row else s.rows[i]
    decreases |page|
  {
    ProcessedAtMost(s, page, worlds, now);
    if page != [] && !GateFor(s.rows[page[0]], worlds[page[0]]).Throws? {
      var next := Write(s, page[0], Attempt(page[0], s.rows[page[0]], worlds[page[0]]));
      PassWritesReached(next, page[1..], worlds, now, i);
      ReachedNext(s, next, page, worlds, now);
    }
  }

  lemma ReachedNext(s: Tables, next: Tables, page: seq<nat>, worlds: map<nat, World>, now: int)
    requires page != [] && Distinct(page) && PageFits(s.rows, page, worlds, now)
    requires !GateFor(s.rows[page[0]], worlds[page[0]]).Throws?
    requires next == Write(s, page[0], Attempt(page[0], s.rows[page[0]], worlds[page[0]]))
    ensures Distinct(page[1..]) && PageFits(next.rows, page[1..], worlds, now)
    ensures ReachedIn(s, page, worlds, now) == [page[0]] + ReachedIn(next, page[1..], worlds, now)
  {
    ProcessedAtMost(s, page, worlds, now);
    ProcessedAtMost(next, page[1..], worlds, now);
  }

  /** How often the passes of a run get to row `i`. */
  ghost function Tries(s: Tables, steps: seq<Step>, i: nat): nat
    requires ValidRun(s, steps)
    decreases |steps|
  {
    if steps == [] then 0
    else (if steps[0].Dispatch? && i in Reached(s, steps[0]) then 1 else 0) + Tries(Apply(s, steps[0]), steps[1..], i)
  }

  /** Every try of row `i` sends, and is answered by retryable failures only. */
  ghost predicate OnlyRetryable(s: Tables, steps: seq<Step>, i: nat)
    requires ValidRun(s, steps)
    decreases |steps|
  {
    steps != [] ==>
      && (steps[0].Dispatch? && i in Reached(s, steps[0]) && i < |s.rows| && i in steps[0].worlds ==>
            AllRetryable(s.rows[i], steps[0].worlds[i]))
      && OnlyRetryable(Apply(s, steps[0]), steps[1..], i)
  }

  predicate AllRetryable(r: Row, w: World) {
    Sends(r, w) && forall k :: 0 <= k < |w.answers| ==> w.answers[k].result.status.RetryLater?
  }

  lemma RetryableAttempt(id: nat, r: Row, w: World)
    requires AllRetryable(r, w) && Answered(r, w)
    ensures Attempt(id, r, w).row.attemptCount == r.attemptCount + 1 && Attempt(id, r, w).row.maxAttempts == r.maxAttempts
    ensures RetriedOrGivenUp(r, Attempt(id, r, w).row, w.clock)
  {
    SendingSettles(id, r, w);
    RetryableEntries(id, r, w);
  }

  lemma RetryableEntries(id: nat, r: Row, w: World)
    requires AllRetryable(r, w) && Answered(r, w)
    ensures var log := Attempt(id, r, w).log; !AnySent(log) && LoggedWith(log, FailedRetryable)
  {
    OneEntryPerRecipient(id, r, w);
    var log := Attempt(id, r, w).log;
    assert log[0].status == FailedRetryable;
    assert forall k :: 0 <= k < |log| ==> log[k].status == FailedRetryable;
  }

  /** Between none and all tries the row is in the queue; after the last it has failed. */
  ghost predicate WaitsOrFailed(r: Row) {
    && r.attemptCount <= r.maxAttempts
    && (r.attemptCount < r.maxAttempts ==> Active(r)) && (r.attemptCount == r.maxAttempts ==> r.status.FailedPermanent?)
  }

  lemma StepRetries(s: Tables, step: Step, i: nat)
    requires Enabled(s, step) && i < |s.rows| && WaitsOrFailed(s.rows[i])
    requires step.Dispatch? && i in Reached(s, step) && i in step.worlds ==> AllRetryable(s.rows[i], step.worlds[i])
    ensures var t := Apply(s, step);
      && i < |t.rows| && t.rows[i].maxAttempts == s.rows[i].maxAttempts && WaitsOrFailed(t.rows[i])
      && t.rows[i].attemptCount == s.rows[i].attemptCount + (if step.Dispatch? && i in Reached(s, step) then 1 else 0)
      && (step.Dispatch? && i in Reached(s, step) ==> RetriedOrGivenUp(s.rows[i], t.rows[i], step.worlds[i].clock))
  {
    match step
    case Enqueue(tenantId, settings, cs, now) =>
      InsertNewProperties(s.rows, RowsFor(tenantId, settings, cs, now));
    case Dispatch(_, _, now, page, worlds) =>
      PassWritesReached(s, page, worlds, now, i);
      if i in Reached(s, step) {
        ReachedIsDue(s, step, i);
        OpenIffSends(s.rows[i], worlds[i]);
        RetryableAttempt(i, s.rows[i], worlds[i]);
      }
  }

  lemma ReachedIsDue(s: Tables, step: Step, i: nat)
    requires Enabled(s, step) && step.Dispatch? && i in Reached(s, step)
    ensures i < |s.rows| && Active(s.rows[i]) && i in step.worlds && Fits(s.rows[i], step.worlds[i], step.now)
  {
    ProcessedAtMost(s, step.page, step.worlds, step.now);
    var k :| 0 <= k < |step.page| && step.page[k] == i;
    assert step.page[k] in DueIds(s.rows, step.tenant, step.now);
  }

  /** After a try that met only retryable failures the row is queued again exactly if tries are left and the pause is over. */
  lemma DueAgainAfterPause(s: Tables, step: Step, i: nat, at: int)
    requires Enabled(s, step) && step.Dispatch? && i in Reached(s, step) && i < |s.rows| && i in step.worlds
    requires WaitsOrFailed(s.rows[i]) && AllRetryable(s.rows[i], step.worlds[i]) && s.rows[i].tenantId != ""
    ensures var r := s.rows[i];
      i in DueIds(Apply(s, step).rows, Some(r.tenantId), at)
      <==> r.attemptCount + 1 < r.maxAttempts && step.worlds[i].clock + 1000 * Pause(r.attemptCount + 1) <= at
  {
    StepRetries(s, step, i);
    PassWritesReached(s, step.page, step.worlds, step.now, i);
    AttemptKeepsTenant(i, s.rows[i], step.worlds[i]);
    ReachedIsDue(s, step, i);
    OpenIffSends(s.rows[i], step.worlds[i]);
    QueuedIff(Apply(s, step).rows, i, s.rows[i].tenantId, at);
  }

  lemma AttemptKeepsTenant(id: nat, r: Row, w: World)
    requires GateFor(r, w).Open? ==> |w.answers| == |GateFor(r, w).recipients|
    ensures Attempt(id, r, w).row.tenantId == r.tenantId
  {}

  /** A row that meets nothing but retryable failures is tried again until it has had exactly its number of attempts:
      as long as it has had fewer it is in the queue, and then it has failed. */
  lemma {:induction false} RetriedUntilTheCap(s: Tables, steps: seq<Step>, i: nat)
    requires ValidRun(s, steps) && i < |s.rows| && WaitsOrFailed(s.rows[i]) && OnlyRetryable(s, steps, i)
    ensures var t := RunFrom(s, steps);
      && i < |t.rows| && t.rows[i].maxAttempts == s.rows[i].maxAttempts
      && t.rows[i].attemptCount == s.rows[i].attemptCount + Tries(s, steps, i) <= s.rows[i].maxAttempts
      && (t.rows[i].attemptCount < s.rows[i].maxAttempts ==> Active(t.rows[i]))
      && (t.rows[i].attemptCount == s.rows[i].maxAttempts ==> t.rows[i].status.FailedPermanent?)
    decreases |steps|
  {
    if steps != [] {
      StepRetries(s, steps[0], i);
      RetriedUntilTheCap(Apply(s, steps[0]), steps[1..], i);
    }
  }
}
