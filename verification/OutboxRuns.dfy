/** Safety of the outbox over every run: any sequence of enqueues and dispatch
    passes, with any settings, providers, directories, answers and clock readings. */
module OutboxRuns {
  import opened Common
  import opened ContactDirectory
  import opened Outbox

  datatype Step =
    | Enqueue(tenantId: string, settings: Option<NotificationSettings>, candidates: seq<Candidate>, now: int)
    | Dispatch(tenant: Option<string>, limit: nat, now: int, page: seq<nat>, worlds: map<nat, World>)

  ghost predicate Enabled(s: Tables, step: Step) {
    step.Dispatch? ==>
      IsDuePage(s.rows, step.tenant, step.now, step.limit, step.page)
      && PageFits(s.rows, step.page, step.worlds, step.now)
  }

  ghost function Apply(s: Tables, step: Step): Tables
    requires Enabled(s, step)
  {
    match step
    case Enqueue(tenantId, settings, candidates, now) => EnqueueCandidates(s, tenantId, settings, candidates, now)
    case Dispatch(_, _, now, page, worlds) => DispatchPage(s, page, worlds, now).tables
  }

  ghost predicate ValidRun(s: Tables, steps: seq<Step>)
    decreases |steps|
  {
    steps != [] ==> Enabled(s, steps[0]) && ValidRun(Apply(s, steps[0]), steps[1..])
  }

  ghost function RunFrom(s: Tables, steps: seq<Step>): Tables
    requires ValidRun(s, steps)
    decreases |steps|
  {
    if steps == [] then s else RunFrom(Apply(s, steps[0]), steps[1..])
  }

  // ---------------------------------------------------------------- the invariant

  /** Seconds of backoff between attempt `first` and attempt `last`. */
  function Wait(first: nat, last: nat): nat {
    if last <= first then 0 else Wait(first, last - 1) + BackoffSeconds(last - 1)
  }

  ghost predicate RowOk(r: Row) {
    && r.attemptCount <= r.maxAttempts
    && (Active(r) ==> r.attemptCount < r.maxAttempts)
    && (r.status.Pending? ==> r.attemptCount == 0)
    && (r.status.FailedRetryable? ==> 1 <= r.attemptCount)
  }

  /** What an entry `d` of the delivery log says about its row `r`. */
  ghost predicate EntryOk(r: Row, d: Delivery) {
    && 1 <= d.attemptNumber <= r.attemptCount
    && (Succeeded(d) ==> d.attemptNumber == r.attemptCount && (r.status.Sent? || r.status.Stubbed?))
    && (r.status.FailedRetryable? ==>
          d.createdAt + 1000 * Wait(d.attemptNumber, r.attemptCount + 1) <= r.nextAttemptAt)
  }

  ghost predicate Spaced(d: Delivery, e: Delivery) {
    d.outboxId == e.outboxId && d.attemptNumber < e.attemptNumber ==>
      d.createdAt + 1000 * Wait(d.attemptNumber, e.attemptNumber) <= e.createdAt
  }

  ghost predicate Logged(log: seq<Delivery>, id: nat, attempt: nat) {
    exists k :: 0 <= k < |log| && log[k].outboxId == id && log[k].attemptNumber == attempt
  }

  ghost predicate DistinctKeys(rows: seq<Row>) {
    forall i, j :: 0 <= i < j < |rows| ==> rows[i].idempotencyKey != rows[j].idempotencyKey
  }

  ghost predicate EntriesOk(s: Tables) {
    forall k :: 0 <= k < |s.log| ==> s.log[k].outboxId < |s.rows| && EntryOk(s.rows[s.log[k].outboxId], s.log[k])
  }

  ghost predicate AllLogged(s: Tables) {
    forall i, a: nat :: 0 <= i < |s.rows| && 1 <= a <= s.rows[i].attemptCount ==> Logged(s.log, i, a)
  }

  ghost predicate AllSpaced(log: seq<Delivery>) {
    forall j, k :: 0 <= j < |log| && 0 <= k < |log| ==> Spaced(log[j], log[k])
  }

  ghost predicate Inv(s: Tables) {
    && DistinctKeys(s.rows)
    && (forall i :: 0 <= i < |s.rows| ==> RowOk(s.rows[i]))
    && EntriesOk(s) && AllLogged(s) && AllSpaced(s.log)
  }

  /** A table before any processing: distinct keys, nothing attempted, nothing logged. */
  ghost predicate Initial(s: Tables) {
    s.log == [] && DistinctKeys(s.rows)
    && forall i :: 0 <= i < |s.rows| ==>
         s.rows[i].attemptCount == 0 && s.rows[i].maxAttempts >= 1 && !s.rows[i].status.FailedRetryable?
  }

  lemma InitialInv(s: Tables)
    requires Initial(s)
    ensures Inv(s)
  {}

  // ---------------------------------------------------------------- enqueue

  /** createMany keeps the rows it finds and adds each new key once. */
  lemma {:induction false} InsertNewProperties(rows: seq<Row>, data: seq<Row>)
    ensures var r := InsertNew(rows, data);
      && rows <= r
      && (DistinctKeys(rows) ==> DistinctKeys(r))
      && (forall i :: |rows| <= i < |r| ==> r[i] in data && !HasKey(rows, r[i].idempotencyKey))
      && (forall d :: d in data ==> HasKey(r, d.idempotencyKey))
  {
    if data != [] {
      var front, d := data[..|data| - 1], data[|data| - 1];
      InsertNewProperties(rows, front);
      var r := InsertNew(rows, front);
      assert data == front + [d];
      if !HasKey(r, d.idempotencyKey) {
        assert (r + [d])[|r|].idempotencyKey == d.idempotencyKey;
        forall x | x in front ensures HasKey(r + [d], x.idempotencyKey) {
          var i :| 0 <= i < |r| && r[i].idempotencyKey == x.idempotencyKey;
          assert (r + [d])[i].idempotencyKey == x.idempotencyKey;
        }
        KeyStays(rows, r, d.idempotencyKey);
      }
    }
  }

  lemma KeyStays(rows: seq<Row>, more: seq<Row>, key: string)
    requires rows <= more
    ensures HasKey(rows, key) ==> HasKey(more, key)
  {
    if HasKey(rows, key) {
      var i :| 0 <= i < |rows| && rows[i].idempotencyKey == key;
      assert more[i].idempotencyKey == key;
    }
  }

  lemma EnqueueKeepsInv(
    s: Tables, tenantId: string, settings: Option<NotificationSettings>, cs: seq<Candidate>, now: int)
    requires Inv(s)
    ensures Inv(EnqueueCandidates(s, tenantId, settings, cs, now))
  {
    var data := RowsFor(tenantId, settings, cs, now);
    InsertNewProperties(s.rows, data);
    var r := InsertNew(s.rows, data);
    forall i | 0 <= i < |r| ensures RowOk(r[i]) && (i >= |s.rows| ==> r[i].attemptCount == 0) {
      if i >= |s.rows| {
        var k :| 0 <= k < |data| && data[k] == r[i];
      }
    }
  }

  // ---------------------------------------------------------------- one attempt

  /** The facts about one attempt at time `now` or later on which everything below rests. */
  ghost predicate AttemptShape(id: nat, r: Row, e: Effect, now: int) {
    && |e.log| >= 1
    && (forall k :: 0 <= k < |e.log| ==>
          e.log[k].outboxId == id && e.log[k].attemptNumber == r.attemptCount + 1 && now <= e.log[k].createdAt)
    && e.row.attemptCount == r.attemptCount + 1 && e.row.maxAttempts == r.maxAttempts
    && e.row.idempotencyKey == r.idempotencyKey && e.row.tenantId == r.tenantId
    && e.row.eventType == r.eventType && e.row.sourceRecordId == r.sourceRecordId
    && !e.row.status.Pending?
    && (e.row.status.FailedRetryable? ==>
          && e.row.attemptCount < e.row.maxAttempts
          && forall k :: 0 <= k < |e.log| ==>
               e.log[k].createdAt + 1000 * BackoffSeconds(e.row.attemptCount) <= e.row.nextAttemptAt)
    && (e.row.status.FailedRetryable? ==>
          now + 1000 * BackoffSeconds(e.row.attemptCount) <= e.row.nextAttemptAt)
    && ((exists k :: 0 <= k < |e.log| && Succeeded(e.log[k])) ==> e.row.status.Sent? || e.row.status.Stubbed?)
  }

  lemma SendLogHasShape(id: nat, r: Row, w: World, now: int)
    requires Fits(r, w, now) && GateFor(r, w).Open?
    ensures var e := Attempt(id, r, w);
      && |e.log| == |w.answers| >= 1
      && forall k :: 0 <= k < |e.log| ==>
           && e.log[k].outboxId == id && e.log[k].attemptNumber == r.attemptCount + 1
           && now <= e.log[k].createdAt <= w.clock
           && (Succeeded(e.log[k]) ==> IsSuccess(Results(w.answers)[k]))
  {}

  lemma SettleHasShape(r: Row, rs: seq<SendResult>, clock: int)
    requires rs != []
    ensures var q := Settle(r, rs, clock);
      && q.attemptCount == r.attemptCount + 1 && q.maxAttempts == r.maxAttempts
      && q.idempotencyKey == r.idempotencyKey && q.tenantId == r.tenantId
      && q.eventType == r.eventType && q.sourceRecordId == r.sourceRecordId && !q.status.Pending?
      && (q.status.FailedRetryable? ==>
            q.attemptCount < q.maxAttempts && q.nextAttemptAt == clock + 1000 * BackoffSeconds(q.attemptCount))
      && (AnySuccess(rs) ==> q.status.Sent? || q.status.Stubbed?)
  {}

  lemma SendsHaveShape(id: nat, r: Row, w: World, now: int)
    requires Active(r) && Fits(r, w, now) && GateFor(r, w).Open?
    ensures AttemptShape(id, r, Attempt(id, r, w), now)
  {
    SendLogHasShape(id, r, w, now);
    SettleHasShape(r, Results(w.answers), w.clock);
  }

  lemma AttemptHasShape(id: nat, r: Row, w: World, now: int)
    requires Active(r) && Fits(r, w, now) && !GateFor(r, w).Throws?
    ensures AttemptShape(id, r, Attempt(id, r, w), now)
  {
    if GateFor(r, w).Open? {
      SendsHaveShape(id, r, w, now);
    }
  }

  lemma WaitExtends(first: nat, last: nat)
    requires first <= last
    ensures Wait(first, last + 1) == Wait(first, last) + BackoffSeconds(last)
  {}

  lemma WriteKeepsEntries(s: Tables, id: nat, e: Effect, now: int)
    requires EntriesOk(s) && id < |s.rows| && Active(s.rows[id]) && RowOk(s.rows[id])
    requires s.rows[id].nextAttemptAt <= now && AttemptShape(id, s.rows[id], e, now)
    ensures EntriesOk(Write(s, id, e))
  {
    var t, n := Write(s, id, e), |s.log|;
    forall k | 0 <= k < |t.log| ensures t.log[k].outboxId < |t.rows| && EntryOk(t.rows[t.log[k].outboxId], t.log[k]) {
      if k < n {
        assert t.log[k] == s.log[k];
        if t.log[k].outboxId == id {
          WaitExtends(t.log[k].attemptNumber, e.row.attemptCount);
        }
      } else {
        assert t.log[k] == e.log[k - n];
        WaitExtends(e.row.attemptCount, e.row.attemptCount);
      }
    }
  }

  lemma WriteKeepsLogged(s: Tables, id: nat, e: Effect, now: int)
    requires AllLogged(s) && id < |s.rows| && AttemptShape(id, s.rows[id], e, now)
    ensures AllLogged(Write(s, id, e))
  {
    var t, n := Write(s, id, e), |s.log|;
    forall i, a: nat | 0 <= i < |t.rows| && 1 <= a <= t.rows[i].attemptCount ensures Logged(t.log, i, a) {
      if i == id && a == e.row.attemptCount {
        assert t.log[n] == e.log[0];
      } else {
        assert Logged(s.log, i, a);
        var k :| 0 <= k < n && s.log[k].outboxId == i && s.log[k].attemptNumber == a;
        assert t.log[k] == s.log[k];
      }
    }
  }

  lemma WriteKeepsSpacing(s: Tables, id: nat, e: Effect, now: int)
    requires EntriesOk(s) && AllSpaced(s.log) && id < |s.rows|
    requires Active(s.rows[id]) && RowOk(s.rows[id]) && s.rows[id].nextAttemptAt <= now
    requires AttemptShape(id, s.rows[id], e, now)
    ensures AllSpaced(Write(s, id, e).log)
  {
    var t, n := Write(s, id, e), |s.log|;
    forall j, k | 0 <= j < |t.log| && 0 <= k < |t.log| ensures Spaced(t.log[j], t.log[k]) {
      if j < n && k < n {
        assert Spaced(s.log[j], s.log[k]);
      } else if j < n && k >= n {
        assert t.log[j] == s.log[j] && t.log[k] == e.log[k - n];
      } else if j >= n && k < n {
        assert t.log[j] == e.log[j - n] && t.log[k] == s.log[k];
      } else {
        assert t.log[j] == e.log[j - n] && t.log[k] == e.log[k - n];
      }
    }
  }

  /** One processed row keeps the invariant. */
  lemma WriteKeepsInv(s: Tables, id: nat, e: Effect, now: int)
    requires Inv(s) && id < |s.rows| && Active(s.rows[id]) && s.rows[id].nextAttemptAt <= now
    requires AttemptShape(id, s.rows[id], e, now)
    ensures Inv(Write(s, id, e))
  {
    WriteKeepsEntries(s, id, e, now);
    WriteKeepsLogged(s, id, e, now);
    WriteKeepsSpacing(s, id, e, now);
  }

  ghost predicate StillDue(rows: seq<Row>, page: seq<nat>, now: int) {
    forall k :: 0 <= k < |page| ==> page[k] < |rows| && Active(rows[page[k]]) && rows[page[k]].nextAttemptAt <= now
  }

  lemma {:induction false} PassKeepsInv(s: Tables, page: seq<nat>, worlds: map<nat, World>, now: int)
    requires Inv(s) && Distinct(page) && PageFits(s.rows, page, worlds, now) && StillDue(s.rows, page, now)
    ensures Inv(DispatchPage(s, page, worlds, now).tables)
    decreases |page|
  {
    if page != [] && !GateFor(s.rows[page[0]], worlds[page[0]]).Throws? {
      var id := page[0];
      var e := Attempt(id, s.rows[id], worlds[id]);
      AttemptHasShape(id, s.rows[id], worlds[id], now);
      WriteKeepsInv(s, id, e, now);
      PassKeepsInv(Write(s, id, e), page[1..], worlds, now);
    }
  }

  lemma StepKeepsInv(s: Tables, step: Step)
    requires Inv(s) && Enabled(s, step)
    ensures Inv(Apply(s, step))
  {
    match step
    case Enqueue(tenantId, settings, candidates, now) => EnqueueKeepsInv(s, tenantId, settings, candidates, now);
    case Dispatch(_, _, now, page, worlds) => PassKeepsInv(s, page, worlds, now);
  }

  lemma {:induction false} RunKeepsInv(s: Tables, steps: seq<Step>)
    requires Inv(s) && ValidRun(s, steps)
    ensures Inv(RunFrom(s, steps))
    decreases |steps|
  {
    if steps != [] {
      StepKeepsInv(s, steps[0]);
      RunKeepsInv(Apply(s, steps[0]), steps[1..]);
    }
  }

  // ---------------------------------------------------------------- theorems over runs

  /** Retry bound, attempt numbering and at-most-one successful attempt, in every reachable state. */
  lemma ReachableSafety(s: Tables, steps: seq<Step>)
    requires Initial(s) && ValidRun(s, steps)
    ensures var t := RunFrom(s, steps);
      && (forall i :: 0 <= i < |t.rows| ==> t.rows[i].attemptCount <= t.rows[i].maxAttempts)
      && (forall i :: 0 <= i < |t.rows| && t.rows[i].status.FailedRetryable? ==>
            1 <= t.rows[i].attemptCount < t.rows[i].maxAttempts)
      && (forall k :: 0 <= k < |t.log| ==>
            t.log[k].outboxId < |t.rows| && (Succeeded(t.log[k]) ==> !Active(t.rows[t.log[k].outboxId])))
      && (forall j, k :: 0 <= j < |t.log| && 0 <= k < |t.log| && t.log[j].outboxId == t.log[k].outboxId ==>
            Succeeded(t.log[j]) && Succeeded(t.log[k]) ==> t.log[j].attemptNumber == t.log[k].attemptNumber)
      && (forall i, a: nat :: 0 <= i < |t.rows| ==>
            (Logged(t.log, i, a) <==> 1 <= a <= t.rows[i].attemptCount))
  {
    InitialInv(s);
    RunKeepsInv(s, steps);
  }

  /** Any two attempts of a row are separated by all the backoffs between them. */
  lemma BackoffOverRuns(s: Tables, steps: seq<Step>, j: nat, k: nat)
    requires Initial(s) && ValidRun(s, steps)
    requires j < |RunFrom(s, steps).log| && k < |RunFrom(s, steps).log|
    requires var log := RunFrom(s, steps).log;
      log[j].outboxId == log[k].outboxId && log[j].attemptNumber < log[k].attemptNumber
    ensures var log := RunFrom(s, steps).log;
      log[j].createdAt + 1000 * Wait(log[j].attemptNumber, log[k].attemptNumber) <= log[k].createdAt
  {
    InitialInv(s);
    RunKeepsInv(s, steps);
    assert Spaced(RunFrom(s, steps).log[j], RunFrom(s, steps).log[k]);
  }

  /** The backoffs before attempt n: 60, 360, 1260, 4860 s, then an hour for each further attempt. */
  lemma {:induction false} WaitValues(n: nat)
    requires n >= 5
    ensures Wait(1, 2) == 60 && Wait(1, 3) == 360 && Wait(1, 4) == 1260
    ensures Wait(1, n) == 4860 + 3600 * (n - 5)
  {
    assert Wait(1, 5) == Wait(1, 4) + 3600 && Wait(1, 4) == Wait(1, 3) + 900;
    assert Wait(1, 3) == Wait(1, 2) + 300 && Wait(1, 2) == Wait(1, 1) + 60;
    if n > 5 {
      WaitValues(n - 1);
    }
  }

  // ---------------------------------------------------------------- absorption

  /** What no later step changes: the row itself, and the log entries that name it. */
  ghost predicate Untouched(s: Tables, t: Tables, i: nat)
    requires i < |s.rows|
  {
    && i < |t.rows| && t.rows[i] == s.rows[i]
    && s.log <= t.log && forall k :: |s.log| <= k < |t.log| ==> t.log[k].outboxId != i
  }

  lemma {:induction false} PassSparesOthers(s: Tables, page: seq<nat>, worlds: map<nat, World>, now: int, i: nat)
    requires Distinct(page) && PageFits(s.rows, page, worlds, now) && StillDue(s.rows, page, now)
    requires i < |s.rows| && i !in page
    ensures Untouched(s, DispatchPage(s, page, worlds, now).tables, i)
    ensures |DispatchPage(s, page, worlds, now).tables.rows| == |s.rows|
    decreases |page|
  {
    if page != [] && !GateFor(s.rows[page[0]], worlds[page[0]]).Throws? {
      var id := page[0];
      var e := Attempt(id, s.rows[id], worlds[id]);
      AttemptHasShape(id, s.rows[id], worlds[id], now);
      PassSparesOthers(Write(s, id, e), page[1..], worlds, now, i);
    }
  }

  lemma StepSparesTerminal(s: Tables, step: Step, i: nat)
    requires Enabled(s, step) && i < |s.rows| && !Active(s.rows[i])
    ensures Untouched(s, Apply(s, step), i)
  {
    match step
    case Enqueue(tenantId, settings, candidates, now) =>
      InsertNewProperties(s.rows, RowsFor(tenantId, settings, candidates, now));
    case Dispatch(_, _, now, page, worlds) =>
      PassSparesOthers(s, page, worlds, now, i);
  }

  /** A row that has left PENDING and FAILED_RETRYABLE is never written or logged again. */
  lemma {:induction false} TerminalRowsAreFinal(s: Tables, steps: seq<Step>, i: nat)
    requires ValidRun(s, steps) && i < |s.rows| && !Active(s.rows[i])
    ensures Untouched(s, RunFrom(s, steps), i)
    decreases |steps|
  {
    if steps != [] {
      var next := Apply(s, steps[0]);
      StepSparesTerminal(s, steps[0], i);
      TerminalRowsAreFinal(next, steps[1..], i);
    }
  }

  /** Every pass names a tenant, and another one. */
  ghost predicate OfOtherTenants(steps: seq<Step>, tenantId: string) {
    forall k :: 0 <= k < |steps| && steps[k].Dispatch? ==> steps[k].tenant.GetOr("") != "" && steps[k].tenant != Some(tenantId)
  }

  lemma StepSparesOtherTenants(s: Tables, step: Step, i: nat)
    requires Enabled(s, step) && i < |s.rows| && OfOtherTenants([step], s.rows[i].tenantId)
    ensures Untouched(s, Apply(s, step), i)
  {
    assert [step][0] == step;
    match step
    case Enqueue(tenantId, settings, candidates, now) =>
      InsertNewProperties(s.rows, RowsFor(tenantId, settings, candidates, now));
    case Dispatch(_, _, now, page, worlds) =>
      PassSparesOthers(s, page, worlds, now, i);
  }

  /** A tenant's row is neither written nor logged by the passes of other tenants, whatever they end in. */
  lemma {:induction false} TenantsAreApart(s: Tables, steps: seq<Step>, i: nat)
    requires ValidRun(s, steps) && i < |s.rows| && OfOtherTenants(steps, s.rows[i].tenantId)
    ensures Untouched(s, RunFrom(s, steps), i)
    decreases |steps|
  {
    if steps != [] {
      assert [steps[0]][0] == steps[0];
      StepSparesOtherTenants(s, steps[0], i);
      TenantsAreApart(Apply(s, steps[0]), steps[1..], i);
    }
  }

  // ---------------------------------------------------------------- only finitely many attempts

  function AttemptsLeft(r: Row): nat {
    if Active(r) && r.attemptCount < r.maxAttempts then r.maxAttempts - r.attemptCount else 0
  }

  function Potential(rows: seq<Row>): nat {
    if rows == [] then 0 else Potential(rows[..|rows| - 1]) + AttemptsLeft(rows[|rows| - 1])
  }

  lemma {:induction false} PotentialUpdate(rows: seq<Row>, i: nat, r: Row)
    requires i < |rows|
    ensures Potential(rows[i := r]) + AttemptsLeft(rows[i]) == Potential(rows) + AttemptsLeft(r)
  {
    var n := |rows| - 1;
    if i == n {
      assert rows[i := r][..n] == rows[..n];
    } else {
      assert rows[i := r][..n] == rows[..n][i := r];
      PotentialUpdate(rows[..n], i, r);
    }
  }

  /** Every processed row uses up at least one of the attempts left. */
  lemma {:induction false} PassUsesAttempts(s: Tables, page: seq<nat>, worlds: map<nat, World>, now: int)
    requires Inv(s) && Distinct(page) && PageFits(s.rows, page, worlds, now) && StillDue(s.rows, page, now)
    ensures var pass := DispatchPage(s, page, worlds, now);
      && Potential(pass.tables.rows) + pass.processed <= Potential(s.rows)
      && |pass.tables.rows| == |s.rows|
    decreases |page|
  {
    if page != [] && !GateFor(s.rows[page[0]], worlds[page[0]]).Throws? {
      var id := page[0];
      var e := Attempt(id, s.rows[id], worlds[id]);
      AttemptHasShape(id, s.rows[id], worlds[id], now);
      WriteKeepsInv(s, id, e, now);
      PotentialUpdate(s.rows, id, e.row);
      PassUsesAttempts(Write(s, id, e), page[1..], worlds, now);
    }
  }

  lemma {:induction false} InsertedPotential(rows: seq<Row>, data: seq<Row>)
    requires forall d :: d in data ==> AttemptsLeft(d) <= DEFAULT_MAX_ATTEMPTS
    ensures var r := InsertNew(rows, data);
      |rows| <= |r| && Potential(r) <= Potential(rows) + DEFAULT_MAX_ATTEMPTS * (|r| - |rows|)
  {
    if data != [] {
      InsertedPotential(rows, data[..|data| - 1]);
      var r, d := InsertNew(rows, data[..|data| - 1]), data[|data| - 1];
      assert (r + [d])[..|r|] == r;
    }
  }

  ghost function ProcessedIn(s: Tables, step: Step): nat
    requires Enabled(s, step)
  {
    if step.Dispatch? then DispatchPage(s, step.page, step.worlds, step.now).processed else 0
  }

  ghost function TotalProcessed(s: Tables, steps: seq<Step>): nat
    requires ValidRun(s, steps)
    decreases |steps|
  {
    if steps == [] then 0 else ProcessedIn(s, steps[0]) + TotalProcessed(Apply(s, steps[0]), steps[1..])
  }

  /** However many passes run, the attempts made are bounded by the attempts left at the
      start plus five for each row enqueued meanwhile; with no enqueue the bound is fixed. */
  lemma {:induction false} AttemptsAreBounded(s: Tables, steps: seq<Step>)
    requires Inv(s) && ValidRun(s, steps)
    ensures var t := RunFrom(s, steps);
      && |s.rows| <= |t.rows|
      && TotalProcessed(s, steps) + Potential(t.rows)
           <= Potential(s.rows) + DEFAULT_MAX_ATTEMPTS * (|t.rows| - |s.rows|)
      && ((forall k :: 0 <= k < |steps| ==> steps[k].Dispatch?) ==> |t.rows| == |s.rows|)
    decreases |steps|
  {
    if steps != [] {
      var next := Apply(s, steps[0]);
      StepKeepsInv(s, steps[0]);
      AttemptsAreBounded(next, steps[1..]);
      match steps[0]
      case Enqueue(tenantId, settings, candidates, now) =>
        InsertedPotential(s.rows, RowsFor(tenantId, settings, candidates, now));
      case Dispatch(_, _, now, page, worlds) =>
        PassUsesAttempts(s, page, worlds, now);
    }
  }

  // ---------------------------------------------------------------- one success per recipient

  /** No recipient occurs twice in the list any row of the pass is sent to. */
  ghost predicate SendsToDistinct(s: Tables, step: Step) {
    step.Dispatch? ==> forall k :: 0 <= k < |step.page| && step.page[k] < |s.rows| && step.page[k] in step.worlds ==>
      var gate := GateFor(s.rows[step.page[k]], step.worlds[step.page[k]]);
      gate.Open? ==> DistinctRecipients(gate.recipients)
  }

  ghost predicate RunSendsToDistinct(s: Tables, steps: seq<Step>)
    requires ValidRun(s, steps)
    decreases |steps|
  {
    steps != [] ==> SendsToDistinct(s, steps[0]) && RunSendsToDistinct(Apply(s, steps[0]), steps[1..])
  }

  ghost predicate OnePerRecipient(log: seq<Delivery>) {
    forall j, k :: 0 <= j < k < |log| && Succeeded(log[j]) && Succeeded(log[k]) ==>
      !(log[j].outboxId == log[k].outboxId && log[j].recipient == log[k].recipient)
  }

  lemma WriteKeepsOnePerRecipient(s: Tables, id: nat, w: World, now: int)
    requires Inv(s) && OnePerRecipient(s.log) && id < |s.rows| && Active(s.rows[id])
    requires Fits(s.rows[id], w, now) && !GateFor(s.rows[id], w).Throws?
    requires GateFor(s.rows[id], w).Open? ==> DistinctRecipients(GateFor(s.rows[id], w).recipients)
    ensures OnePerRecipient(Write(s, id, Attempt(id, s.rows[id], w)).log)
  {
    AttemptHasShape(id, s.rows[id], w, now);
  }

  lemma {:induction false} PassKeepsOnePerRecipient(s: Tables, page: seq<nat>, worlds: map<nat, World>, now: int)
    requires Inv(s) && OnePerRecipient(s.log)
    requires Distinct(page) && PageFits(s.rows, page, worlds, now) && StillDue(s.rows, page, now)
    requires forall k :: 0 <= k < |page| ==>
      var gate := GateFor(s.rows[page[k]], worlds[page[k]]);
      gate.Open? ==> DistinctRecipients(gate.recipients)
    ensures OnePerRecipient(DispatchPage(s, page, worlds, now).tables.log)
    decreases |page|
  {
    if page != [] && !GateFor(s.rows[page[0]], worlds[page[0]]).Throws? {
      var id := page[0];
      var e := Attempt(id, s.rows[id], worlds[id]);
      AttemptHasShape(id, s.rows[id], worlds[id], now);
      WriteKeepsInv(s, id, e, now);
      WriteKeepsOnePerRecipient(s, id, worlds[id], now);
      PassKeepsOnePerRecipient(Write(s, id, e), page[1..], worlds, now);
    }
  }

  /** Across all passes, a recipient gets at most one successful message per outbox row. */
  lemma {:induction false} OneSuccessPerRecipient(s: Tables, steps: seq<Step>)
    requires Inv(s) && OnePerRecipient(s.log) && ValidRun(s, steps) && RunSendsToDistinct(s, steps)
    ensures OnePerRecipient(RunFrom(s, steps).log)
    decreases |steps|
  {
    if steps != [] {
      StepKeepsInv(s, steps[0]);
      if steps[0].Dispatch? {
        PassKeepsOnePerRecipient(s, steps[0].page, steps[0].worlds, steps[0].now);
      }
      OneSuccessPerRecipient(Apply(s, steps[0]), steps[1..]);
    }
  }
}
