/** How fast dispatch passes empty the queue, and what can stop them. */
module OutboxDrain {
  import opened Common
  import opened Outbox
  import opened OutboxRuns
  import opened RecipientResolution

  /** An attempt on the row throws: nothing in the settings refuses it, it has no recipient of its own, the
      directory is silent, and the custom list it falls back to holds an unusable entry. */
  ghost predicate Stuck(r: Row, w: World) {
    && w.settings.Some? && w.settings.value.notificationsEnabled && w.settings.value.whatsappEnabled
    && w.provider.Some? && r.recipient.GetOr("") == ""
    && Unresolvable(w.directory, r.tenantId, r.eventType, r.payload)
  }

  lemma ThrowsIffStuck(r: Row, w: World)
    ensures GateFor(r, w).Throws? <==> Stuck(r, w)
  {
    ResolutionFailsIff(w.directory, r.tenantId, r.eventType, r.payload);
  }

  ghost predicate NoneStuck(rows: seq<Row>, page: seq<nat>, worlds: map<nat, World>) {
    forall k :: 0 <= k < |page| && page[k] < |rows| && page[k] in worlds ==> !Stuck(rows[page[k]], worlds[page[k]])
  }

  lemma NoneThrowsIff(rows: seq<Row>, page: seq<nat>, worlds: map<nat, World>)
    ensures NoneThrows(rows, page, worlds) <==> NoneStuck(rows, page, worlds)
  {
    forall k | 0 <= k < |page| && page[k] < |rows| && page[k] in worlds
      ensures GateFor(rows[page[k]], worlds[page[k]]).Throws? <==> Stuck(rows[page[k]], worlds[page[k]])
    {
      ThrowsIffStuck(rows[page[k]], worlds[page[k]]);
    }
  }

  /** Resolving the recipients of no row of the page throws. */
  ghost predicate NoneThrows(rows: seq<Row>, page: seq<nat>, worlds: map<nat, World>) {
    forall k :: 0 <= k < |page| && page[k] < |rows| && page[k] in worlds ==>
      !GateFor(rows[page[k]], worlds[page[k]]).Throws?
  }

  /** A pass handles its whole page exactly when no row of the page is stuck. */
  lemma PassCompletes(s: Tables, page: seq<nat>, worlds: map<nat, World>, now: int)
    requires Distinct(page) && PageFits(s.rows, page, worlds, now)
    ensures var pass := DispatchPage(s, page, worlds, now);
      && pass.processed <= |page|
      && (pass.processed == |page| <==> NoneStuck(s.rows, page, worlds))
      && (pass.threw <==> !NoneStuck(s.rows, page, worlds))
  {
    NoneThrowsIff(s.rows, page, worlds);
    PassEndsAtThrow(s, page, worlds, now);
  }

  lemma {:induction false} PassEndsAtThrow(s: Tables, page: seq<nat>, worlds: map<nat, World>, now: int)
    requires Distinct(page) && PageFits(s.rows, page, worlds, now)
    ensures var pass := DispatchPage(s, page, worlds, now);
      && pass.processed <= |page|
      && (pass.processed == |page| <==> NoneThrows(s.rows, page, worlds))
      && (pass.threw <==> !NoneThrows(s.rows, page, worlds))
    decreases |page|
  {
    if page != [] && !GateFor(s.rows[page[0]], worlds[page[0]]).Throws? {
      var next := Write(s, page[0], Attempt(page[0], s.rows[page[0]], worlds[page[0]]));
      PassEndsAtThrow(next, page[1..], worlds, now);
      RestThrowsAsBefore(s.rows, next.rows, page, worlds);
    }
  }

  predicate SameBut(rows: seq<Row>, next: seq<Row>, id: nat) {
    |next| == |rows| && forall i :: 0 <= i < |rows| && i != id ==> next[i] == rows[i]
  }

  /** After the first row of a page, the others throw exactly if they did before. */
  lemma RestThrowsAsBefore(rows: seq<Row>, next: seq<Row>, page: seq<nat>, worlds: map<nat, World>)
    requires page != [] && Distinct(page) && page[0] < |rows| && SameBut(rows, next, page[0])
    requires page[0] in worlds && !GateFor(rows[page[0]], worlds[page[0]]).Throws?
    ensures NoneThrows(rows, page, worlds) <==> NoneThrows(next, page[1..], worlds)
  {
    assert forall k :: 0 < k < |page| ==> page[k] == page[1..][k - 1];
    assert forall k :: 0 <= k < |page| - 1 ==> page[1..][k] == page[k + 1];
  }

  lemma BackoffIsAtLeastAMinute(n: nat)
    ensures BackoffSeconds(n) >= 60
  {}

  /** Seen from any moment within a minute of the pass, exactly the page leaves the queue. */
  lemma {:induction false} PassRemovesPage(
    s: Tables, page: seq<nat>, worlds: map<nat, World>, now: int, tenant: Option<string>, at: int)
    requires Distinct(page) && PageFits(s.rows, page, worlds, now) && StillDue(s.rows, page, now)
    requires NoneThrows(s.rows, page, worlds) && at < now + 60000
    ensures DueIds(DispatchPage(s, page, worlds, now).tables.rows, tenant, at)
      == DueIds(s.rows, tenant, at) - Elements(page)
    decreases |page|
  {
    if page != [] {
      var next := FirstOfPage(s, page, worlds, now, tenant, at);
      PassRemovesPage(next, page[1..], worlds, now, tenant, at);
      assert Elements(page) == {page[0]} + Elements(page[1..]);
    }
  }

  /** The first row of the page leaves the queue, and the rest is a page as before. */
  lemma FirstOfPage(s: Tables, page: seq<nat>, worlds: map<nat, World>, now: int, tenant: Option<string>, at: int)
    returns (next: Tables)
    requires page != [] && Distinct(page) && PageFits(s.rows, page, worlds, now) && StillDue(s.rows, page, now)
    requires NoneThrows(s.rows, page, worlds) && at < now + 60000
    ensures Distinct(page[1..]) && PageFits(next.rows, page[1..], worlds, now)
    ensures StillDue(next.rows, page[1..], now) && NoneThrows(next.rows, page[1..], worlds)
    ensures DispatchPage(s, page, worlds, now).tables == DispatchPage(next, page[1..], worlds, now).tables
    ensures DueIds(next.rows, tenant, at) == DueIds(s.rows, tenant, at) - {page[0]}
  {
    next := Write(s, page[0], Attempt(page[0], s.rows[page[0]], worlds[page[0]]));
    AttemptLeavesQueue(s, page[0], worlds[page[0]], now, tenant, at);
    RestThrowsAsBefore(s.rows, next.rows, page, worlds);
    RestIsStillDue(s.rows, next.rows, page, now);
  }

  lemma RestIsStillDue(rows: seq<Row>, next: seq<Row>, page: seq<nat>, now: int)
    requires page != [] && Distinct(page) && page[0] < |rows| && SameBut(rows, next, page[0])
    requires StillDue(rows, page, now)
    ensures StillDue(next, page[1..], now)
  {
    assert forall k :: 0 <= k < |page| - 1 ==> page[1..][k] == page[k + 1];
  }

  /** A row that was attempted is not due again within a minute; nothing else changes. */
  lemma AttemptLeavesQueue(s: Tables, id: nat, w: World, now: int, tenant: Option<string>, at: int)
    requires id < |s.rows| && Fits(s.rows[id], w, now) && !GateFor(s.rows[id], w).Throws?
    requires Active(s.rows[id]) && s.rows[id].nextAttemptAt <= now && at < now + 60000
    ensures DueIds(Write(s, id, Attempt(id, s.rows[id], w)).rows, tenant, at) == DueIds(s.rows, tenant, at) - {id}
  {
    var e := Attempt(id, s.rows[id], w);
    AttemptHasShape(id, s.rows[id], w, now);
    BackoffIsAtLeastAMinute(e.row.attemptCount);
    assert !Due(e.row, tenant, at);
  }

  lemma DueGrowsWithTime(rows: seq<Row>, tenant: Option<string>, a: int, b: int)
    requires a <= b
    ensures DueIds(rows, tenant, a) <= DueIds(rows, tenant, b)
  {}

  /** A pass of the series: same tenant and limit, started between `from` and `to`, no error. */
  ghost predicate PassOfSeries(s: Tables, step: Step, tenant: Option<string>, limit: nat, from: int, to: int) {
    && step.Dispatch? && step.tenant == tenant && step.limit == limit && from <= step.now <= to
    && NoneStuck(s.rows, step.page, step.worlds)
  }

  ghost predicate Series(s: Tables, steps: seq<Step>, tenant: Option<string>, limit: nat, from: int, to: int)
    requires ValidRun(s, steps)
    decreases |steps|
  {
    steps != [] ==>
      PassOfSeries(s, steps[0], tenant, limit, from, to)
      && Series(Apply(s, steps[0]), steps[1..], tenant, limit, from, to)
  }

  function Remaining(due: nat, passes: nat, limit: nat): nat {
    if due <= passes * limit then 0 else due - passes * limit
  }

  lemma RemainingStep(due: nat, passes: nat, limit: nat)
    requires passes >= 1
    ensures Remaining(due - Min(limit, due), passes - 1, limit) == Remaining(due, passes, limit)
  {
    assert passes * limit == (passes - 1) * limit + limit;
  }

  /** Passes within one minute, in which no other row falls due, take `limit` rows each. */
  lemma {:induction false} SeriesTakesLimitEach(
    s: Tables, steps: seq<Step>, tenant: Option<string>, limit: nat, from: int, to: int)
    requires ValidRun(s, steps) && Series(s, steps, tenant, limit, from, to)
    requires from <= to < from + 60000 && DueIds(s.rows, tenant, from) == DueIds(s.rows, tenant, to)
    ensures |DueIds(RunFrom(s, steps).rows, tenant, to)| == Remaining(|DueIds(s.rows, tenant, to)|, |steps|, limit)
    decreases |steps|
  {
    if steps != [] {
      PassTakesLimit(s, steps[0], tenant, limit, from, to);
      SeriesTakesLimitEach(Apply(s, steps[0]), steps[1..], tenant, limit, from, to);
      RemainingStep(|DueIds(s.rows, tenant, to)|, |steps|, limit);
    }
  }

  /** One pass of the series takes the limit, or all that is due, whenever in the minute one looks. */
  lemma PassTakesLimit(s: Tables, step: Step, tenant: Option<string>, limit: nat, from: int, to: int)
    requires Enabled(s, step) && PassOfSeries(s, step, tenant, limit, from, to)
    requires from <= to < from + 60000 && DueIds(s.rows, tenant, from) == DueIds(s.rows, tenant, to)
    ensures var rows, n := Apply(s, step).rows, |DueIds(s.rows, tenant, to)|;
      && DueIds(rows, tenant, from) == DueIds(rows, tenant, to)
      && |DueIds(rows, tenant, to)| == n - Min(limit, n)
  {
    PassOfSeriesRemoves(s, step, tenant, limit, from, to, from);
    PassOfSeriesRemoves(s, step, tenant, limit, from, to, to);
    DueAtPass(s.rows, tenant, from, step.now, to);
    PageSize(DueIds(s.rows, tenant, to), step.page);
  }

  lemma PassOfSeriesRemoves(s: Tables, step: Step, tenant: Option<string>, limit: nat, from: int, to: int, at: int)
    requires Enabled(s, step) && PassOfSeries(s, step, tenant, limit, from, to)
    requires from <= at <= to < from + 60000
    ensures DueIds(Apply(s, step).rows, tenant, at) == DueIds(s.rows, tenant, at) - Elements(step.page)
  {
    NoneThrowsIff(s.rows, step.page, step.worlds);
    PassRemovesPage(s, step.page, step.worlds, step.now, tenant, at);
  }

  lemma DueAtPass(rows: seq<Row>, tenant: Option<string>, from: int, now: int, to: int)
    requires from <= now <= to && DueIds(rows, tenant, from) == DueIds(rows, tenant, to)
    ensures DueIds(rows, tenant, now) == DueIds(rows, tenant, to)
  {
    DueGrowsWithTime(rows, tenant, from, now);
    DueGrowsWithTime(rows, tenant, now, to);
  }

  lemma PageSize(due: set<nat>, page: seq<nat>)
    requires Distinct(page) && forall k :: 0 <= k < |page| ==> page[k] in due
    ensures |due - Elements(page)| == |due| - |page|
  {
    DistinctCardinality(page);
    assert Elements(page) <= due;
    assert due == (due - Elements(page)) + Elements(page);
  }

  /** The rows due are drained after exactly ceil(n / limit) passes: not before, and by then surely. */
  lemma DrainsInCeiling(s: Tables, steps: seq<Step>, tenant: Option<string>, limit: nat, from: int, to: int)
    requires limit >= 1 && ValidRun(s, steps) && Series(s, steps, tenant, limit, from, to)
    requires from <= to < from + 60000 && DueIds(s.rows, tenant, from) == DueIds(s.rows, tenant, to)
    ensures var n := |DueIds(s.rows, tenant, to)|;
      DueIds(RunFrom(s, steps).rows, tenant, to) == {} <==> |steps| >= (n + limit - 1) / limit
  {
    SeriesTakesLimitEach(s, steps, tenant, limit, from, to);
    var n := |DueIds(s.rows, tenant, to)|;
    CeilingMeans(n, limit, |steps|);
  }

  lemma CeilingMeans(n: nat, limit: nat, passes: nat)
    requires limit >= 1
    ensures passes >= (n + limit - 1) / limit <==> n <= passes * limit
  {
    var c := (n + limit - 1) / limit;
    assert c * limit <= n + limit - 1 < c * limit + limit;
    if passes >= c {
      assert passes * limit >= c * limit;
    } else {
      assert passes * limit <= (c - 1) * limit == c * limit - limit;
    }
  }

  /** The head of the queue: due, and strictly before every other due row. */
  ghost predicate Head(rows: seq<Row>, i: nat, tenant: Option<string>, now: int) {
    && i in DueIds(rows, tenant, now)
    && forall j :: j in DueIds(rows, tenant, now) && j != i ==> !DueBefore(rows[j], rows[i])
  }

  ghost predicate HeadStuck(s: Tables, step: Step, i: nat) {
    && step.Dispatch? && step.limit >= 1 && Head(s.rows, i, step.tenant, step.now)
    && i in step.worlds && Stuck(s.rows[i], step.worlds[i])
  }

  /** A stuck row (a malformed custom number, say) that heads the
      queue stops every pass before it changes anything: the rows behind it are never sent. */
  lemma {:induction false} ThrowingHeadBlocksQueue(s: Tables, steps: seq<Step>, i: nat)
    requires ValidRun(s, steps)
    requires forall k :: 0 <= k < |steps| ==> HeadStuck(s, steps[k], i)
    ensures RunFrom(s, steps) == s
    decreases |steps|
  {
    if steps != [] {
      var step := steps[0];
      HeadComesFirst(s.rows, i, step.tenant, step.now, step.limit, step.page);
      assert HeadStuck(s, step, i);
      ThrowsIffStuck(s.rows[i], step.worlds[i]);
      ThrowingHeadBlocksQueue(s, steps[1..], i);
    }
  }

  lemma HeadComesFirst(rows: seq<Row>, i: nat, tenant: Option<string>, now: int, limit: nat, page: seq<nat>)
    requires Head(rows, i, tenant, now) && limit >= 1 && IsDuePage(rows, tenant, now, limit, page)
    ensures page != [] && page[0] == i
  {
    assert DueIds(rows, tenant, now) != {};
    if i in page {
      var k :| 0 <= k < |page| && page[k] == i;
    }
  }
}
