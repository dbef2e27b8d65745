/** At most one successful message per row and recipient, from the state of directories and settings alone. */
module OutboxRecipients {
  import opened Common
  import opened ContactDirectory
  import opened Outbox
  import opened OutboxRuns
  import opened RecipientResolution

  // ---------------------------------------------------------------- one attempt

  /** The list a row without a recipient of its own is sent to is distinct exactly if the resolution repeats nobody. */
  lemma OpenGateDistinctIff(r: Row, w: World)
    requires r.recipient.GetOr("") == "" && DistinctUserIds(w.directory.users) && GateFor(r, w).Open?
    ensures DistinctRecipients(GateFor(r, w).recipients) <==> !Repeats(w.directory, r.tenantId, r.eventType, r.payload)
  {
    ResolvedDistinctIff(w.directory, r.tenantId, r.eventType, r.payload);
  }

  /** When every message of an attempt goes through, each recipient has one success exactly if the resolution
      repeats nobody. */
  lemma AllSentOnceIff(id: nat, r: Row, w: World)
    requires r.recipient.GetOr("") == "" && DistinctUserIds(w.directory.users)
    requires GateFor(r, w).Open? && |w.answers| == |GateFor(r, w).recipients|
    requires forall k :: 0 <= k < |w.answers| ==> IsSuccess(w.answers[k].result)
    ensures OnePerRecipient(Attempt(id, r, w).log) <==> !Repeats(w.directory, r.tenantId, r.eventType, r.payload)
  {
    OpenGateDistinctIff(r, w);
    SuccessesAreDistinctIff(id, r, w);
  }

  lemma SuccessesAreDistinctIff(id: nat, r: Row, w: World)
    requires GateFor(r, w).Open? && |w.answers| == |GateFor(r, w).recipients|
    requires forall k :: 0 <= k < |w.answers| ==> IsSuccess(w.answers[k].result)
    ensures OnePerRecipient(Attempt(id, r, w).log) <==> DistinctRecipients(GateFor(r, w).recipients)
  {
    var log, rs := Attempt(id, r, w).log, GateFor(r, w).recipients;
    assert forall k :: 0 <= k < |rs| ==>
      Succeeded(log[k]) && log[k].outboxId == id && log[k].recipient == Some(rs[k].recipient);
    if !DistinctRecipients(rs) {
      var j, k :| 0 <= j < k < |rs| && rs[j].recipient == rs[k].recipient;
      assert Succeeded(log[j]) && Succeeded(log[k]);
    }
  }

  // ---------------------------------------------------------------- rows that enqueue makes

  ghost predicate NoOwnRecipients(rows: seq<Row>) {
    forall i :: 0 <= i < |rows| ==> rows[i].recipient.None?
  }

  lemma AttemptKeepsRecipient(id: nat, r: Row, w: World)
    requires GateFor(r, w).Open? ==> |w.answers| == |GateFor(r, w).recipients|
    ensures Attempt(id, r, w).row.recipient == r.recipient
  {}

  lemma {:induction false} PassKeepsNoOwn(s: Tables, page: seq<nat>, worlds: map<nat, World>, now: int)
    requires NoOwnRecipients(s.rows) && Distinct(page) && PageFits(s.rows, page, worlds, now)
    ensures NoOwnRecipients(DispatchPage(s, page, worlds, now).tables.rows)
    decreases |page|
  {
    if page != [] && !GateFor(s.rows[page[0]], worlds[page[0]]).Throws? {
      AttemptKeepsRecipient(page[0], s.rows[page[0]], worlds[page[0]]);
      var next := Write(s, page[0], Attempt(page[0], s.rows[page[0]], worlds[page[0]]));
      assert PageFits(next.rows, page[1..], worlds, now) by {
        assert forall k :: 0 <= k < |page| - 1 ==> page[1..][k] == page[k + 1];
      }
      PassKeepsNoOwn(next, page[1..], worlds, now);
    }
  }

  lemma EnqueueKeepsNoOwn(s: Tables, tenantId: string, settings: Option<NotificationSettings>, cs: seq<Candidate>, now: int)
    requires NoOwnRecipients(s.rows)
    ensures NoOwnRecipients(EnqueueCandidates(s, tenantId, settings, cs, now).rows)
  {
    var data := RowsFor(tenantId, settings, cs, now);
    InsertNewProperties(s.rows, data);
    var r := InsertNew(s.rows, data);
    forall i | 0 <= i < |r| ensures r[i].recipient.None? {
      if i >= |s.rows| {
        var k :| 0 <= k < |data| && data[k] == r[i];
      }
    }
  }

  lemma StepKeepsNoOwn(s: Tables, step: Step)
    requires NoOwnRecipients(s.rows) && Enabled(s, step)
    ensures NoOwnRecipients(Apply(s, step).rows)
  {
    match step
    case Enqueue(tenantId, settings, cs, now) => EnqueueKeepsNoOwn(s, tenantId, settings, cs, now);
    case Dispatch(_, _, now, page, worlds) => PassKeepsNoOwn(s, page, worlds, now);
  }

  // ---------------------------------------------------------------- runs

  /** No tenant's custom list, where the directory leaves an event to it, names a recipient twice. */
  ghost predicate NamesNobodyTwice(db: Snapshot) {
    && DistinctUserIds(db.users)
    && forall tenantId, eventType, payload :: !Repeats(db, tenantId, eventType, payload)
  }

  ghost predicate CleanDirectories(steps: seq<Step>) {
    forall k, id :: 0 <= k < |steps| && steps[k].Dispatch? && id in steps[k].worlds ==>
      NamesNobodyTwice(steps[k].worlds[id].directory)
  }

  lemma {:induction false} CleanRunsSendToDistinct(s: Tables, steps: seq<Step>)
    requires NoOwnRecipients(s.rows) && ValidRun(s, steps) && CleanDirectories(steps)
    ensures RunSendsToDistinct(s, steps)
    decreases |steps|
  {
    if steps != [] {
      var step := steps[0];
      StepKeepsNoOwn(s, step);
      assert CleanDirectories(steps[1..]) by {
        assert forall k :: 0 <= k < |steps| - 1 ==> steps[1..][k] == steps[k + 1];
      }
      CleanRunsSendToDistinct(Apply(s, step), steps[1..]);
      if step.Dispatch? {
        forall k | 0 <= k < |step.page| && step.page[k] < |s.rows| && step.page[k] in step.worlds
            && GateFor(s.rows[step.page[k]], step.worlds[step.page[k]]).Open?
          ensures DistinctRecipients(GateFor(s.rows[step.page[k]], step.worlds[step.page[k]]).recipients)
        {
          var r, w := s.rows[step.page[k]], step.worlds[step.page[k]];
          assert NamesNobodyTwice(w.directory);
          assert !Repeats(w.directory, r.tenantId, r.eventType, r.payload);
          OpenGateDistinctIff(r, w);
        }
      }
    }
  }

  /** In every run from the empty tables in which no custom list names a recipient twice, each recipient gets
      at most one successful message per row. */
  lemma OneSuccessFromEmpty(steps: seq<Step>)
    requires ValidRun(Tables([], []), steps) && CleanDirectories(steps)
    ensures OnePerRecipient(RunFrom(Tables([], []), steps).log)
  {
    CleanRunsSendToDistinct(Tables([], []), steps);
    OneSuccessPerRecipient(Tables([], []), steps);
  }
}
