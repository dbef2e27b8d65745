/** How the outcome of a send loop depends on the order of the recipients. */
module OutboxOutcome {
  import opened Common
  import opened Outbox

  ghost predicate SameResults(a: seq<SendResult>, b: seq<SendResult>) {
    multiset(a) == multiset(b)
  }

  lemma SameFlags(a: seq<SendResult>, b: seq<SendResult>)
    requires SameResults(a, b)
    ensures AnySuccess(a) == AnySuccess(b) && AnyRetryable(a) == AnyRetryable(b)
  {
    Flags(a);
    Flags(b);
  }

  lemma Flags(a: seq<SendResult>)
    ensures AnySuccess(a) == exists x :: x in multiset(a) && IsSuccess(x)
    ensures AnyRetryable(a) == exists x :: x in multiset(a) && x.status.RetryLater?
  {
    if AnySuccess(a) {
      var k :| 0 <= k < |a| && IsSuccess(a[k]);
      assert a[k] in multiset(a);
    }
    if AnyRetryable(a) {
      var k :| 0 <= k < |a| && a[k].status.RetryLater?;
      assert a[k] in multiset(a);
    }
  }

  /** All results were reported under the stub's name, or none was. */
  ghost predicate NamesAgree(rs: seq<SendResult>) {
    forall i, j :: 0 <= i < |rs| && 0 <= j < |rs| ==>
      (rs[i].providerName == "dev_stub") == (rs[j].providerName == "dev_stub")
  }

  ghost predicate OrderFree(r: Row, rs: seq<SendResult>, clock: int)
    requires rs != []
  {
    forall p: seq<SendResult> :: p != [] && SameResults(p, rs) ==>
      Settle(r, p, clock).status == Settle(r, rs, clock).status
  }

  lemma MoveToEnd(rs: seq<SendResult>, i: nat) returns (p: seq<SendResult>)
    requires i < |rs|
    ensures SameResults(p, rs) && p != [] && p[|p| - 1] == rs[i]
  {
    p := rs[..i] + rs[i + 1..] + [rs[i]];
    assert rs == rs[..i] + [rs[i]] + rs[i + 1..];
  }

  /** The resulting status is the same for every order of the sends exactly when nothing
      succeeded or the results do not mix the stub's name with another one. */
  lemma StatusIsOrderFree(r: Row, rs: seq<SendResult>, clock: int)
    requires rs != []
    ensures OrderFree(r, rs, clock) <==> !AnySuccess(rs) || NamesAgree(rs)
  {
    if !AnySuccess(rs) || NamesAgree(rs) {
      forall p: seq<SendResult> | p != [] && SameResults(p, rs)
        ensures Settle(r, p, clock).status == Settle(r, rs, clock).status
      {
        SameFlags(p, rs);
        assert p[|p| - 1] in multiset(rs) && rs[|rs| - 1] in multiset(rs);
      }
    } else {
      var i, j :| 0 <= i < |rs| && 0 <= j < |rs|
        && rs[i].providerName == "dev_stub" && rs[j].providerName != "dev_stub";
      var p := MoveToEnd(rs, i);
      var q := MoveToEnd(rs, j);
      SameFlags(p, rs);
      SameFlags(q, rs);
      assert Settle(r, p, clock).status == Stubbed && Settle(r, q, clock).status == Sent;
    }
  }

  /** Both providers report every result under their own name: then the whole row, up to
      which permanent error is remembered, does not depend on the order. */
  lemma RowIsOrderFree(r: Row, a: seq<SendResult>, b: seq<SendResult>, name: string, clock: int)
    requires a != [] && b != [] && SameResults(a, b)
    requires forall k :: 0 <= k < |a| ==> a[k].providerName == name
    ensures Settle(r, a, clock).(lastErrorCode := None, lastErrorMessage := None)
      == Settle(r, b, clock).(lastErrorCode := None, lastErrorMessage := None)
    ensures AnySuccess(a) || AnyRetryable(a) ==> Settle(r, a, clock) == Settle(r, b, clock)
  {
    SameFlags(a, b);
    assert b[|b| - 1] in multiset(a);
  }
}
