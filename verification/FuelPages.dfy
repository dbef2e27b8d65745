/** Cursor pagination of the fuel log (fuel.service.ts). */
module FuelPages {
  import opened Common
  import opened Sorting

  datatype Scope = FullTenant | Sites(allowed: set<string>)

  datatype Source = Card | Tank | Station | Manual | ApprovedSource

  /** Ids are UUIDs, compared as numbers. */
  datatype Entry = Entry(
    id: nat, tenantId: string, siteId: Option<string>, vehicleId: string, vehicleSiteId: Option<string>,
    driverId: Option<string>, sourceType: Source, receiptUrl: Option<string>, odometerFallbackUsed: bool,
    entryDate: int, createdAt: int)

  datatype Query = Query(
    relatedRecordId: Option<nat>, vehicleId: Option<string>, driverId: Option<string>, siteId: Option<string>,
    sourceType: Option<Source>, missingReceiptOnly: bool, fallbackUsed: Option<bool>, from: Option<int>, to: Option<int>)

  predicate InScope(e: Entry, scope: Scope) {
    scope.FullTenant?
    || (e.siteId.Some? && e.siteId.value in scope.allowed)
    || (e.siteId.None? && e.vehicleSiteId.Some? && e.vehicleSiteId.value in scope.allowed)
  }

  predicate Wanted(e: Entry, tenantId: string, scope: Scope, q: Query) {
    && e.tenantId == tenantId && InScope(e, scope)
    && (q.relatedRecordId.Some? ==> e.id == q.relatedRecordId.value)
    && (q.vehicleId.Some? ==> e.vehicleId == q.vehicleId.value)
    && (q.driverId.Some? ==> e.driverId == q.driverId)
    && (q.siteId.Some? ==> e.siteId == q.siteId)
    && (q.sourceType.Some? ==> e.sourceType == q.sourceType.value)
    && (q.missingReceiptOnly ==> e.receiptUrl.None?)
    && (q.fallbackUsed.Some? ==> e.odometerFallbackUsed == q.fallbackUsed.value)
    && (q.from.Some? ==> q.from.value <= e.entryDate)
    && (q.to.Some? ==> e.entryDate <= q.to.value)
  }

  /** ORDER BY created_at DESC, id DESC. */
  predicate Newer(a: Entry, b: Entry) {
    a.createdAt > b.createdAt || (a.createdAt == b.createdAt && a.id > b.id)
  }

  function NewestFirst(entries: seq<Entry>): seq<Entry> {
    Sort((a, b) => Newer(a, b), entries)
  }

  function Selection(table: seq<Entry>, tenantId: string, scope: Scope, q: Query): seq<Entry> {
    NewestFirst(Filter(e => Wanted(e, tenantId, scope, q), table))
  }

  // ---------------------------------------------------------------- one page

  function PositionOf(rows: seq<Entry>, id: nat): nat {
    if rows == [] then 0
    else if rows[0].id == id then 0
    else 1 + PositionOf(rows[1..], id)
  }

  /** The row after the cursor; nothing follows an unknown cursor. */
  function StartOf(rows: seq<Entry>, cursor: Option<nat>): (start: nat)
    ensures start <= |rows|
  {
    if cursor.None? then 0
    else
      PositionAtMost(rows, cursor.value);
      var p := PositionOf(rows, cursor.value);
      if p < |rows| then p + 1 else |rows|
  }

  lemma PositionAtMost(rows: seq<Entry>, id: nat)
    ensures PositionOf(rows, id) <= |rows|
  {}

  datatype Page = Page(items: seq<Entry>, nextCursor: Option<nat>)

  function PageAt(rows: seq<Entry>, limit: nat, cursor: Option<nat>): Page
    requires limit >= 1
  {
    var start := StartOf(rows, cursor);
    var taken := if |rows| - start <= limit + 1 then rows[start..] else rows[start..start + limit + 1];
    var hasMore := |taken| > limit;
    var items := if hasMore then taken[..limit] else taken;
    Page(items, if hasMore then Some(items[|items| - 1].id) else None)
  }

  function ListFuelEntries(
    table: seq<Entry>, tenantId: string, scope: Scope, q: Query, limit: nat, cursor: Option<nat>): Page
    requires limit >= 1
  {
    PageAt(Selection(table, tenantId, scope, q), limit, cursor)
  }

  // ---------------------------------------------------------------- the order

  ghost predicate DistinctIds(entries: seq<Entry>) {
    forall i, j :: 0 <= i < j < |entries| ==> entries[i].id != entries[j].id
  }

  ghost predicate Descending(entries: seq<Entry>) {
    forall i, j :: 0 <= i < j < |entries| ==> Newer(entries[i], entries[j])
  }

  /** The selection is exactly the wanted rows, newest first. */
  lemma NewestFirstSorts(entries: seq<Entry>)
    requires DistinctIds(entries)
    ensures Descending(NewestFirst(entries)) && multiset(NewestFirst(entries)) == multiset(entries)
  {
    SortIsOrderedPermutation((a, b) => Newer(a, b), entries);
  }

  lemma {:induction false} PositionOfRow(rows: seq<Entry>, k: nat)
    requires DistinctIds(rows) && k < |rows|
    ensures PositionOf(rows, rows[k].id) == k
  {
    if k > 0 {
      PositionOfRow(rows[1..], k - 1);
    }
  }

  // ---------------------------------------------------------------- following the cursor

  /** The pages a client gets by passing each nextCursor back until there is none. */
  ghost function Pages(rows: seq<Entry>, limit: nat, cursor: Option<nat>): seq<seq<Entry>>
    requires limit >= 1 && DistinctIds(rows)
    decreases |rows| - StartOf(rows, cursor)
  {
    var page := PageAt(rows, limit, cursor);
    if page.nextCursor.None? then [page.items]
    else
      NextStart(rows, limit, cursor);
      [page.items] + Pages(rows, limit, page.nextCursor)
  }

  lemma NextStart(rows: seq<Entry>, limit: nat, cursor: Option<nat>)
    requires limit >= 1 && DistinctIds(rows)
    ensures var page, start := PageAt(rows, limit, cursor), StartOf(rows, cursor);
      && (page.nextCursor.Some? <==> |rows| - start > limit)
      && (page.nextCursor.Some? ==>
            StartOf(rows, page.nextCursor) == start + limit && page.items == rows[start..start + limit])
      && (page.nextCursor.None? ==> page.items == rows[start..])
  {
    var page, start := PageAt(rows, limit, cursor), StartOf(rows, cursor);
    if page.nextCursor.Some? {
      PositionOfRow(rows, start + limit - 1);
      assert page.items == rows[start..start + limit];
      assert page.nextCursor == Some(rows[start + limit - 1].id);
    }
  }

  ghost function Concatenated(pages: seq<seq<Entry>>): seq<Entry> {
    if pages == [] then [] else pages[0] + Concatenated(pages[1..])
  }

  lemma ConcatenatedStep(page: seq<Entry>, rest: seq<seq<Entry>>)
    ensures Concatenated([page] + rest) == page + Concatenated(rest)
  {
    assert ([page] + rest)[1..] == rest;
  }

  /** `count` is n / limit rounded up, but at least one. */
  predicate PagesFor(count: nat, n: nat, limit: nat) {
    if n == 0 then count == 1 else count >= 1 && (count - 1) * limit < n <= count * limit
  }

  lemma OnePageMore(count: nat, n: nat, limit: nat)
    requires n > limit && PagesFor(count, n - limit, limit)
    ensures PagesFor(count + 1, n, limit)
  {
    assert count * limit == (count - 1) * limit + limit && (count + 1) * limit == count * limit + limit;
  }

  lemma {:induction false} PagesCoverRest(rows: seq<Entry>, limit: nat, cursor: Option<nat>)
    requires limit >= 1 && DistinctIds(rows)
    ensures Concatenated(Pages(rows, limit, cursor)) == rows[StartOf(rows, cursor)..]
    ensures PagesFor(|Pages(rows, limit, cursor)|, |rows| - StartOf(rows, cursor), limit)
    decreases |rows| - StartOf(rows, cursor)
  {
    var start, next := StartOf(rows, cursor), PageAt(rows, limit, cursor).nextCursor;
    PagesStep(rows, limit, cursor);
    if next.Some? {
      PagesCoverRest(rows, limit, next);
      PageBefore(rows, start, limit, Pages(rows, limit, next));
    } else {
      LastPage(rows, start, limit);
    }
  }

  lemma PagesStep(rows: seq<Entry>, limit: nat, cursor: Option<nat>)
    requires limit >= 1 && DistinctIds(rows)
    ensures var start, next := StartOf(rows, cursor), PageAt(rows, limit, cursor).nextCursor;
      if next.Some? then
        && start + limit < |rows| && StartOf(rows, next) == start + limit
        && Pages(rows, limit, cursor) == [rows[start..start + limit]] + Pages(rows, limit, next)
      else
        |rows| - start <= limit && Pages(rows, limit, cursor) == [rows[start..]]
  {
    NextStart(rows, limit, cursor);
  }

  lemma LastPage(rows: seq<Entry>, start: nat, limit: nat)
    requires start <= |rows| && |rows| - start <= limit
    ensures Concatenated([rows[start..]]) == rows[start..] && PagesFor(1, |rows| - start, limit)
  {
    ConcatenatedStep(rows[start..], []);
    assert [rows[start..]] + [] == [rows[start..]];
  }

  /** A full page in front of pages that cover the rest. */
  lemma PageBefore(rows: seq<Entry>, start: nat, limit: nat, rest: seq<seq<Entry>>)
    requires start + limit < |rows| && Concatenated(rest) == rows[start + limit..]
    requires PagesFor(|rest|, |rows| - (start + limit), limit)
    ensures Concatenated([rows[start..start + limit]] + rest) == rows[start..]
    ensures PagesFor(1 + |rest|, |rows| - start, limit)
  {
    ConcatenatedStep(rows[start..start + limit], rest);
    SplitRest(rows, start, limit);
    OnePageMore(|rest|, |rows| - start, limit);
  }

  lemma SplitRest(rows: seq<Entry>, start: nat, limit: nat)
    requires start + limit <= |rows|
    ensures rows[start..] == rows[start..start + limit] + rows[start + limit..]
  {}

  /** The answers a client gets from an unchanged table by passing each nextCursor back until there is none. */
  ghost function FollowCursor(
    table: seq<Entry>, tenantId: string, scope: Scope, q: Query, limit: nat, cursor: Option<nat>): seq<seq<Entry>>
    requires limit >= 1 && DistinctIds(Selection(table, tenantId, scope, q))
    decreases |Selection(table, tenantId, scope, q)| - StartOf(Selection(table, tenantId, scope, q), cursor)
  {
    var page := ListFuelEntries(table, tenantId, scope, q, limit, cursor);
    if page.nextCursor.None? then [page.items]
    else
      NextStart(Selection(table, tenantId, scope, q), limit, cursor);
      [page.items] + FollowCursor(table, tenantId, scope, q, limit, page.nextCursor)
  }

  lemma {:induction false} FollowingIsPaging(
    table: seq<Entry>, tenantId: string, scope: Scope, q: Query, limit: nat, cursor: Option<nat>)
    requires limit >= 1 && DistinctIds(Selection(table, tenantId, scope, q))
    ensures FollowCursor(table, tenantId, scope, q, limit, cursor) == Pages(Selection(table, tenantId, scope, q), limit, cursor)
    decreases |Selection(table, tenantId, scope, q)| - StartOf(Selection(table, tenantId, scope, q), cursor)
  {
    var rows := Selection(table, tenantId, scope, q);
    var page := PageAt(rows, limit, cursor);
    if page.nextCursor.Some? {
      NextStart(rows, limit, cursor);
      FollowingIsPaging(table, tenantId, scope, q, limit, page.nextCursor);
    }
  }

  lemma SelectionIsDistinct(table: seq<Entry>, tenantId: string, scope: Scope, q: Query)
    requires DistinctIds(table)
    ensures var rows := Selection(table, tenantId, scope, q);
      && DistinctIds(rows) && Descending(rows)
      && multiset(rows) == multiset(Filter(e => Wanted(e, tenantId, scope, q), table))
  {
    var wanted := Filter(e => Wanted(e, tenantId, scope, q), table);
    FilterPairwise(e => Wanted(e, tenantId, scope, q), table, (a: Entry, b: Entry) => a.id != b.id);
    NewestFirstSorts(wanted);
    var rows := Selection(table, tenantId, scope, q);
    forall i, j | 0 <= i < j < |rows| ensures rows[i].id != rows[j].id {
      MultisetKeepsDistinct(rows, wanted, i, j);
    }
  }

  /** Following the cursor over an unchanged table gives every wanted row once, newest first,
      in max(1, ceil(n / limit)) pages. */
  lemma PagesAreTheSelection(table: seq<Entry>, tenantId: string, scope: Scope, q: Query, limit: nat)
    requires limit >= 1 && DistinctIds(table)
    ensures var rows := Selection(table, tenantId, scope, q);
      && DistinctIds(rows) && Descending(rows)
      && multiset(rows) == multiset(Filter(e => Wanted(e, tenantId, scope, q), table))
      && (var pages := FollowCursor(table, tenantId, scope, q, limit, None);
          Concatenated(pages) == rows && PagesFor(|pages|, |rows|, limit))
  {
    SelectionIsDistinct(table, tenantId, scope, q);
    FollowingIsPaging(table, tenantId, scope, q, limit, None);
    PagesCoverRest(Selection(table, tenantId, scope, q), limit, None);
  }

  lemma MultisetKeepsDistinct(rows: seq<Entry>, wanted: seq<Entry>, i: nat, j: nat)
    requires multiset(rows) == multiset(wanted) && DistinctIds(wanted) && Descending(rows) && i < j < |rows|
    ensures rows[i].id != rows[j].id
  {
    assert rows[i] in multiset(wanted) && rows[j] in multiset(wanted);
    var k :| 0 <= k < |wanted| && wanted[k] == rows[i];
    var l :| 0 <= l < |wanted| && wanted[l] == rows[j];
    assert Newer(rows[i], rows[j]);
  }

  /** The entry is the reader's to see, and meets every filter that is given. */
  predicate Asked(e: Entry, tenantId: string, scope: Scope, q: Query) {
    && e.tenantId == tenantId
    && (scope.Sites? ==> exists site :: site in scope.allowed && (e.siteId == Some(site) || (e.siteId.None? && e.vehicleSiteId == Some(site))))
    && (q.relatedRecordId.None? || q.relatedRecordId.value == e.id) && (q.vehicleId.None? || q.vehicleId.value == e.vehicleId)
    && (q.driverId.None? || q.driverId == e.driverId) && (q.siteId.None? || q.siteId == e.siteId)
    && (q.sourceType.None? || q.sourceType.value == e.sourceType) && (!q.missingReceiptOnly || e.receiptUrl.None?)
    && (q.fallbackUsed.None? || q.fallbackUsed.value == e.odometerFallbackUsed)
    && (q.from.None? || e.entryDate >= q.from.value) && (q.to.None? || e.entryDate <= q.to.value)
  }

  /** The pages hold exactly the entries asked for, the newest first and of one time the one with the larger id. */
  lemma PagesHoldAsked(table: seq<Entry>, tenantId: string, scope: Scope, q: Query, limit: nat)
    requires limit >= 1 && DistinctIds(table)
    ensures DistinctIds(Selection(table, tenantId, scope, q))
    ensures var all := Concatenated(FollowCursor(table, tenantId, scope, q, limit, None));
      && (forall e :: e in all <==> e in table && Asked(e, tenantId, scope, q))
      && (forall i, j :: 0 <= i < j < |all| ==>
            all[i].createdAt > all[j].createdAt || (all[i].createdAt == all[j].createdAt && all[i].id > all[j].id))
  {
    PagesAreTheSelection(table, tenantId, scope, q, limit);
    var all, wanted := Selection(table, tenantId, scope, q), Filter(e => Wanted(e, tenantId, scope, q), table);
    forall e ensures e in all <==> e in table && Asked(e, tenantId, scope, q) {
      assert e in all <==> e in multiset(all);
      assert e in wanted <==> e in multiset(wanted);
      WantedIffAsked(e, tenantId, scope, q);
    }
    forall i, j | 0 <= i < j < |all|
      ensures all[i].createdAt > all[j].createdAt || (all[i].createdAt == all[j].createdAt && all[i].id > all[j].id)
    {
      assert Newer(all[i], all[j]);
    }
  }

  lemma WantedIffAsked(e: Entry, tenantId: string, scope: Scope, q: Query)
    ensures Wanted(e, tenantId, scope, q) <==> Asked(e, tenantId, scope, q)
  {}
}
