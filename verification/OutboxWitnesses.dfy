/** Two concrete runs: a malformed custom number blocks a tenant's queue for good, and a custom entry
    listed twice is messaged twice. */
module OutboxWitnesses {
  import opened Common
  import opened ContactDirectory
  import opened Outbox
  import opened OutboxDrain
  import opened OutboxKeys
  import opened OutboxRecipients
  import opened OutboxRuns
  import opened RecipientResolution
  import Text

  const ALL_ON := NotificationSettings(true, true, true, true)
  const EMPTY := Tables([], [])
  const TENANT := "t"
  const COUNTRY := "+968"
  const PHONE := "+96891234567"
  const PASS_LIMIT: nat := 50

  function Expired(recordId: string, siteId: string): Candidate {
    Candidate("compliance_expired", recordId, "2026-03-01T00:00:00.000Z", "expired", "HIGH", None, Some(siteId))
  }

  function RowOf(recordId: string, siteId: string, now: int): Row {
    RowFor(TENANT, Some(ALL_ON), Expired(recordId, siteId), now)
  }

  function Entry(title: string, value: string): Json {
    JObject(map["label" := JString(title), "value" := JString(value)])
  }

  function Delivered(at: int): Answer {
    Answer(SendResult(SentOk, "meta_cloud_api", Some(200), None, None, None), at)
  }

  function WorldAt(directory: Snapshot, answers: seq<Answer>, now: int): World {
    World(Some(ALL_ON), Some("meta_cloud_api"), directory, answers, now)
  }

  // ---------------------------------------------------------------- general steps

  /** A row as enqueued, for a site. */
  predicate FreshRow(r: Row, siteId: string, now: int) {
    && r.tenantId == TENANT && r.eventType.ComplianceExpired? && r.status.Pending? && r.recipient.None?
    && r.nextAttemptAt == now && ParseSiteId(r.payload) == Some(siteId)
  }

  predicate OpenChannel(w: World) { w.settings == Some(ALL_ON) && w.provider.Some? }

  /** The tenant's custom list. */
  predicate ListsEntries(db: Snapshot, entries: seq<Json>) {
    TENANT in db.settings && db.settings[TENANT] == Settings(CustomList, JArray(entries))
  }

  /** Nobody in the directory is responsible for the site. */
  predicate SilentFor(db: Snapshot, siteId: string) {
    forall c :: c in db.contacts ==> !Selected(c, TENANT, ComplianceExpired, EffectiveSite(Some(siteId)))
  }

  lemma ListIsUsed(db: Snapshot, r: Row, siteId: string, now: int, entries: seq<Json>)
    requires FreshRow(r, siteId, now) && SilentFor(db, siteId) && ListsEntries(db, entries)
    ensures UsesCustomList(db, r.tenantId, r.eventType, r.payload, entries)
  {}

  lemma StuckIf(r: Row, w: World, siteId: string, now: int, entries: seq<Json>, k: nat)
    requires FreshRow(r, siteId, now) && OpenChannel(w) && SilentFor(w.directory, siteId) && ListsEntries(w.directory, entries)
    requires k < |entries| && Unusable(entries[k], w.directory.countryCode)
    ensures Stuck(r, w)
  {
    ListIsUsed(w.directory, r, siteId, now, entries);
  }

  lemma OpenIf(r: Row, w: World, siteId: string, now: int, entries: seq<Json>)
    requires FreshRow(r, siteId, now) && OpenChannel(w) && SilentFor(w.directory, siteId) && ListsEntries(w.directory, entries)
    requires var list := CustomRecipients(entries, w.directory.countryCode); list.Success? && list.value != []
    ensures GateFor(r, w) == Open(CustomRecipients(entries, w.directory.countryCode).value)
  {
    ListIsUsed(w.directory, r, siteId, now, entries);
    DirectoryAnswer(w.directory, r.tenantId, r.eventType, r.payload);
    DirectoryAnswersIff(w.directory, r.tenantId, r.eventType, r.payload);
  }

  lemma RowOfIsFresh(recordId: string, siteId: string, now: int)
    ensures FreshRow(RowOf(recordId, siteId, now), siteId, now)
  {}

  lemma EnqueueOne(s: Tables, recordId: string, siteId: string, now: int)
    requires !HasKey(s.rows, CandidateKey(TENANT, Expired(recordId, siteId)))
    ensures EnqueueCandidates(s, TENANT, Some(ALL_ON), [Expired(recordId, siteId)], now)
      == s.(rows := s.rows + [RowOf(recordId, siteId, now)])
  {
    var cs := [Expired(recordId, siteId)];
    RowsForNext(TENANT, Some(ALL_ON), cs, 0, now);
    assert cs[..1] == cs && RowsFor(TENANT, Some(ALL_ON), cs[..0], now) == [];
    InsertOne(s.rows, RowOf(recordId, siteId, now));
  }

  lemma InsertOne(rows: seq<Row>, d: Row)
    requires !HasKey(rows, d.idempotencyKey)
    ensures InsertNew(rows, [d]) == rows + [d]
  {
    assert [d][..0] == [];
    assert InsertNew(rows, [d][..0]) == rows;
  }

  ghost predicate StandsStill(s: Tables, step: Step) { Enabled(s, step) && Apply(s, step) == s }

  lemma FirstStep(s: Tables, a: Step, rest: seq<Step>)
    requires Enabled(s, a) && ValidRun(Apply(s, a), rest)
    ensures ValidRun(s, [a] + rest) && RunFrom(s, [a] + rest) == RunFrom(Apply(s, a), rest)
  {
    assert ([a] + rest)[1..] == rest;
  }

  lemma {:induction false} StandStill(s: Tables, steps: seq<Step>)
    requires forall k :: 0 <= k < |steps| ==> StandsStill(s, steps[k])
    ensures ValidRun(s, steps) && RunFrom(s, steps) == s
    decreases |steps|
  {
    if steps != [] {
      assert StandsStill(s, steps[0]);
      StandStill(s, steps[1..]);
      FirstStep(s, steps[0], steps[1..]);
      assert [steps[0]] + steps[1..] == steps;
    }
  }

  lemma TrimmedAlready(s: string)
    requires s != "" && !Text.IsSpace(s[0]) && !Text.IsSpace(s[|s| - 1])
    ensures Text.Trim(s) == s
  {}

  // ---------------------------------------------------------------- numbers

  lemma {:induction false} DigitsNoLonger(s: string)
    ensures |Digits(s)| <= |s|
    ensures (forall c :: c in s ==> !Text.IsDigit(c)) ==> Digits(s) == ""
  {
    if s != "" {
      DigitsNoLonger(s[..|s| - 1]);
    }
  }

  /** A text of letters is no number under a short country code. */
  lemma LettersAreNoNumber(s: string, countryCode: string)
    requires s != "" && forall c :: c in s ==> 'a' <= c <= 'z'
    requires 0 < |Digits(countryCode)| < 8
    ensures !UsablePhone(s, countryCode)
  {
    assert s[0] in s && s[|s| - 1] in s;
    TrimmedAlready(s);
    var cleaned := Cleaned(s);
    assert forall c :: c in cleaned ==> c in s;
    DigitsNoLonger(cleaned);
    assert cleaned != [] ==> cleaned[0] in cleaned;
    assert DropLeadingZeros("") == "";
    assert PhoneDigits(s, countryCode) == CountryDigits(countryCode);
  }

  lemma OmanIsShort()
    ensures 0 < |Digits(COUNTRY)| < 8
  {
    DigitsNoLonger(COUNTRY);
    assert COUNTRY[1] in Digits(COUNTRY);
  }

  lemma AbcIsUnusable()
    ensures Unusable(Entry("x", "abc"), COUNTRY)
  {
    OmanIsShort();
    LettersAreNoNumber("abc", COUNTRY);
    assert TextField(Entry("x", "abc"), "value") == Some("abc");
  }

  /** An international number is its own normal form. */
  lemma NumberIsItself(s: string, countryCode: string)
    requires IsE164(s)
    ensures NormalizeLegacyRecipient(s, countryCode) == Success(s)
  {
    CharactersOfNumber(s);
    NotAUser(s);
    TrimmedAlready(s);
    PlainTextIsClean(s);
    OnlyDigits(s[1..]);
    CleanNumberNormalizes(s, countryCode);
  }

  lemma NotAUser(s: string)
    requires s != "" && s[0] == '+'
    ensures !Text.StartsWith(s, "user:")
  {
    assert "user:"[0] == 'u';
  }

  lemma CleanNumberNormalizes(s: string, countryCode: string)
    requires IsE164(s) && Text.Trim(s) == s && Cleaned(s) == s && Digits(s[1..]) == s[1..]
    ensures NormalizePhone(s, countryCode) == Success(s)
  {
    assert "+" + s[1..] == s;
  }

  lemma CharactersOfNumber(s: string)
    requires IsE164(s)
    ensures '@' !in s && (forall c :: c in s ==> c == '+' || Text.IsDigit(c)) && forall c :: c in s[1..] ==> Text.IsDigit(c)
  {
    assert forall i :: 1 <= i < |s| ==> Text.IsDigit(s[i]);
  }

  lemma PlainTextIsClean(s: string)
    requires forall c :: c in s ==> c == '+' || Text.IsDigit(c)
    ensures Cleaned(s) == s
  {
    assert forall k :: 0 <= k < |s| ==> s[k] in s;
    FilterEverything(c => !Text.IsSpace(c) && c !in {'-', '(', ')', '.'}, s);
    assert Cleaned(s) == Filter(c => !Text.IsSpace(c) && c !in {'-', '(', ')', '.'}, s);
  }

  lemma OnlyDigits(s: string)
    requires forall c :: c in s ==> Text.IsDigit(c)
    ensures Digits(s) == s
  {
    assert forall k :: 0 <= k < |s| ==> s[k] in s;
    FilterEverything(c => Text.IsDigit(c), s);
    assert Digits(s) == Filter(c => Text.IsDigit(c), s);
  }

  lemma PhoneIsNumber()
    ensures IsE164(PHONE)
  {}

  lemma OneNumberResolves(title: string, value: string, countryCode: string)
    requires IsE164(value)
    ensures CustomRecipients([Entry(title, value)], countryCode) == Success([Recipient(value, Text.Trim(title))])
  {
    NumberIsItself(value, countryCode);
    var one, e := [Entry(title, value)], Entry(title, value);
    assert one[..|one| - 1] == [] && one[|one| - 1] == e;
    assert TextField(e, "value") == Some(value) && TextField(e, "label") == Some(title) && !e.JNull?;
    var front, r := CustomRecipients(one[..|one| - 1], countryCode), Recipient(value, Text.Trim(title));
    assert front == Success([]) && front.value + [r] == [r];
  }

  lemma TwoNumbersResolve(title: string, other: string, value: string, countryCode: string)
    requires IsE164(value)
    ensures var r := CustomRecipients([Entry(title, value), Entry(other, value)], countryCode);
      r.Success? && |r.value| == 2
  {
    OneNumberResolves(title, value, countryCode);
    NumberIsItself(value, countryCode);
    var two := [Entry(title, value), Entry(other, value)];
    assert two[..|two| - 1] == [Entry(title, value)] && two[|two| - 1] == Entry(other, value);
    assert TextField(Entry(other, value), "value") == Some(value) && TextField(Entry(other, value), "label") == Some(other);
  }

  // ---------------------------------------------------------------- the blocked queue

  const MANAGER := Contact("c", TENANT, None, "Manager", TransportManager, Some(PHONE), None, true,
    [SiteAssignment(TENANT, "north")], 0)

  /** One contact, for the site north; for other sites a malformed number. */
  function BlockingDirectory(): Snapshot {
    Snapshot([MANAGER], [], map[TENANT := Settings(CustomList, JArray([Entry("x", "abc")]))], COUNTRY)
  }

  function BlockedPass(now: int): Step {
    Dispatch(Some(TENANT), PASS_LIMIT, now, [0, 1],
      map[0 := WorldAt(BlockingDirectory(), [], now), 1 := WorldAt(BlockingDirectory(), [Delivered(now)], now)])
  }

  /** A directory of one contact who is selected and can be reached names that contact. */
  lemma OneContactAnswers(db: Snapshot, tenantId: string, eventType: EventType, payload: Json, c: Contact)
    requires var site := EffectiveSite(ParseSiteId(payload));
      db.contacts == [c] && Selected(c, tenantId, eventType, site) && Eligible(c, tenantId, AudienceForEvent(eventType), site)
    ensures DirectoryItems(db, tenantId, eventType, payload) == [ItemOf(c, tenantId)]
  {
    var site := EffectiveSite(ParseSiteId(payload));
    assert [c][..0] == [] && [c][0] == c;
    assert Filter(x => Selected(x, tenantId, eventType, site), [c][..0]) == [];
    assert Filter(x => Selected(x, tenantId, eventType, site), [c]) == [c];
    assert OrderContacts([c][..0]) == [];
    assert OrderContacts([c]) == [c];
    assert FirstPerDestination([c][..0], tenantId, AudienceForEvent(eventType), site) == [];
  }

  lemma OneContactOpens(r: Row, w: World, c: Contact)
    requires r.recipient.None? && OpenChannel(w)
    requires var site := EffectiveSite(ParseSiteId(r.payload));
      w.directory.contacts == [c] && Selected(c, r.tenantId, r.eventType, site)
      && Eligible(c, r.tenantId, AudienceForEvent(r.eventType), site)
    ensures GateFor(r, w) == Open([PlainRecipient(ItemOf(c, r.tenantId))])
  {
    OneContactAnswers(w.directory, r.tenantId, r.eventType, r.payload, c);
    DirectoryAnswer(w.directory, r.tenantId, r.eventType, r.payload);
    assert Map(PlainRecipient, [ItemOf(c, r.tenantId)]) == [PlainRecipient(ItemOf(c, r.tenantId))];
  }

  lemma ManagerIsOfNorth()
    ensures !Selected(MANAGER, TENANT, ComplianceExpired, Some("south"))
    ensures Selected(MANAGER, TENANT, ComplianceExpired, Some("north"))
    ensures Eligible(MANAGER, TENANT, SupportiveDriverAllowed, Some("north"))
  {
    assert "south" != "north" by {
      assert "south"[0] != "north"[0];
    }
    assert SiteAssignment(TENANT, "north") == MANAGER.siteAssignments[0];
  }

  lemma DuePair(rows: seq<Row>, now: int)
    requires |rows| == 2 && FreshRow(rows[0], "south", 0) && FreshRow(rows[1], "north", 1) && now >= 1
    ensures IsDuePage(rows, Some(TENANT), now, PASS_LIMIT, [0, 1]) && Head(rows, 0, Some(TENANT), now)
  {
    assert DueIds(rows, Some(TENANT), now) == {0, 1};
    assert |{0, 1}| == 2;
  }

  lemma ThrowingPassStandsStill(s: Tables, page: seq<nat>, worlds: map<nat, World>, now: int)
    requires Distinct(page) && PageFits(s.rows, page, worlds, now) && page != []
    requires GateFor(s.rows[page[0]], worlds[page[0]]).Throws?
    ensures DispatchPage(s, page, worlds, now).tables == s
  {}

  lemma PairFits(rows: seq<Row>, worlds: map<nat, World>, now: int)
    requires |rows| == 2 && 0 in worlds && 1 in worlds && Fits(rows[0], worlds[0], now) && Fits(rows[1], worlds[1], now)
    ensures PageFits(rows, [0, 1], worlds, now)
  {}

  /** Two fresh rows of the tenant, the first stuck and the second not: a pass over both leaves everything as it is. */
  lemma StuckRowFirst(s: Tables, worlds: map<nat, World>, now: int)
    requires |s.rows| == 2 && FreshRow(s.rows[0], "south", 0) && FreshRow(s.rows[1], "north", 1)
    requires now >= 1 && 0 in worlds && 1 in worlds
    requires Stuck(s.rows[0], worlds[0]) && Fits(s.rows[0], worlds[0], now) && Fits(s.rows[1], worlds[1], now)
    ensures var pass := Dispatch(Some(TENANT), PASS_LIMIT, now, [0, 1], worlds);
      Enabled(s, pass) && Apply(s, pass) == s && HeadStuck(s, pass, 0)
  {
    ThrowsIffStuck(s.rows[0], worlds[0]);
    DuePair(s.rows, now);
    PairFits(s.rows, worlds, now);
    ThrowingPassStandsStill(s, [0, 1], worlds, now);
  }

  lemma FirstWorldIsStuck(r: Row, now: int)
    requires FreshRow(r, "south", 0)
    ensures var w := WorldAt(BlockingDirectory(), [], now); Stuck(r, w) && Fits(r, w, now)
  {
    var w := WorldAt(BlockingDirectory(), [], now);
    AbcIsUnusable();
    ManagerIsOfNorth();
    StuckIf(r, w, "south", 0, [Entry("x", "abc")], 0);
    ThrowsIffStuck(r, w);
  }

  lemma SecondWorldIsOpen(r: Row, now: int)
    requires FreshRow(r, "north", 1)
    ensures var w := WorldAt(BlockingDirectory(), [Delivered(now)], now);
      GateFor(r, w) == Open([Recipient(PHONE, "Manager")]) && Fits(r, w, now)
  {
    var w := WorldAt(BlockingDirectory(), [Delivered(now)], now);
    ManagerIsOfNorth();
    OneContactOpens(r, w, MANAGER);
  }

  lemma BlockedPassStandsStill(s: Tables, now: int)
    requires |s.rows| == 2 && FreshRow(s.rows[0], "south", 0) && FreshRow(s.rows[1], "north", 1) && now >= 1
    ensures StandsStill(s, BlockedPass(now)) && SecondIsOpen(s, BlockedPass(now))
  {
    FirstWorldIsStuck(s.rows[0], now);
    SecondWorldIsOpen(s.rows[1], now);
    StuckRowFirst(s, BlockedPass(now).worlds, now);
  }

  ghost predicate SecondIsOpen(s: Tables, pass: Step) {
    |s.rows| == 2 && pass.Dispatch? && 1 in pass.worlds && GateFor(s.rows[1], pass.worlds[1]).Open?
  }

  function BlockedPasses(times: seq<int>): seq<Step> { Map(BlockedPass, times) }

  lemma BlockedPassesStandStill(s: Tables, times: seq<int>)
    requires |s.rows| == 2 && FreshRow(s.rows[0], "south", 0) && FreshRow(s.rows[1], "north", 1)
    requires forall k :: 0 <= k < |times| ==> times[k] >= 1
    ensures ValidRun(s, BlockedPasses(times)) && RunFrom(s, BlockedPasses(times)) == s
    ensures forall k :: 0 <= k < |times| ==> SecondIsOpen(s, BlockedPasses(times)[k])
  {
    forall k | 0 <= k < |times| ensures StandsStill(s, BlockedPasses(times)[k]) && SecondIsOpen(s, BlockedPasses(times)[k]) {
      BlockedPassStandsStill(s, times[k]);
    }
    StandStill(s, BlockedPasses(times));
  }

  /** Record a at the site south, and a moment later record b at the site north. */
  function QueueOfTwo(): Tables {
    var first := EnqueueCandidates(EMPTY, TENANT, Some(ALL_ON), [Expired("a", "south")], 0);
    EnqueueCandidates(first, TENANT, Some(ALL_ON), [Expired("b", "north")], 1)
  }

  lemma KeysOfRecords(recordId: string, siteId: string, other: string, otherSite: string)
    requires BarFree(recordId) && BarFree(other) && recordId != other
    ensures CandidateKey(TENANT, Expired(recordId, siteId)) != CandidateKey(TENANT, Expired(other, otherSite))
  {
    var e, date := ComplianceExpired, Text.Prefix("2026-03-01T00:00:00.000Z", 10);
    EventTexts(e, e);
    if RawKey(TENANT, e, recordId, "directory", date) == RawKey(TENANT, e, other, "directory", date) {
      RawKeyInjective(TENANT, e, recordId, "directory", date, TENANT, e, other, "directory", date);
    }
  }

  lemma QueueOfTwoIs()
    ensures QueueOfTwo() == Tables([RowOf("a", "south", 0), RowOf("b", "north", 1)], [])
  {
    EnqueueOne(EMPTY, "a", "south", 0);
    KeysOfRecords("a", "south", "b", "north");
    EnqueueOne(Tables([RowOf("a", "south", 0)], []), "b", "north", 1);
  }

  /** The tenant has one contact, for the site north, and one custom entry, label x and value abc. However many
      of its passes run, and whenever, nothing is sent, although the row for north is due and has its contact. */
  lemma MalformedNumberBlocksQueue(times: seq<int>)
    requires forall k :: 0 <= k < |times| ==> times[k] >= 1
    ensures ValidRun(QueueOfTwo(), BlockedPasses(times)) && RunFrom(QueueOfTwo(), BlockedPasses(times)) == QueueOfTwo()
    ensures forall k :: 0 <= k < |times| ==> SecondIsOpen(QueueOfTwo(), BlockedPasses(times)[k])
  {
    QueueOfTwoIs();
    RowOfIsFresh("a", "south", 0);
    RowOfIsFresh("b", "north", 1);
    BlockedPassesStandStill(QueueOfTwo(), times);
  }

  // ---------------------------------------------------------------- the repeated entry

  const TWO_DESKS := [Entry("Fleet desk", PHONE), Entry("Night desk", PHONE)]

  function RepeatingDirectory(): Snapshot {
    Snapshot([], [], map[TENANT := Settings(CustomList, JArray(TWO_DESKS))], COUNTRY)
  }

  lemma DueSingle(rows: seq<Row>, siteId: string, now: int)
    requires |rows| == 1 && FreshRow(rows[0], siteId, 0) && now >= 0
    ensures IsDuePage(rows, Some(TENANT), now, PASS_LIMIT, [0])
  {
    assert DueIds(rows, Some(TENANT), now) == {0};
  }

  lemma SinglePass(s: Tables, worlds: map<nat, World>, now: int)
    requires |s.rows| == 1 && 0 in worlds && Fits(s.rows[0], worlds[0], now) && PageFits(s.rows, [0], worlds, now)
    requires !GateFor(s.rows[0], worlds[0]).Throws?
    ensures s.log == [] ==> DispatchPage(s, [0], worlds, now).tables.log == Attempt(0, s.rows[0], worlds[0]).log
  {
    assert [0][1..] == [];
    assert [] + Attempt(0, s.rows[0], worlds[0]).log == Attempt(0, s.rows[0], worlds[0]).log;
  }

  /** A fresh row sent to two recipients that are one: both successes are logged. */
  lemma SendsTwice(s: Tables, siteId: string, worlds: map<nat, World>, now: int)
    requires |s.rows| == 1 && s.log == [] && FreshRow(s.rows[0], siteId, 0) && now >= 0 && 0 in worlds
    requires Fits(s.rows[0], worlds[0], now) && GateFor(s.rows[0], worlds[0]).Open?
    requires DistinctUserIds(worlds[0].directory.users)
    requires Repeats(worlds[0].directory, s.rows[0].tenantId, s.rows[0].eventType, s.rows[0].payload)
    requires forall k :: 0 <= k < |worlds[0].answers| ==> IsSuccess(worlds[0].answers[k].result)
    ensures var pass := Dispatch(Some(TENANT), PASS_LIMIT, now, [0], worlds);
      Enabled(s, pass) && !OnePerRecipient(Apply(s, pass).log)
  {
    DueSingle(s.rows, siteId, now);
    SingleFits(s.rows, worlds, now);
    LogsTwice(s.rows[0], worlds[0]);
    SinglePass(s, worlds, now);
  }

  lemma SingleFits(rows: seq<Row>, worlds: map<nat, World>, now: int)
    requires |rows| == 1 && 0 in worlds && Fits(rows[0], worlds[0], now)
    ensures PageFits(rows, [0], worlds, now)
  {}

  lemma LogsTwice(r: Row, w: World)
    requires r.recipient.None? && GateFor(r, w).Open? && |w.answers| == |GateFor(r, w).recipients|
    requires DistinctUserIds(w.directory.users) && Repeats(w.directory, r.tenantId, r.eventType, r.payload)
    requires forall k :: 0 <= k < |w.answers| ==> IsSuccess(w.answers[k].result)
    ensures !OnePerRecipient(Attempt(0, r, w).log)
  {
    AllSentOnceIff(0, r, w);
  }

  function RepeatingPass(): Step {
    Dispatch(Some(TENANT), PASS_LIMIT, 1, [0], map[0 := WorldAt(RepeatingDirectory(), [Delivered(1), Delivered(1)], 1)])
  }

  lemma SameNumbers(title: string, other: string, value: string, countryCode: string)
    ensures !AllDifferent([Entry(title, value), Entry(other, value)], countryCode)
  {
    var entries := [Entry(title, value), Entry(other, value)];
    assert Same(entries[0], entries[1], countryCode);
  }

  lemma RepeatsIf(db: Snapshot, r: Row, siteId: string, now: int, entries: seq<Json>)
    requires FreshRow(r, siteId, now) && SilentFor(db, siteId) && ListsEntries(db, entries)
    requires !AllDifferent(entries, db.countryCode)
    ensures Repeats(db, r.tenantId, r.eventType, r.payload)
  {
    ListIsUsed(db, r, siteId, now, entries);
  }

  lemma RepeatingWorld(r: Row)
    requires FreshRow(r, "south", 0)
    ensures var w := RepeatingPass().worlds[0];
      && GateFor(r, w).Open? && Fits(r, w, 1) && Repeats(w.directory, r.tenantId, r.eventType, r.payload)
  {
    var w := RepeatingPass().worlds[0];
    PhoneIsNumber();
    TwoNumbersResolve("Fleet desk", "Night desk", PHONE, COUNTRY);
    SameNumbers("Fleet desk", "Night desk", PHONE, COUNTRY);
    OpenIf(r, w, "south", 0, TWO_DESKS);
    RepeatsIf(w.directory, r, "south", 0, TWO_DESKS);
  }

  lemma RepeatingPassSendsTwice(s: Tables)
    requires |s.rows| == 1 && s.log == [] && FreshRow(s.rows[0], "south", 0)
    ensures Enabled(s, RepeatingPass()) && !OnePerRecipient(Apply(s, RepeatingPass()).log)
  {
    RepeatingWorld(s.rows[0]);
    SendsTwice(s, "south", RepeatingPass().worlds, 1);
  }

  /** One number under two labels: a run from the empty tables in which it gets two successes for one row. */
  lemma RepeatedEntryIsSentTwice()
    ensures var run := [Enqueue(TENANT, Some(ALL_ON), [Expired("a", "south")], 0), RepeatingPass()];
      ValidRun(EMPTY, run) && !OnePerRecipient(RunFrom(EMPTY, run).log)
  {
    EnqueueOne(EMPTY, "a", "south", 0);
    RowOfIsFresh("a", "south", 0);
    var enqueue := Enqueue(TENANT, Some(ALL_ON), [Expired("a", "south")], 0);
    RepeatingPassSendsTwice(Apply(EMPTY, enqueue));
    TwoSteps(EMPTY, enqueue, RepeatingPass());
  }

  lemma TwoSteps(s: Tables, a: Step, b: Step)
    requires Enabled(s, a) && Enabled(Apply(s, a), b)
    ensures ValidRun(s, [a, b]) && RunFrom(s, [a, b]) == Apply(Apply(s, a), b)
  {
    var t := Apply(s, a);
    FirstStep(t, b, []);
    assert [b] + [] == [b] && [a] + [b] == [a, b];
    FirstStep(s, a, [b]);
  }
}
