/** Resolution of notification recipients from the tenant's contact directory,
    with the tenant settings as fallback (contact-directory.service.ts). */
module ContactDirectory {
  import opened Common
  import opened Sorting
  import Text

  // The outbox enumeration has the two compliance events; the service also
  // decides what happens to any event added later.
  datatype EventType = ComplianceExpired | ComplianceExpiringSoon | Future(name: string)

  // In the order of the database enumeration, which is the order of ORDER BY role.
  datatype ContactRole =
    | SiteSupervisor | TransportManager | HeadOfficeAdmin | Custom | TenantAdmin | SafetyOfficer

  datatype Audience = SupportiveDriverAllowed | SupervisorOnlyReview

  datatype SiteAssignment = SiteAssignment(tenantId: string, siteId: string)

  datatype Contact = Contact(
    id: string, tenantId: string, userRole: Option<string>, name: string, role: ContactRole,
    phoneE164: Option<string>, email: Option<string>, isActive: bool,
    siteAssignments: seq<SiteAssignment>, createdAt: int)

  datatype User = User(
    id: string, tenantId: string, isActive: bool, role: string,
    fullName: string, username: Option<string>, email: Option<string>)

  datatype Scope = AllRoles | SiteSupervisorsOnly | CustomList

  datatype Json =
    | JNull | JString(text: string) | JArray(items: seq<Json>) | JObject(fields: map<string, Json>) | JOther

  datatype Settings = Settings(recipientScope: Scope, customRecipients: Json)

  /** What the queries of one resolution see. */
  datatype Snapshot = Snapshot(
    contacts: seq<Contact>, users: seq<User>, settings: map<string, Settings>, countryCode: string)

  datatype Recipient = Recipient(recipient: string, displayName: string)

  datatype Source = FromDirectory | FromLegacySettings | FromNowhere

  datatype Item = Item(
    recipient: string, displayName: string, source: Source,
    contactId: Option<string>, contactRole: Option<ContactRole>, siteIds: seq<string>)

  type Resolved = Result<seq<Recipient>, string>

  // ---------------------------------------------------------------- audience and payload

  function AudienceForEvent(eventType: EventType): Audience {
    if eventType.ComplianceExpired? || eventType.ComplianceExpiringSoon?
    then SupportiveDriverAllowed
    else SupervisorOnlyReview
  }

  predicate RoleReceives(eventType: EventType, role: ContactRole) {
    AudienceForEvent(eventType).SupportiveDriverAllowed? || !role.Custom?
  }

  function ParseSiteId(payload: Json): Option<string> {
    if payload.JObject? && "site_id" in payload.fields && payload.fields["site_id"].JString?
    then Some(payload.fields["site_id"].text)
    else None
  }

  /** The empty text counts as no site. */
  function EffectiveSite(siteId: Option<string>): Option<string> {
    if siteId == Some("") then None else siteId
  }

  // ---------------------------------------------------------------- the contact query

  predicate Selected(c: Contact, tenantId: string, eventType: EventType, site: Option<string>) {
    && c.tenantId == tenantId && c.isActive && RoleReceives(eventType, c.role)
    && (site.Some? ==>
          || SiteAssignment(tenantId, site.value) in c.siteAssignments
          || c.siteAssignments == [])
  }

  function Rank(role: ContactRole): nat {
    match role
    case SiteSupervisor => 0 case TransportManager => 1 case HeadOfficeAdmin => 2
    case Custom => 3 case TenantAdmin => 4 case SafetyOfficer => 5
  }

  predicate Before(a: Contact, b: Contact) {
    Rank(a.role) < Rank(b.role) || (a.role == b.role && a.createdAt <= b.createdAt)
  }

  /** ORDER BY role, created_at; equal keys keep the table's order. */
  function OrderContacts(contacts: seq<Contact>): seq<Contact> {
    Sort((a, b) => Before(a, b), contacts)
  }

  function QueryContacts(db: Snapshot, tenantId: string, eventType: EventType, site: Option<string>): seq<Contact> {
    OrderContacts(Filter(c => Selected(c, tenantId, eventType, site), db.contacts))
  }

  // ---------------------------------------------------------------- first contact per destination

  function Destination(c: Contact): Option<string> {
    var chosen := if c.phoneE164.Some? then c.phoneE164 else c.email;
    if chosen == Some("") then None else chosen
  }

  function SitesOf(c: Contact, tenantId: string): seq<string> {
    Map((a: SiteAssignment) => a.siteId, Filter((a: SiteAssignment) => a.tenantId == tenantId, c.siteAssignments))
  }

  predicate Eligible(c: Contact, tenantId: string, audience: Audience, site: Option<string>) {
    && !(site.Some? && c.role.SiteSupervisor? && site.value !in SitesOf(c, tenantId))
    && !(c.userRole == Some("DRIVER") && !audience.SupportiveDriverAllowed?)
    && Destination(c).Some?
  }

  function ItemOf(c: Contact, tenantId: string): Item
    requires Destination(c).Some?
  {
    Item(Destination(c).value, c.name, FromDirectory, Some(c.id), Some(c.role), SitesOf(c, tenantId))
  }

  predicate Taken(items: seq<Item>, destination: string) {
    exists k :: 0 <= k < |items| && items[k].recipient == destination
  }

  lemma TakenNext(items: seq<Item>, item: Item)
    ensures forall d :: Taken(items + [item], d) <==> Taken(items, d) || d == item.recipient
  {
    forall d | Taken(items, d) ensures Taken(items + [item], d) {
      var k :| 0 <= k < |items| && items[k].recipient == d;
      assert (items + [item])[k].recipient == d;
    }
    assert (items + [item])[|items|] == item;
  }

  function FirstPerDestination(
    contacts: seq<Contact>, tenantId: string, audience: Audience, site: Option<string>): seq<Item>
  {
    if contacts == [] then []
    else
      var items := FirstPerDestination(contacts[..|contacts| - 1], tenantId, audience, site);
      var c := contacts[|contacts| - 1];
      if !Eligible(c, tenantId, audience, site) || Taken(items, Destination(c).value) then items
      else items + [ItemOf(c, tenantId)]
  }

  lemma FirstPerDestinationNext(
    contacts: seq<Contact>, n: nat, tenantId: string, audience: Audience, site: Option<string>)
    requires n < |contacts|
    ensures var items := FirstPerDestination(contacts[..n], tenantId, audience, site);
      FirstPerDestination(contacts[..n + 1], tenantId, audience, site) ==
        if !Eligible(contacts[n], tenantId, audience, site) || Taken(items, Destination(contacts[n]).value) then items
        else items + [ItemOf(contacts[n], tenantId)]
  {
    assert contacts[..n + 1][..n] == contacts[..n];
  }

  function DirectoryItems(db: Snapshot, tenantId: string, eventType: EventType, payload: Json): seq<Item> {
    var site := EffectiveSite(ParseSiteId(payload));
    FirstPerDestination(
      QueryContacts(db, tenantId, eventType, site), tenantId, AudienceForEvent(eventType), site)
  }

  /** The loop of resolveDirectoryRecipientsPreview: a map keyed by destination, in
      insertion order, that ignores a destination already present. */
  method ResolveDirectoryPreview(db: Snapshot, tenantId: string, eventType: EventType, payload: Json)
    returns (items: seq<Item>)
    ensures items == DirectoryItems(db, tenantId, eventType, payload)
  {
    var audience := AudienceForEvent(eventType);
    var site := EffectiveSite(ParseSiteId(payload));
    var contacts := QueryContacts(db, tenantId, eventType, site);
    var byRecipient: map<string, Item> := map[];
    items := [];
    for n := 0 to |contacts|
      invariant forall key :: key in byRecipient <==> Taken(items, key)
      invariant items == FirstPerDestination(contacts[..n], tenantId, audience, site)
    {
      var c := contacts[n];
      FirstPerDestinationNext(contacts, n, tenantId, audience, site);
      if site.Some? && c.role.SiteSupervisor? {
        if site.value !in SitesOf(c, tenantId) {
          continue;
        }
      }
      if c.userRole == Some("DRIVER") && !audience.SupportiveDriverAllowed? {
        continue;
      }
      var destination := Destination(c);
      if destination.None? {
        continue;
      }
      if destination.value !in byRecipient {
        byRecipient := byRecipient[destination.value := ItemOf(c, tenantId)];
        TakenNext(items, ItemOf(c, tenantId));
        items := items + [ItemOf(c, tenantId)];
      }
    }
    assert contacts[..|contacts|] == contacts;
  }

  // ---------------------------------------------------------------- legacy fallback

  predicate IsE164(s: string) {
    && 9 <= |s| <= 16 && s[0] == '+' && '1' <= s[1] <= '9'
    && forall i :: 2 <= i < |s| ==> Text.IsDigit(s[i])
  }

  function Digits(s: string): string { Filter(c => Text.IsDigit(c), s) }

  function DropLeadingZeros(s: string): string {
    if s != "" && s[0] == '0' then DropLeadingZeros(s[1..]) else s
  }

  function CountryPrefix(countryCode: string): string {
    if Digits(countryCode) == "" then "+968" else "+" + Digits(countryCode)
  }

  function Cleaned(s: string): string { Filter(c => !Text.IsSpace(c) && c !in {'-', '(', ')', '.'}, s) }

  function NormalizePhone(raw: string, countryCode: string): Result<string, string> {
    var trimmed := Text.Trim(raw);
    if trimmed == "" then Failure("invalid_phone_number") else
    var cleaned := Cleaned(trimmed);
    var candidate :=
      if Text.StartsWith(cleaned, "+") then "+" + Digits(cleaned[1..])
      else if Text.StartsWith(cleaned, "00") then "+" + Digits(cleaned[2..])
      else CountryPrefix(countryCode) + DropLeadingZeros(Digits(cleaned));
    if IsE164(candidate) then Success(candidate) else Failure("invalid_phone_number")
  }

  function NormalizeLegacyRecipient(value: string, countryCode: string): Result<string, string> {
    if Text.StartsWith(value, "user:") then Success(value)
    else if '@' in value then Success(Text.ToLower(Text.Trim(value)))
    else NormalizePhone(value, countryCode)
  }

  function TextField(entry: Json, name: string): Option<string> {
    if entry.JObject? && name in entry.fields && entry.fields[name].JString?
    then Some(entry.fields[name].text) else None
  }

  /** The entries of the custom list in order: entries without a text label and
      value are dropped, a null entry or an unusable phone number throws. */
  function CustomRecipients(entries: seq<Json>, countryCode: string): Resolved {
    if entries == [] then Success([]) else
    var front := CustomRecipients(entries[..|entries| - 1], countryCode);
    if front.Failure? then front else
    var entry := entries[|entries| - 1];
    if entry.JNull? then Failure("type_error") else
    var value, title := TextField(entry, "value"), TextField(entry, "label");
    if value.None? || title.None? then front else
    match NormalizeLegacyRecipient(value.value, countryCode)
    case Failure(e) => Failure(e)
    case Success(recipient) => Success(front.value + [Recipient(recipient, Text.Trim(title.value))])
  }

  const STAFF_ROLES: set<string> := {
    "TENANT_ADMIN", "COMPANY_ADMIN", "SUPERVISOR", "SITE_SUPERVISOR",
    "SAFETY_OFFICER", "TRANSPORT_MANAGER", "HEAD_OFFICE_ADMIN" }

  function LegacyRoles(scope: Scope, audience: Audience): set<string> {
    if scope.SiteSupervisorsOnly? then {"SITE_SUPERVISOR"}
    else if audience.SupportiveDriverAllowed? then STAFF_ROLES + {"DRIVER"}
    else STAFF_ROLES
  }

  function FirstNonEmpty(a: string, b: Option<string>, c: Option<string>, d: string): string {
    if a != "" then a else if b.GetOr("") != "" then b.value else if c.GetOr("") != "" then c.value else d
  }

  function UserRecipient(u: User): Recipient {
    Recipient("user:" + u.id, FirstNonEmpty(u.fullName, u.username, u.email, u.id))
  }

  function ResolveLegacyRecipients(db: Snapshot, tenantId: string, audience: Audience, settings: Settings): Resolved {
    if settings.recipientScope.CustomList? then
      if !audience.SupportiveDriverAllowed? then Success([])
      else if settings.customRecipients.JArray? then CustomRecipients(settings.customRecipients.items, db.countryCode)
      else Success([])
    else
      var roles := LegacyRoles(settings.recipientScope, audience);
      Success(Map(UserRecipient,
        Filter((u: User) => u.tenantId == tenantId && u.isActive && u.role in roles, db.users)))
  }

  // ---------------------------------------------------------------- dispatch and preview

  /** `new Map(entries).values()`: a repeated key keeps its first place and takes the last value. */
  function MapValues(entries: seq<Recipient>): seq<Recipient> {
    if entries == [] then [] else
    var front, e := MapValues(entries[..|entries| - 1]), entries[|entries| - 1];
    if exists k :: 0 <= k < |front| && front[k].recipient == e.recipient
    then Map((r: Recipient) => if r.recipient == e.recipient then e else r, front)
    else front + [e]
  }

  function PlainRecipient(item: Item): Recipient { Recipient(item.recipient, item.displayName) }

  /** What a dispatch pass sends to. */
  function ResolveRecipients(db: Snapshot, tenantId: string, eventType: EventType, payload: Json): Resolved {
    var byRecipient := MapValues(Map(PlainRecipient, DirectoryItems(db, tenantId, eventType, payload)));
    if |byRecipient| > 0 then Success(byRecipient)
    else if tenantId !in db.settings then Success([])
    else ResolveLegacyRecipients(db, tenantId, AudienceForEvent(eventType), db.settings[tenantId])
  }

  datatype Preview = Preview(items: seq<Item>, source: Source, fallbackUsed: bool)

  function PreviewPayload(siteId: Option<string>): Json {
    JObject(map["site_id" := if siteId.Some? then JString(siteId.value) else JNull])
  }

  function LegacyItem(r: Recipient): Item {
    Item(r.recipient, r.displayName, FromLegacySettings, None, None, [])
  }

  /** What the settings page shows. */
  function PreviewRecipients(db: Snapshot, tenantId: string, eventType: EventType, siteId: Option<string>)
    : Result<Preview, string>
  {
    var items := DirectoryItems(db, tenantId, eventType, PreviewPayload(siteId));
    if |items| > 0 then Success(Preview(items, FromDirectory, false))
    else if tenantId !in db.settings then Success(Preview([], FromNowhere, false))
    else match ResolveLegacyRecipients(db, tenantId, AudienceForEvent(eventType), db.settings[tenantId])
      case Failure(e) => Failure(e)
      case Success(fallback) =>
        if fallback == [] then Success(Preview([], FromNowhere, false))
        else Success(Preview(Map(LegacyItem, fallback), FromLegacySettings, true))
  }

  // ---------------------------------------------------------------- properties

  ghost predicate DistinctRecipients(rs: seq<Recipient>) {
    forall i, j :: 0 <= i < j < |rs| ==> rs[i].recipient != rs[j].recipient
  }

  /** Contact `i` is the first eligible one with its destination. */
  ghost predicate Winner(contacts: seq<Contact>, i: nat, tenantId: string, audience: Audience, site: Option<string>)
    requires i < |contacts|
  {
    && Eligible(contacts[i], tenantId, audience, site)
    && forall j :: 0 <= j < i && Eligible(contacts[j], tenantId, audience, site)
                   ==> Destination(contacts[j]) != Destination(contacts[i])
  }

  ghost function Winning(contacts: seq<Contact>, tenantId: string, audience: Audience, site: Option<string>): nat -> bool {
    (i: nat) => i < |contacts| && Winner(contacts, i, tenantId, audience, site)
  }

  /** Of the first `m` contacts, the items are the winners, at the increasing positions `w`, all of them. */
  ghost predicate WinsUpTo(
    contacts: seq<Contact>, m: nat, items: seq<Item>, w: seq<nat>, tenantId: string, audience: Audience, site: Option<string>)
  {
    && |w| == |items| && m <= |contacts|
    && Enumerates(w, m, Winning(contacts, tenantId, audience, site))
    && (forall k :: 0 <= k < |w| ==> IsItemOf(contacts, w[k], items[k], tenantId))
  }

  predicate IsItemOf(contacts: seq<Contact>, i: nat, item: Item, tenantId: string) {
    i < |contacts| && Destination(contacts[i]).Some? && item == ItemOf(contacts[i], tenantId)
  }

  ghost predicate Wins(
    contacts: seq<Contact>, items: seq<Item>, w: seq<nat>, tenantId: string, audience: Audience, site: Option<string>)
  {
    WinsUpTo(contacts, |contacts|, items, w, tenantId, audience, site)
  }

  lemma {:induction false} EligibleIsTaken(
    contacts: seq<Contact>, m: nat, items: seq<Item>, w: seq<nat>,
    tenantId: string, audience: Audience, site: Option<string>, i: nat)
    requires WinsUpTo(contacts, m, items, w, tenantId, audience, site)
    requires i < m && Eligible(contacts[i], tenantId, audience, site)
    ensures Taken(items, Destination(contacts[i]).value)
  {
    if Winner(contacts, i, tenantId, audience, site) {
      assert i in w;
      var k :| 0 <= k < |w| && w[k] == i;
      assert IsItemOf(contacts, w[k], items[k], tenantId);
    } else {
      var j :| 0 <= j < i && Eligible(contacts[j], tenantId, audience, site)
        && Destination(contacts[j]) == Destination(contacts[i]);
      EligibleIsTaken(contacts, m, items, w, tenantId, audience, site, j);
    }
  }

  lemma NextIsWinner(
    contacts: seq<Contact>, m: nat, items: seq<Item>, w: seq<nat>, tenantId: string, audience: Audience, site: Option<string>)
    requires m < |contacts| && WinsUpTo(contacts, m, items, w, tenantId, audience, site)
    ensures Winner(contacts, m, tenantId, audience, site) <==>
      Eligible(contacts[m], tenantId, audience, site) && !Taken(items, Destination(contacts[m]).value)
  {
    if Eligible(contacts[m], tenantId, audience, site) {
      if Taken(items, Destination(contacts[m]).value) {
        var k :| 0 <= k < |items| && items[k].recipient == Destination(contacts[m]).value;
        assert IsItemOf(contacts, w[k], items[k], tenantId);
        assert Destination(contacts[w[k]]) == Destination(contacts[m]);
      }
      forall j | 0 <= j < m && Eligible(contacts[j], tenantId, audience, site)
        ensures Taken(items, Destination(contacts[j]).value)
      {
        EligibleIsTaken(contacts, m, items, w, tenantId, audience, site, j);
      }
    }
  }

  lemma NextWinsUpTo(
    contacts: seq<Contact>, m: nat, items: seq<Item>, w: seq<nat>, tenantId: string, audience: Audience, site: Option<string>)
    requires m < |contacts| && WinsUpTo(contacts, m, items, w, tenantId, audience, site)
    ensures var win := Winner(contacts, m, tenantId, audience, site);
      WinsUpTo(contacts, m + 1, if win then items + [ItemOf(contacts[m], tenantId)] else items,
               if win then w + [m] else w, tenantId, audience, site)
  {
    EnumeratesNext(w, m, Winning(contacts, tenantId, audience, site));
    assert Winning(contacts, tenantId, audience, site)(m) == Winner(contacts, m, tenantId, audience, site);
  }

  lemma NextContact(
    contacts: seq<Contact>, m: nat, w: seq<nat>, tenantId: string, audience: Audience, site: Option<string>)
    requires m < |contacts|
    requires WinsUpTo(contacts, m, FirstPerDestination(contacts[..m], tenantId, audience, site), w, tenantId, audience, site)
    ensures WinsUpTo(contacts, m + 1, FirstPerDestination(contacts[..m + 1], tenantId, audience, site),
      if Winner(contacts, m, tenantId, audience, site) then w + [m] else w, tenantId, audience, site)
  {
    var items := FirstPerDestination(contacts[..m], tenantId, audience, site);
    FirstPerDestinationNext(contacts, m, tenantId, audience, site);
    NextIsWinner(contacts, m, items, w, tenantId, audience, site);
    NextWinsUpTo(contacts, m, items, w, tenantId, audience, site);
  }

  lemma NoContacts(contacts: seq<Contact>, tenantId: string, audience: Audience, site: Option<string>)
    ensures WinsUpTo(contacts, 0, FirstPerDestination(contacts[..0], tenantId, audience, site), [], tenantId, audience, site)
  {}

  lemma {:induction false} FirstWinsUpTo(contacts: seq<Contact>, m: nat, tenantId: string, audience: Audience, site: Option<string>)
    returns (w: seq<nat>)
    requires m <= |contacts|
    ensures WinsUpTo(contacts, m, FirstPerDestination(contacts[..m], tenantId, audience, site), w, tenantId, audience, site)
  {
    if m == 0 {
      NoContacts(contacts, tenantId, audience, site);
      w := [];
    } else {
      var before := FirstWinsUpTo(contacts, m - 1, tenantId, audience, site);
      NextContact(contacts, m - 1, before, tenantId, audience, site);
      w := if Winner(contacts, m - 1, tenantId, audience, site) then before + [m - 1] else before;
    }
  }

  /** The directory items are exactly the first eligible contact of each
      destination, in query order, so no destination repeats. */
  lemma FirstWins(contacts: seq<Contact>, tenantId: string, audience: Audience, site: Option<string>)
    returns (w: seq<nat>)
    ensures Wins(contacts, FirstPerDestination(contacts, tenantId, audience, site), w, tenantId, audience, site)
    ensures DistinctRecipients(Map(PlainRecipient, FirstPerDestination(contacts, tenantId, audience, site)))
  {
    w := FirstWinsUpTo(contacts, |contacts|, tenantId, audience, site);
    assert contacts[..|contacts|] == contacts;
    var all := FirstPerDestination(contacts, tenantId, audience, site);
    forall k, l | 0 <= k < l < |all| ensures all[k].recipient != all[l].recipient {
      assert w[k] < w[l];
      assert IsItemOf(contacts, w[k], all[k], tenantId);
      assert IsItemOf(contacts, w[l], all[l], tenantId);
    }
  }

  lemma {:induction false} DistinctEntriesPassThrough(entries: seq<Recipient>)
    requires DistinctRecipients(entries)
    ensures MapValues(entries) == entries
  {
    if entries != [] {
      DistinctEntriesPassThrough(entries[..|entries| - 1]);
    }
  }

  /** A non-empty directory answer is exactly the items, without repetition. */
  lemma DirectoryAnswer(db: Snapshot, tenantId: string, eventType: EventType, payload: Json)
    ensures var items := DirectoryItems(db, tenantId, eventType, payload);
      && DistinctRecipients(Map(PlainRecipient, items))
      && (items != [] ==>
            ResolveRecipients(db, tenantId, eventType, payload) == Success(Map(PlainRecipient, items)))
      && (items == [] ==> MapValues(Map(PlainRecipient, items)) == [])
  {
    var site := EffectiveSite(ParseSiteId(payload));
    var w := FirstWins(QueryContacts(db, tenantId, eventType, site), tenantId, AudienceForEvent(eventType), site);
    DistinctEntriesPassThrough(Map(PlainRecipient, DirectoryItems(db, tenantId, eventType, payload)));
  }

  /** The preview for a site shows exactly what a row carrying that site is sent to,
      fails exactly when the dispatch fails, and names no source exactly when it is empty. */
  lemma PreviewEqualsDispatch(
    db: Snapshot, tenantId: string, eventType: EventType, siteId: Option<string>, payload: Json)
    requires ParseSiteId(payload) == siteId
    ensures match PreviewRecipients(db, tenantId, eventType, siteId)
      case Failure(e) => ResolveRecipients(db, tenantId, eventType, payload) == Failure(e)
      case Success(p) =>
        && ResolveRecipients(db, tenantId, eventType, payload) == Success(Map(PlainRecipient, p.items))
        && (p.source.FromNowhere? <==> p.items == [])
        && (p.fallbackUsed <==> p.source.FromLegacySettings?)
        && (forall k :: 0 <= k < |p.items| ==> p.items[k].source == p.source)
  {
    assert ParseSiteId(PreviewPayload(siteId)) == siteId;
    DirectoryAnswer(db, tenantId, eventType, payload);
    var items := DirectoryItems(db, tenantId, eventType, payload);
    assert items == DirectoryItems(db, tenantId, eventType, PreviewPayload(siteId));
    if items != [] {
      var site := EffectiveSite(siteId);
      var w := FirstWins(QueryContacts(db, tenantId, eventType, site), tenantId, AudienceForEvent(eventType), site);
    } else if tenantId in db.settings {
      var legacy := ResolveLegacyRecipients(db, tenantId, AudienceForEvent(eventType), db.settings[tenantId]);
      if legacy.Success? {
        assert Map(PlainRecipient, Map(LegacyItem, legacy.value)) == legacy.value;
      }
    }
  }

  /** The contact's phone, or its mail address if it has no phone. */
  predicate ReachedAt(c: Contact, address: string) {
    address != "" && (c.phoneE164 == Some(address) || (c.phoneE164.None? && c.email == Some(address)))
  }

  lemma DestinationIsAddress(c: Contact, address: string)
    ensures Destination(c) == Some(address) <==> ReachedAt(c, address)
  {}

  /** Every item is an active contact of the tenant under its own name, reached at its phone or, without one, at its
      mail address; a driver's only for events that drivers may hear of. */
  lemma ItemsAreOwnContacts(db: Snapshot, tenantId: string, eventType: EventType, payload: Json, k: nat)
    requires k < |DirectoryItems(db, tenantId, eventType, payload)|
    ensures var item := DirectoryItems(db, tenantId, eventType, payload)[k];
      exists c :: c in db.contacts && c.tenantId == tenantId && c.isActive && item.contactId == Some(c.id)
        && ReachedAt(c, item.recipient) && item.displayName == c.name && item.contactRole == Some(c.role)
        && (c.userRole == Some("DRIVER") ==> AudienceForEvent(eventType).SupportiveDriverAllowed?)
  {
    var c := ItemOfContact(db, tenantId, eventType, payload, k);
    DestinationIsAddress(c, DirectoryItems(db, tenantId, eventType, payload)[k].recipient);
  }

  lemma ItemOfContact(db: Snapshot, tenantId: string, eventType: EventType, payload: Json, k: nat) returns (c: Contact)
    requires k < |DirectoryItems(db, tenantId, eventType, payload)|
    ensures c in db.contacts && Selected(c, tenantId, eventType, EffectiveSite(ParseSiteId(payload)))
    ensures Eligible(c, tenantId, AudienceForEvent(eventType), EffectiveSite(ParseSiteId(payload)))
    ensures DirectoryItems(db, tenantId, eventType, payload)[k] == ItemOf(c, tenantId)
  {
    var site := EffectiveSite(ParseSiteId(payload));
    var selected := Filter(c => Selected(c, tenantId, eventType, site), db.contacts);
    var contacts := OrderContacts(selected);
    OrderedPermutation(selected);
    var w := FirstWins(contacts, tenantId, AudienceForEvent(eventType), site);
    c := contacts[w[k]];
    assert IsItemOf(contacts, w[k], DirectoryItems(db, tenantId, eventType, payload)[k], tenantId);
    assert c in multiset(contacts) && c in multiset(selected) && c in selected;
  }

  /** A site supervisor is listed for a site only if assigned to that site. */
  lemma SupervisorsOnlyOfTheSite(db: Snapshot, tenantId: string, eventType: EventType, payload: Json, k: nat)
    requires k < |DirectoryItems(db, tenantId, eventType, payload)|
    requires EffectiveSite(ParseSiteId(payload)).Some?
    requires DirectoryItems(db, tenantId, eventType, payload)[k].contactRole == Some(SiteSupervisor)
    ensures EffectiveSite(ParseSiteId(payload)).value in DirectoryItems(db, tenantId, eventType, payload)[k].siteIds
  {
    var site := EffectiveSite(ParseSiteId(payload));
    var w := FirstWins(QueryContacts(db, tenantId, eventType, site), tenantId, AudienceForEvent(eventType), site);
  }

  /** The query answer is sorted and holds exactly the selected contacts. */
  lemma OrderedPermutation(contacts: seq<Contact>)
    ensures var r := OrderContacts(contacts);
      && multiset(r) == multiset(contacts)
      && forall i, j :: 0 <= i < j < |r| ==> Before(r[i], r[j])
  {
    SortIsOrderedPermutation((a, b) => Before(a, b), contacts);
  }

  /** Every reachable contact is covered: its destination is among the recipients. */
  lemma EveryDestinationCovered(db: Snapshot, tenantId: string, eventType: EventType, payload: Json, c: Contact)
    requires c in db.contacts && Selected(c, tenantId, eventType, EffectiveSite(ParseSiteId(payload)))
    requires Eligible(c, tenantId, AudienceForEvent(eventType), EffectiveSite(ParseSiteId(payload)))
    ensures Taken(DirectoryItems(db, tenantId, eventType, payload), Destination(c).value)
  {
    var site := EffectiveSite(ParseSiteId(payload));
    var selected := Filter(x => Selected(x, tenantId, eventType, site), db.contacts);
    OrderedPermutation(selected);
    var contacts := OrderContacts(selected);
    assert c in multiset(selected) && c in multiset(contacts);
    var i :| 0 <= i < |contacts| && contacts[i] == c;
    var w := FirstWins(contacts, tenantId, AudienceForEvent(eventType), site);
    EligibleIsTaken(contacts, |contacts|, FirstPerDestination(contacts, tenantId, AudienceForEvent(eventType), site), w,
      tenantId, AudienceForEvent(eventType), site, i);
  }
}
