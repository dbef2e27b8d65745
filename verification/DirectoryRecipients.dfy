/** Who hears of an event, read from the rows of the directory and of the user table
    (contact-directory.service.ts). */
module DirectoryRecipients {
  import opened Common
  import opened ContactDirectory
  import opened RecipientResolution
  import Text

  // ---------------------------------------------------------------- the directory

  /** The payload asks for the site, or for none. */
  ghost predicate AsksFor(payload: Json, site: Option<string>) {
    forall x: string :: site == Some(x) <==>
      x != "" && payload.JObject? && "site_id" in payload.fields && payload.fields["site_id"] == JString(x)
  }

  lemma AskedSite(payload: Json, site: Option<string>)
    requires AsksFor(payload, site)
    ensures EffectiveSite(ParseSiteId(payload)) == site
  {
    var asked := EffectiveSite(ParseSiteId(payload));
    if asked.Some? {
      assert site == Some(asked.value);
    }
  }

  predicate Compliance(eventType: EventType) { eventType.ComplianceExpired? || eventType.ComplianceExpiringSoon? }

  /** The contact is to hear of the event at the site: custom contacts and drivers only of compliance, contacts of
      other sites not at all, and a supervisor of no site only where no site is asked for. */
  predicate Responsible(c: Contact, tenantId: string, eventType: EventType, site: Option<string>) {
    && c.tenantId == tenantId && c.isActive
    && (Compliance(eventType) || (!c.role.Custom? && c.userRole != Some("DRIVER")))
    && (site.Some? ==>
          || SiteAssignment(tenantId, site.value) in c.siteAssignments
          || (c.siteAssignments == [] && !c.role.SiteSupervisor?))
  }

  lemma SiteListed(c: Contact, tenantId: string, siteId: string)
    ensures siteId in SitesOf(c, tenantId) <==> SiteAssignment(tenantId, siteId) in c.siteAssignments
  {
    var own := Filter((a: SiteAssignment) => a.tenantId == tenantId, c.siteAssignments);
    if siteId in SitesOf(c, tenantId) {
      var k :| 0 <= k < |own| && own[k].siteId == siteId;
      assert own[k] in own && own[k] == SiteAssignment(tenantId, siteId);
    }
    if SiteAssignment(tenantId, siteId) in c.siteAssignments {
      assert SiteAssignment(tenantId, siteId) in own;
      var k :| 0 <= k < |own| && own[k] == SiteAssignment(tenantId, siteId);
      assert SitesOf(c, tenantId)[k] == siteId;
    }
  }

  lemma ResponsibleIff(c: Contact, tenantId: string, eventType: EventType, site: Option<string>)
    ensures Selected(c, tenantId, eventType, site) && Eligible(c, tenantId, AudienceForEvent(eventType), site)
      <==> Responsible(c, tenantId, eventType, site) && Destination(c).Some?
  {
    if site.Some? {
      SiteListed(c, tenantId, site.value);
    }
  }

  ghost predicate Names(items: seq<Item>, address: string) {
    exists k :: 0 <= k < |items| && items[k].recipient == address
  }

  /** An address is among the recipients exactly if it is the phone, or for want of a phone the mail address, of a
      contact who is to hear of the event. */
  lemma DirectoryNamesIff(
    db: Snapshot, tenantId: string, eventType: EventType, payload: Json, site: Option<string>, address: string)
    requires AsksFor(payload, site)
    ensures Names(DirectoryItems(db, tenantId, eventType, payload), address)
      <==> exists c :: c in db.contacts && Responsible(c, tenantId, eventType, site) && ReachedAt(c, address)
  {
    AskedSite(payload, site);
    var items := DirectoryItems(db, tenantId, eventType, payload);
    if k :| 0 <= k < |items| && items[k].recipient == address {
      var c := ItemOfContact(db, tenantId, eventType, payload, k);
      ResponsibleIff(c, tenantId, eventType, site);
      DestinationIsAddress(c, address);
    }
    if c :| c in db.contacts && Responsible(c, tenantId, eventType, site) && ReachedAt(c, address) {
      DestinationIsAddress(c, address);
      ResponsibleIff(c, tenantId, eventType, site);
      EveryDestinationCovered(db, tenantId, eventType, payload, c);
    }
  }

  /** A contact who is to hear of the event is reached at the phone or, without one, at the mail address, exactly if
      that is not empty. */
  lemma ContactCoveredIff(
    db: Snapshot, tenantId: string, eventType: EventType, payload: Json, site: Option<string>, c: Contact)
    requires AsksFor(payload, site) && c in db.contacts && Responsible(c, tenantId, eventType, site)
    ensures (exists address :: ReachedAt(c, address) && Names(DirectoryItems(db, tenantId, eventType, payload), address))
      <==> if c.phoneE164.Some? then c.phoneE164.value != "" else c.email.Some? && c.email.value != ""
  {
    var address := if c.phoneE164.Some? then c.phoneE164.value else c.email.GetOr("");
    if ReachedAt(c, address) {
      DirectoryNamesIff(db, tenantId, eventType, payload, site, address);
    }
  }

  /** In the order of the roles in the database: supervisors, transport managers, head office, custom contacts, tenant
      administrators, safety officers; within a role the contact created first. */
  predicate Precedes(a: ContactRole, b: ContactRole) {
    match b
    case SiteSupervisor => false
    case TransportManager => a.SiteSupervisor?
    case HeadOfficeAdmin => a.SiteSupervisor? || a.TransportManager?
    case Custom => a.SiteSupervisor? || a.TransportManager? || a.HeadOfficeAdmin?
    case TenantAdmin => !a.TenantAdmin? && !a.SafetyOfficer?
    case SafetyOfficer => !a.SafetyOfficer?
  }

  lemma RankOrders(a: ContactRole, b: ContactRole)
    ensures Precedes(a, b) <==> Rank(a) < Rank(b)
    ensures a == b <==> Rank(a) == Rank(b)
  {}

  lemma PlacesOf(db: Snapshot, tenantId: string, eventType: EventType, payload: Json) returns (w: seq<nat>)
    ensures var contacts := QueryContacts(db, tenantId, eventType, EffectiveSite(ParseSiteId(payload)));
      var items := DirectoryItems(db, tenantId, eventType, payload);
      && Wins(contacts, items, w, tenantId, AudienceForEvent(eventType), EffectiveSite(ParseSiteId(payload)))
      && (forall i, j :: 0 <= i < j < |contacts| ==> Before(contacts[i], contacts[j]))
  {
    var site := EffectiveSite(ParseSiteId(payload));
    w := FirstWins(QueryContacts(db, tenantId, eventType, site), tenantId, AudienceForEvent(eventType), site);
    OrderedPermutation(Filter(c => Selected(c, tenantId, eventType, site), db.contacts));
  }

  /** Recipients come in the order of their contacts' roles. */
  lemma RecipientsByRole(db: Snapshot, tenantId: string, eventType: EventType, payload: Json, k: nat, l: nat)
    requires k < l < |DirectoryItems(db, tenantId, eventType, payload)|
    ensures var items := DirectoryItems(db, tenantId, eventType, payload);
      && items[k].contactRole.Some? && items[l].contactRole.Some?
      && (items[k].contactRole == items[l].contactRole || Precedes(items[k].contactRole.value, items[l].contactRole.value))
  {
    var items := DirectoryItems(db, tenantId, eventType, payload);
    var contacts := QueryContacts(db, tenantId, eventType, EffectiveSite(ParseSiteId(payload)));
    var w := PlacesOf(db, tenantId, eventType, payload);
    assert w[k] < w[l] && IsItemOf(contacts, w[k], items[k], tenantId) && IsItemOf(contacts, w[l], items[l], tenantId);
    assert Before(contacts[w[k]], contacts[w[l]]);
    RankOrders(contacts[w[k]].role, contacts[w[l]].role);
  }

  // ---------------------------------------------------------------- the fallback

  /** The users told without a directory: site supervisors, or all staff, and for compliance the drivers too. */
  predicate ToldWithoutDirectory(u: User, tenantId: string, eventType: EventType, scope: Scope) {
    && u.tenantId == tenantId && u.isActive
    && (u.role == "SITE_SUPERVISOR"
        || (!scope.SiteSupervisorsOnly?
            && (|| u.role == "TENANT_ADMIN" || u.role == "COMPANY_ADMIN" || u.role == "SUPERVISOR"
                || u.role == "SAFETY_OFFICER" || u.role == "TRANSPORT_MANAGER" || u.role == "HEAD_OFFICE_ADMIN"
                || (Compliance(eventType) && u.role == "DRIVER"))))
  }

  /** With a silent directory and no custom list, exactly these users of the tenant are told. */
  lemma FallbackUsersIff(db: Snapshot, tenantId: string, eventType: EventType, payload: Json, userId: string)
    requires !DirectoryAnswers(db, tenantId, eventType, payload)
    requires tenantId in db.settings && !db.settings[tenantId].recipientScope.CustomList?
    ensures var r := ResolveRecipients(db, tenantId, eventType, payload);
      && r.Success?
      && ((exists k :: 0 <= k < |r.value| && r.value[k].recipient == "user:" + userId)
          <==> exists u :: u in db.users && u.id == userId
                 && ToldWithoutDirectory(u, tenantId, eventType, db.settings[tenantId].recipientScope))
  {
    DirectoryAnswer(db, tenantId, eventType, payload);
    DirectoryAnswersIff(db, tenantId, eventType, payload);
    var scope := db.settings[tenantId].recipientScope;
    var roles := LegacyRoles(scope, AudienceForEvent(eventType));
    var told := Filter((u: User) => u.tenantId == tenantId && u.isActive && u.role in roles, db.users);
    var rs := ResolveRecipients(db, tenantId, eventType, payload).value;
    assert rs == Map(UserRecipient, told);
    forall u: User ensures u in told <==> u in db.users && ToldWithoutDirectory(u, tenantId, eventType, scope) {
      RolesToldIff(u, tenantId, eventType, scope);
    }
    if k :| 0 <= k < |rs| && rs[k].recipient == "user:" + userId {
      SameUserText(told[k].id, userId);
      assert told[k] in told;
    }
    if u :| u in db.users && u.id == userId && ToldWithoutDirectory(u, tenantId, eventType, scope) {
      var k :| 0 <= k < |told| && told[k] == u;
      assert rs[k].recipient == "user:" + userId;
    }
  }

  lemma RolesToldIff(u: User, tenantId: string, eventType: EventType, scope: Scope)
    requires !scope.CustomList?
    ensures u.tenantId == tenantId && u.isActive && u.role in LegacyRoles(scope, AudienceForEvent(eventType))
      <==> ToldWithoutDirectory(u, tenantId, eventType, scope)
  {}

  lemma SameUserText(a: string, b: string)
    requires "user:" + a == "user:" + b
    ensures a == b
  {
    assert ("user:" + a)[5..] == a && ("user:" + b)[5..] == b;
  }

  /** Without a directory answer and without settings, and for a custom list that is no list, nobody is told; custom
      lists are for compliance only. */
  lemma NobodyTold(db: Snapshot, tenantId: string, eventType: EventType, payload: Json)
    requires !DirectoryAnswers(db, tenantId, eventType, payload)
    requires tenantId in db.settings ==> db.settings[tenantId].recipientScope.CustomList?
    requires tenantId in db.settings && Compliance(eventType) ==> !db.settings[tenantId].customRecipients.JArray?
    ensures ResolveRecipients(db, tenantId, eventType, payload) == Success([])
  {
    DirectoryAnswer(db, tenantId, eventType, payload);
    DirectoryAnswersIff(db, tenantId, eventType, payload);
  }

  /** A text entry of the custom list stands for a user or a mail address as written, the address without blanks
      around it and in lower case, and otherwise for the number of its digits. */
  lemma EntryStandsFor(value: string, countryCode: string)
    requires NormalizeLegacyRecipient(value, countryCode).Success?
    ensures NormalizeLegacyRecipient(value, countryCode).value ==
      if |value| >= 5 && value[..5] == "user:" then value
      else if '@' in value then Text.ToLower(Text.Trim(value))
      else "+" + PhoneDigits(value, countryCode)
  {
    if !Text.StartsWith(value, "user:") && '@' !in value {
      NormalizedIsPlus(value, countryCode);
    }
  }

  // ---------------------------------------------------------------- the preview

  /** The preview names the directory as its source exactly if the directory answers, and the settings exactly if it
      does not and the settings name somebody, which it marks as the fallback. */
  lemma PreviewSourceIs(db: Snapshot, tenantId: string, eventType: EventType, siteId: Option<string>)
    requires PreviewRecipients(db, tenantId, eventType, siteId).Success?
    ensures var p := PreviewRecipients(db, tenantId, eventType, siteId).value;
      var answers := DirectoryAnswers(db, tenantId, eventType, PreviewPayload(siteId));
      && (p.source == FromDirectory <==> answers)
      && (p.source == FromLegacySettings <==> !answers && p.items != [])
      && (p.fallbackUsed <==> !answers && p.items != [])
  {
    DirectoryAnswersIff(db, tenantId, eventType, PreviewPayload(siteId));
  }
}
