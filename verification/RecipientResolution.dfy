/** When resolving recipients throws, and when it names a recipient twice, read off the tables
    (contact-directory.service.ts, utils/phone.ts). */
module RecipientResolution {
  import opened Common
  import opened ContactDirectory
  import Text

  // ---------------------------------------------------------------- phone numbers

  function CountryDigits(countryCode: string): string {
    if Digits(countryCode) == "" then "968" else Digits(countryCode)
  }

  /** The digits of the international number that `raw` stands for. */
  function PhoneDigits(raw: string, countryCode: string): string {
    var cleaned := Cleaned(Text.Trim(raw));
    if Text.StartsWith(cleaned, "+") then Digits(cleaned[1..])
    else if Text.StartsWith(cleaned, "00") then Digits(cleaned[2..])
    else CountryDigits(countryCode) + DropLeadingZeros(Digits(cleaned))
  }

  predicate UsablePhone(raw: string, countryCode: string) {
    Text.Trim(raw) != "" && UsableDigits(PhoneDigits(raw, countryCode))
  }

  predicate UsableDigits(digits: string) { 8 <= |digits| <= 15 && digits[0] != '0' }

  lemma {:induction false} DroppedZerosLeaveDigits(s: string)
    requires forall c :: c in s ==> Text.IsDigit(c)
    ensures forall c :: c in DropLeadingZeros(s) ==> Text.IsDigit(c)
  {
    if s != "" && s[0] == '0' {
      DroppedZerosLeaveDigits(s[1..]);
    }
  }

  lemma E164OfDigits(digits: string)
    requires forall c :: c in digits ==> Text.IsDigit(c)
    ensures IsE164("+" + digits) <==> UsableDigits(digits)
  {
    var s := "+" + digits;
    assert forall i :: 1 <= i < |s| ==> s[i] == digits[i - 1];
    assert forall i :: 0 <= i < |digits| ==> digits[i] in digits;
  }

  /** A number is accepted exactly if it has 8 to 15 digits, country code included, and no leading zero. */
  lemma PhoneUsableIff(raw: string, countryCode: string)
    ensures NormalizePhone(raw, countryCode).Success? <==> UsablePhone(raw, countryCode)
  {
    PhoneDigitsAreDigits(raw, countryCode);
    NormalizedIsPlus(raw, countryCode);
    E164OfDigits(PhoneDigits(raw, countryCode));
  }

  lemma PhoneDigitsAreDigits(raw: string, countryCode: string)
    ensures forall c :: c in PhoneDigits(raw, countryCode) ==> Text.IsDigit(c)
  {
    DroppedZerosLeaveDigits(Digits(Cleaned(Text.Trim(raw))));
  }

  lemma NormalizedIsPlus(raw: string, countryCode: string)
    ensures NormalizePhone(raw, countryCode).Success?
      <==> Text.Trim(raw) != "" && IsE164("+" + PhoneDigits(raw, countryCode))
    ensures NormalizePhone(raw, countryCode).Success? ==>
      NormalizePhone(raw, countryCode).value == "+" + PhoneDigits(raw, countryCode)
  {
    PlusInFront(CountryDigits(countryCode), DropLeadingZeros(Digits(Cleaned(Text.Trim(raw)))));
    assert CountryPrefix(countryCode) == "+" + CountryDigits(countryCode);
  }

  lemma PlusInFront(a: string, b: string)
    ensures "+" + a + b == "+" + (a + b)
  {}

  // ---------------------------------------------------------------- the custom list

  predicate TextEntry(e: Json) { TextField(e, "value").Some? && TextField(e, "label").Some? }

  function ValueOf(e: Json): string
    requires TextEntry(e)
  {
    TextField(e, "value").value
  }

  /** A null entry, or a text entry that is neither a user nor a mail address nor a usable number. */
  predicate Unusable(e: Json, countryCode: string) {
    || e.JNull?
    || (TextEntry(e) && !Text.StartsWith(ValueOf(e), "user:") && '@' !in ValueOf(e)
        && !UsablePhone(ValueOf(e), countryCode))
  }

  lemma {:induction false} CustomFailsIff(entries: seq<Json>, countryCode: string)
    ensures CustomRecipients(entries, countryCode).Failure?
      <==> exists k :: 0 <= k < |entries| && Unusable(entries[k], countryCode)
  {
    if entries != [] {
      var front, last := entries[..|entries| - 1], entries[|entries| - 1];
      CustomFailsIff(front, countryCode);
      if TextEntry(last) {
        PhoneUsableIff(ValueOf(last), countryCode);
      }
      assert forall k :: 0 <= k < |front| ==> front[k] == entries[k];
      assert CustomRecipients(entries, countryCode).Failure?
        <==> CustomRecipients(front, countryCode).Failure? || Unusable(last, countryCode);
    }
  }

  /** The recipient a text entry stands for, if its value is usable. */
  function NameOf(e: Json, countryCode: string): string {
    var name := NormalizeLegacyRecipient(TextField(e, "value").GetOr(""), countryCode);
    if name.Success? then name.value else ""
  }

  function Naming(countryCode: string): Json -> string { (e: Json) => NameOf(e, countryCode) }

  function RecipientOf(r: Recipient): string { r.recipient }

  /** A list that resolves names the recipients of its text entries, in order. */
  lemma {:induction false} CustomNames(entries: seq<Json>, countryCode: string)
    requires CustomRecipients(entries, countryCode).Success?
    ensures Map(RecipientOf, CustomRecipients(entries, countryCode).value)
      == Map(Naming(countryCode), Filter(TextEntry, entries))
  {
    if entries != [] {
      var front, last := entries[..|entries| - 1], entries[|entries| - 1];
      CustomNames(front, countryCode);
      CustomNext(entries, countryCode);
    }
  }

  lemma CustomNext(entries: seq<Json>, countryCode: string)
    requires entries != [] && CustomRecipients(entries, countryCode).Success?
    ensures var front, last := CustomRecipients(entries[..|entries| - 1], countryCode), entries[|entries| - 1];
      && front.Success?
      && Map(RecipientOf, CustomRecipients(entries, countryCode).value)
         == Map(RecipientOf, front.value) + if TextEntry(last) then [NameOf(last, countryCode)] else []
  {}

  /** Two text entries stand for one recipient. */
  predicate Same(a: Json, b: Json, countryCode: string) {
    TextEntry(a) && TextEntry(b) && NameOf(a, countryCode) == NameOf(b, countryCode)
  }

  ghost predicate AllDifferent(entries: seq<Json>, countryCode: string) {
    forall j, k :: 0 <= j < k < |entries| ==> !Same(entries[j], entries[k], countryCode)
  }

  lemma CustomDistinctIff(entries: seq<Json>, countryCode: string)
    requires CustomRecipients(entries, countryCode).Success?
    ensures DistinctRecipients(CustomRecipients(entries, countryCode).value) <==> AllDifferent(entries, countryCode)
  {
    CustomNames(entries, countryCode);
    DistinctByName(CustomRecipients(entries, countryCode).value);
    FilterDistinctImages(TextEntry, Naming(countryCode), entries);
  }

  lemma DistinctByName(rs: seq<Recipient>)
    ensures DistinctRecipients(rs) <==> Distinct(Map(RecipientOf, rs))
  {
    var names := Map(RecipientOf, rs);
    assert forall k :: 0 <= k < |rs| ==> names[k] == rs[k].recipient;
  }

  // ---------------------------------------------------------------- the whole resolution

  /** Some contact of the directory is selected and can be reached. */
  ghost predicate DirectoryAnswers(db: Snapshot, tenantId: string, eventType: EventType, payload: Json) {
    var site := EffectiveSite(ParseSiteId(payload));
    exists c :: c in db.contacts && Selected(c, tenantId, eventType, site) && Eligible(c, tenantId, AudienceForEvent(eventType), site)
  }

  lemma DirectoryAnswersIff(db: Snapshot, tenantId: string, eventType: EventType, payload: Json)
    ensures DirectoryItems(db, tenantId, eventType, payload) != [] <==> DirectoryAnswers(db, tenantId, eventType, payload)
  {
    var site, audience := EffectiveSite(ParseSiteId(payload)), AudienceForEvent(eventType);
    if DirectoryAnswers(db, tenantId, eventType, payload) {
      var c :| c in db.contacts && Selected(c, tenantId, eventType, site) && Eligible(c, tenantId, audience, site);
      EveryDestinationCovered(db, tenantId, eventType, payload, c);
    }
    if DirectoryItems(db, tenantId, eventType, payload) != [] {
      var c := ItemOfContact(db, tenantId, eventType, payload, 0);
    }
  }

  /** The custom list that the resolution falls back to, if it does. */
  ghost predicate UsesCustomList(
    db: Snapshot, tenantId: string, eventType: EventType, payload: Json, entries: seq<Json>)
  {
    && !DirectoryAnswers(db, tenantId, eventType, payload) && AudienceForEvent(eventType).SupportiveDriverAllowed?
    && tenantId in db.settings && db.settings[tenantId].recipientScope.CustomList?
    && db.settings[tenantId].customRecipients == JArray(entries)
  }

  /** Resolving throws: the directory is silent and the custom list has an unusable entry. */
  ghost predicate Unresolvable(db: Snapshot, tenantId: string, eventType: EventType, payload: Json) {
    exists entries, k :: UsesCustomList(db, tenantId, eventType, payload, entries)
      && 0 <= k < |entries| && Unusable(entries[k], db.countryCode)
  }

  lemma ResolutionFailsIff(db: Snapshot, tenantId: string, eventType: EventType, payload: Json)
    ensures ResolveRecipients(db, tenantId, eventType, payload).Failure? <==> Unresolvable(db, tenantId, eventType, payload)
  {
    DirectoryAnswer(db, tenantId, eventType, payload);
    DirectoryAnswersIff(db, tenantId, eventType, payload);
    if tenantId in db.settings && db.settings[tenantId].customRecipients.JArray? {
      var entries := db.settings[tenantId].customRecipients.items;
      CustomFailsIff(entries, db.countryCode);
      assert forall e :: UsesCustomList(db, tenantId, eventType, payload, e) ==> e == entries;
    }
  }

  /** The fallback names one recipient twice. */
  ghost predicate Repeats(db: Snapshot, tenantId: string, eventType: EventType, payload: Json) {
    exists entries :: UsesCustomList(db, tenantId, eventType, payload, entries) && !AllDifferent(entries, db.countryCode)
  }

  /** A successful resolution has distinct recipients exactly if it does not fall back to a custom list with
      two text entries for one recipient. */
  lemma ResolvedDistinctIff(db: Snapshot, tenantId: string, eventType: EventType, payload: Json)
    requires DistinctUserIds(db.users) && ResolveRecipients(db, tenantId, eventType, payload).Success?
    ensures DistinctRecipients(ResolveRecipients(db, tenantId, eventType, payload).value)
      <==> !Repeats(db, tenantId, eventType, payload)
  {
    DirectoryAnswer(db, tenantId, eventType, payload);
    DirectoryAnswersIff(db, tenantId, eventType, payload);
    if tenantId in db.settings && !db.settings[tenantId].recipientScope.CustomList? {
      UserRecipientsDistinct(db, tenantId, AudienceForEvent(eventType), db.settings[tenantId]);
    }
    if tenantId in db.settings && db.settings[tenantId].customRecipients.JArray? {
      var entries := db.settings[tenantId].customRecipients.items;
      if UsesCustomList(db, tenantId, eventType, payload, entries) {
        CustomDistinctIff(entries, db.countryCode);
      }
      assert forall e :: UsesCustomList(db, tenantId, eventType, payload, e) ==> e == entries;
    }
  }

  ghost predicate DistinctUserIds(users: seq<User>) {
    forall i, j :: 0 <= i < j < |users| ==> users[i].id != users[j].id
  }

  lemma UserRecipientsDistinct(db: Snapshot, tenantId: string, audience: Audience, settings: Settings)
    requires DistinctUserIds(db.users) && !settings.recipientScope.CustomList?
    ensures var r := ResolveLegacyRecipients(db, tenantId, audience, settings);
      r.Success? && DistinctRecipients(r.value)
  {
    var roles := LegacyRoles(settings.recipientScope, audience);
    FilterPairwise((u: User) => u.tenantId == tenantId && u.isActive && u.role in roles, db.users,
      (a: User, b: User) => a.id != b.id);
    forall a: User, b: User | a.id != b.id ensures "user:" + a.id != "user:" + b.id {
      assert ("user:" + a.id)[5..] == a.id && ("user:" + b.id)[5..] == b.id;
    }
  }
}
