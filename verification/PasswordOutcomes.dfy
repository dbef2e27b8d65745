/** When the operations on reset requests and credentials succeed, and what a request and its approval come to, read
    from the tables before the call (auth.service.ts, password-reset-requests.service.ts, master-data.service.ts). */
module PasswordOutcomes {
  import opened Accounts
  import opened Common
  import opened PasswordReset
  import Text

  /** An active user of the tenant with that e-mail address or user name. */
  predicate GoesBy(s: Store, tenantId: string, userId: string, identifier: string) {
    && userId in s.users && s.users[userId].tenantId == tenantId && s.users[userId].isActive
    && (s.users[userId].email == Some(identifier) || s.users[userId].username == Some(identifier))
  }

  lemma MatchesGoBy(s: Store, tenantId: string, identifier: string)
    ensures forall id :: id in ActiveMatches(s, tenantId, identifier) <==> GoesBy(s, tenantId, id, identifier)
  {}

  /** A request with an identifier is stored as pending, for whoever the tenant knows under it, and for nobody exactly if
      the tenant knows nobody; earlier requests, users and credentials stay. */
  lemma RequestIsLinked(s: Store, tenantId: string, entered: string, ip: Option<string>, now: int, matched: Option<string>)
    requires Allowed(s, RequestStep(tenantId, entered, ip, now, matched))
    ensures var t, identifier := RequestReset(s, tenantId, entered, ip, now, matched), Text.ToLower(Text.Trim(entered));
      && t.users == s.users && t.auths == s.auths && t.drivers == s.drivers
      && (identifier == "" ==> t.requests == s.requests)
      && (identifier != "" ==>
            && |t.requests| == |s.requests| + 1 && t.requests[..|s.requests|] == s.requests
            && var r := t.requests[|s.requests|];
               && r.tenantId == tenantId && r.usernameEntered == identifier && r.status.Pending? && r.requestedAt == now
               && r.requestedByIp == ip && r.reviewedBy.None?
               && (r.userId.Some? ==> GoesBy(s, tenantId, r.userId.value, identifier) && r.role == Some(s.users[r.userId.value].role))
               && (r.userId.None? <==> forall id :: !GoesBy(s, tenantId, id, identifier)))
  {
    var identifier := Text.ToLower(Text.Trim(entered));
    MatchesGoBy(s, tenantId, identifier);
  }

  /** May govern reset requests: a transport manager or tenant administrator of the whole tenant. */
  predicate MayGovern(a: Actor) {
    a.fullTenantScope && (a.role == TransportManager || a.role == TenantAdmin)
  }

  predicate IsPending(s: Store, tenantId: string, id: nat) {
    id < |s.requests| && s.requests[id].tenantId == tenantId && s.requests[id].status == Pending
  }

  /** Of a request for somebody, the approval gives that user the new password, to be changed at the first sign-in,
      whoever goes by the identifier meanwhile; only that user's and one driver row's password change. */
  lemma ApprovalResetsItsUser(
    s: Store, tenantId: string, id: nat, reviewer: Actor, notes: Option<string>, hash: Hash, now: int,
    matched: Option<string>, projection: Option<string>)
    requires Inv(s) && MayGovern(reviewer) && IsPending(s, tenantId, id) && s.requests[id].userId.Some?
    ensures var o, u := Approve(s, tenantId, id, reviewer, notes, hash, now, matched, projection), s.requests[id].userId.value;
      && o.result == Success(u) && u in o.store.users
      && CheckPassword(o.store, u, hash.password) == Some(true)
      && (forall password :: password != hash.password ==> CheckPassword(o.store, u, password) == None)
      && (forall other :: other in s.users && other != u ==> other in o.store.users && o.store.users[other] == s.users[other])
      && o.store.requests[id].status == Approved && o.store.requests[id].reviewedBy == Some(reviewer.id)
      && o.store.requests[id].reviewedAt == Some(now) && o.store.requests[id].userId == Some(u)
  {
    assert LinkedInTenant(s, s.requests[id]);
  }

  /** Why an approval fails, the first fault first. */
  lemma ApprovalFaults(
    s: Store, tenantId: string, id: nat, reviewer: Actor, notes: Option<string>, hash: Hash, now: int,
    matched: Option<string>, projection: Option<string>)
    requires Inv(s) && Allowed(s, ApproveStep(tenantId, id, reviewer, notes, hash, now, matched, projection))
    ensures var o := Approve(s, tenantId, id, reviewer, notes, hash, now, matched, projection);
      var own := id < |s.requests| && s.requests[id].tenantId == tenantId;
      && (o.result.Failure? ==> o.store == s)
      && (o.result == Failure(ForbiddenRequests) <==> !MayGovern(reviewer))
      && (o.result == Failure(RequestNotFound) <==> MayGovern(reviewer) && !own)
      && (o.result == Failure(RequestNotPending) <==> MayGovern(reviewer) && own && s.requests[id].status != Pending)
      && (o.result == Failure(NoMatchingUser) <==>
            && MayGovern(reviewer) && IsPending(s, tenantId, id)
            && s.requests[id].userId.None? && forall u :: !GoesBy(s, tenantId, u, s.requests[id].usernameEntered))
  {
    if id < |s.requests| {
      MatchesGoBy(s, tenantId, s.requests[id].usernameEntered);
      assert LinkedInTenant(s, s.requests[id]);
    }
  }

  /** A rejection needs a governor, a reason and a pending request of the tenant, and closes only that one. */
  lemma RejectionIs(s: Store, tenantId: string, id: nat, reviewer: Actor, notes: string, now: int)
    ensures var o := Reject(s, tenantId, id, reviewer, notes, now);
      && (o.result.Success? <==> MayGovern(reviewer) && Text.Trim(notes) != "" && IsPending(s, tenantId, id))
      && (o.result.Failure? ==> o.store == s)
      && o.store.users == s.users && o.store.auths == s.auths && o.store.drivers == s.drivers && |o.store.requests| == |s.requests|
      && (forall i :: 0 <= i < |s.requests| && i != id ==> o.store.requests[i] == s.requests[i])
      && (o.result.Success? ==>
            && o.store.requests[id].status == Rejected && o.store.requests[id].notes == Some(Text.Trim(notes))
            && o.store.requests[id].reviewedBy == Some(reviewer.id) && o.store.requests[id].reviewedAt == Some(now)
            && o.store.requests[id].userId == s.requests[id].userId)
  {}

  /** A user changes the password exactly if active in the tenant and with the present one, and is then no longer told
      to change it. */
  lemma ChangeIs(s: Store, tenantId: string, userId: string, current: string, hash: Hash, now: int, projection: Option<string>)
    ensures var o := ChangePassword(s, tenantId, userId, current, hash, now, projection);
      && (o.result.Success? <==>
            && userId in s.users && s.users[userId].tenantId == tenantId && s.users[userId].isActive
            && s.users[userId].passwordHash.password == current)
      && (o.result.Failure? ==> o.store == s)
      && (o.result.Success? ==>
            && userId in o.store.users && CheckPassword(o.store, userId, hash.password) == Some(false)
            && forall other :: other in s.users && other != userId ==>
                 other in o.store.users && o.store.users[other] == s.users[other])
  {}

  /** The roles whose passwords the driver pages reset. */
  predicate OnDriverPages(r: Role) { r == DriverRole || r == SiteSupervisor || r == SafetyOfficer || r == TenantAdmin }

  /** A manager resets a password exactly with the whole tenant in view and for a user of the tenant on the driver pages;
      a transport manager any of them, company, head office and tenant administrators all but tenant administrators. */
  lemma ManagerResetsIff(s: Store, tenantId: string, userId: string, a: Actor, hash: Hash, projection: Option<string>)
    ensures var o := ResetByManager(s, tenantId, userId, a, hash, projection);
      && (o.result.Success? <==>
            && a.fullTenantScope && userId in s.users && s.users[userId].tenantId == tenantId && OnDriverPages(s.users[userId].role)
            && (|| a.role == TransportManager
                || ((a.role == TenantAdmin || a.role == CompanyAdmin || a.role == HeadOfficeAdmin)
                    && s.users[userId].role != TenantAdmin)))
      && (o.result.Failure? ==> o.store == s)
      && (o.result.Success? ==> userId in o.store.users && CheckPassword(o.store, userId, hash.password) == Some(true))
  {}

  /** Support resets the password of any user of a tenant that exists. */
  lemma SupportResetsIff(s: Store, tenants: set<string>, tenantId: string, userId: string, hash: Hash, projection: Option<string>)
    ensures var o := ResetBySupport(s, tenants, tenantId, userId, hash, projection);
      && (o.result.Success? <==> tenantId in tenants && userId in s.users && s.users[userId].tenantId == tenantId)
      && (o.result.Failure? ==> o.store == s)
      && (o.result.Success? ==> userId in o.store.users && CheckPassword(o.store, userId, hash.password) == Some(true))
  {}

  /** With every new password the auth row carries the user's hash, and so does the linked driver row that was picked. */
  lemma HashesFollow(s: Store, tenantId: string, userId: string, hash: Hash, force: bool, projection: Option<string>)
    requires userId in s.users && Picked(projection, Projections(s, tenantId, s.users[userId]))
    ensures var t := SetPassword(s, userId, hash, force, projection);
      && t.users[userId].passwordHash == hash && userId in t.auths && t.auths[userId].passwordHash == hash
      && (projection.Some? ==>
            && projection.value in t.drivers && t.drivers[projection.value].passwordHash == hash
            && t.drivers[projection.value].tenantId == tenantId
            && (|| (s.users[userId].username.Some? && s.users[userId].username.value != ""
                    && t.drivers[projection.value].username == s.users[userId].username.value)
                || (s.users[userId].employeeNo.Some? && s.users[userId].employeeNo.value != ""
                    && t.drivers[projection.value].employeeNumber == s.users[userId].employeeNo)))
      && (forall d :: d in s.drivers && projection != Some(d) ==> d in t.drivers && t.drivers[d] == s.drivers[d])
  {}
}
