/** Password reset requests and every operation that writes a user's credentials (auth.service.ts,
    password-reset-requests.service.ts, master-data.service.ts, platform-support.service.ts). */
module PasswordReset {
  import opened Accounts
  import opened Common
  import Text

  /** A salted hash, taken to tell passwords apart. */
  datatype Hash = Hash(password: string, salt: int)

  datatype User = User(
    tenantId: string, role: Role, email: Option<string>, username: Option<string>, employeeNo: Option<string>,
    isActive: bool, passwordHash: Hash)

  datatype UserAuth = UserAuth(passwordHash: Hash, forcePasswordChange: bool)

  datatype Driver = Driver(tenantId: string, username: string, employeeNumber: Option<string>, passwordHash: Hash)

  datatype Status = Pending | Approved | Rejected | Completed

  datatype Request = Request(
    tenantId: string, usernameEntered: string, userId: Option<string>, role: Option<Role>, status: Status,
    requestedAt: int, requestedByIp: Option<string>, reviewedBy: Option<string>, reviewedAt: Option<int>,
    notes: Option<string>)

  /** A request's identity is its place in `requests`, which only grows. */
  datatype Store = Store(
    users: map<string, User>, auths: map<string, UserAuth>, drivers: map<string, Driver>, requests: seq<Request>)

  datatype Actor = Actor(id: string, role: Role, fullTenantScope: bool)

  datatype Error =
    | ForbiddenRequests | RequestNotFound | RequestNotPending | NoMatchingUser | RejectReasonRequired
    | UserNotFound | InvalidCredentials | ForbiddenMasterDataWrite | ForbiddenRoleAssignment | TenantNotFound

  datatype Outcome<T> = Outcome(store: Store, result: Result<T, Error>)

  // ---------------------------------------------------------------- queries without an order

  /** What a query for one row without ORDER BY may answer: any match, and none only if there is none. */
  ghost predicate Picked(pick: Option<string>, matches: set<string>) {
    if pick.Some? then pick.value in matches else matches == {}
  }

  method AnyOf(matches: set<string>) returns (pick: Option<string>)
    ensures Picked(pick, matches)
  {
    if matches == {} {
      return None;
    }
    var id :| id in matches;
    return Some(id);
  }

  predicate IsProjection(d: Driver, tenantId: string, u: User) {
    d.tenantId == tenantId && Links(u.username, u.employeeNo, d.username, d.employeeNumber)
  }

  function Projections(s: Store, tenantId: string, u: User): set<string> {
    set id | id in s.drivers && IsProjection(s.drivers[id], tenantId, u)
  }

  function ActiveMatches(s: Store, tenantId: string, identifier: string): set<string> {
    set id | id in s.users && s.users[id].tenantId == tenantId && s.users[id].isActive
      && (s.users[id].email == Some(identifier) || s.users[id].username == Some(identifier))
  }

  // ---------------------------------------------------------------- the operations

  /** User hash, the upsert of the auth row, and the hash of one driver row if there is one. */
  function SetPassword(s: Store, userId: string, hash: Hash, force: bool, projection: Option<string>): Store
    requires userId in s.users
  {
    s.(users := s.users[userId := s.users[userId].(passwordHash := hash)],
       auths := s.auths[userId := UserAuth(hash, force)],
       drivers := if projection.Some? && projection.value in s.drivers
                  then s.drivers[projection.value := s.drivers[projection.value].(passwordHash := hash)]
                  else s.drivers)
  }

  function NewRequest(s: Store, tenantId: string, identifier: string, ip: Option<string>, now: int, matched: Option<string>): Request {
    if matched.Some? && matched.value in s.users
    then Request(tenantId, identifier, matched, Some(s.users[matched.value].role), Pending, now, ip, None, None,
                 Some("Matched active account."))
    else Request(tenantId, identifier, None, None, Pending, now, ip, None, None,
                 Some("No active account match at request time."))
  }

  function RequestReset(s: Store, tenantId: string, entered: string, ip: Option<string>, now: int, matched: Option<string>): Store {
    var identifier := Text.ToLower(Text.Trim(entered));
    if identifier == "" then s
    else s.(requests := s.requests + [NewRequest(s, tenantId, identifier, ip, now, matched)])
  }

  predicate Governs(a: Actor) {
    (a.role.TransportManager? || a.role.TenantAdmin?) && a.fullTenantScope
  }

  predicate Found(s: Store, tenantId: string, id: nat) {
    id < |s.requests| && s.requests[id].tenantId == tenantId
  }

  /** The user linked to the request, else the one a fresh search picks. */
  function Target(s: Store, id: nat, matched: Option<string>): Option<string>
    requires id < |s.requests|
  {
    if s.requests[id].userId.Some? then s.requests[id].userId else matched
  }

  function Approve(
    s: Store, tenantId: string, id: nat, reviewer: Actor, notes: Option<string>, hash: Hash, now: int,
    matched: Option<string>, projection: Option<string>): Outcome<string>
  {
    if !Governs(reviewer) then Outcome(s, Failure(ForbiddenRequests))
    else if !Found(s, tenantId, id) then Outcome(s, Failure(RequestNotFound))
    else if s.requests[id].status != Pending then Outcome(s, Failure(RequestNotPending))
    else
      var target := Target(s, id, matched);
      if target.None? || target.value !in s.users then Outcome(s, Failure(NoMatchingUser))
      else
        var r := s.requests[id].(
          status := Approved, userId := target, role := Some(s.users[target.value].role),
          reviewedBy := Some(reviewer.id), reviewedAt := Some(now),
          notes := if notes.Some? then notes else s.requests[id].notes);
        var t := SetPassword(s, target.value, hash, true, projection);
        Outcome(t.(requests := s.requests[id := r]), Success(target.value))
  }

  function Reject(s: Store, tenantId: string, id: nat, reviewer: Actor, notes: string, now: int): Outcome<()> {
    var note := Text.Trim(notes);
    if !Governs(reviewer) then Outcome(s, Failure(ForbiddenRequests))
    else if note == "" then Outcome(s, Failure(RejectReasonRequired))
    else if !Found(s, tenantId, id) then Outcome(s, Failure(RequestNotFound))
    else if s.requests[id].status != Pending then Outcome(s, Failure(RequestNotPending))
    else
      var r := s.requests[id].(
        status := Rejected, reviewedBy := Some(reviewer.id), reviewedAt := Some(now), notes := Some(note));
      Outcome(s.(requests := s.requests[id := r]), Success(()))
  }

  predicate Completes(r: Request, tenantId: string, userId: string) {
    r.tenantId == tenantId && r.userId == Some(userId) && r.status.Approved?
  }

  function Complete(r: Request, tenantId: string, userId: string, now: int): Request {
    if Completes(r, tenantId, userId)
    then r.(status := Completed, reviewedAt := Some(now), reviewedBy := Some(userId))
    else r
  }

  function CompleteAll(rs: seq<Request>, tenantId: string, userId: string, now: int): seq<Request> {
    Map(r => Complete(r, tenantId, userId, now), rs)
  }

  predicate ActiveUser(s: Store, tenantId: string, userId: string) {
    userId in s.users && s.users[userId].tenantId == tenantId && s.users[userId].isActive
  }

  function ChangePassword(
    s: Store, tenantId: string, userId: string, current: string, hash: Hash, now: int,
    projection: Option<string>): Outcome<()>
  {
    if !ActiveUser(s, tenantId, userId) then Outcome(s, Failure(UserNotFound))
    else if s.users[userId].passwordHash.password != current then Outcome(s, Failure(InvalidCredentials))
    else
      var t := SetPassword(s, userId, hash, false, projection);
      Outcome(t.(requests := CompleteAll(s.requests, tenantId, userId, now)), Success(()))
  }

  predicate ManagesMasterData(a: Actor) {
    (a.role.TenantAdmin? || a.role.TransportManager? || a.role.CompanyAdmin? || a.role.HeadOfficeAdmin?)
    && a.fullTenantScope
  }

  predicate CanAssign(actor: Role, target: Role) {
    if actor.TransportManager? then !target.TransportManager?
    else
      && (actor.TenantAdmin? || actor.CompanyAdmin? || actor.HeadOfficeAdmin?)
      && (target.DriverRole? || target.SiteSupervisor? || target.SafetyOfficer?)
  }

  predicate ManagedUser(s: Store, tenantId: string, userId: string) {
    userId in s.users && s.users[userId].tenantId == tenantId && Managed(s.users[userId].role)
  }

  function ResetByManager(s: Store, tenantId: string, userId: string, a: Actor, hash: Hash, projection: Option<string>): Outcome<()> {
    if !ManagesMasterData(a) then Outcome(s, Failure(ForbiddenMasterDataWrite))
    else if !ManagedUser(s, tenantId, userId) then Outcome(s, Failure(UserNotFound))
    else if !CanAssign(a.role, s.users[userId].role) then Outcome(s, Failure(ForbiddenRoleAssignment))
    else Outcome(SetPassword(s, userId, hash, true, projection), Success(()))
  }

  function ResetBySupport(s: Store, tenants: set<string>, tenantId: string, userId: string, hash: Hash, projection: Option<string>): Outcome<()> {
    if tenantId !in tenants then Outcome(s, Failure(TenantNotFound))
    else if !(userId in s.users && s.users[userId].tenantId == tenantId) then Outcome(s, Failure(UserNotFound))
    else Outcome(SetPassword(s, userId, hash, true, projection), Success(()))
  }

  /** The tables, changed in place. A ghost result names the row a query without an order picked. */
  class CredentialTables {
    var users: map<string, User>
    var auths: map<string, UserAuth>
    var drivers: map<string, Driver>
    var requests: seq<Request>

    ghost function Contents(): Store
      reads this
    {
      Store(users, auths, drivers, requests)
    }

    constructor ()
      ensures Contents() == Store(map[], map[], map[], [])
    {
      users, auths, drivers, requests := map[], map[], map[], [];
    }

    method FindProjection(tenantId: string, u: User) returns (pick: Option<string>)
      ensures Picked(pick, Projections(Contents(), tenantId, u))
    {
      pick := AnyOf(set id | id in drivers && IsProjection(drivers[id], tenantId, u));
    }

    method FindActive(tenantId: string, identifier: string) returns (pick: Option<string>)
      ensures Picked(pick, ActiveMatches(Contents(), tenantId, identifier))
    {
      pick := AnyOf(set id | id in users && users[id].tenantId == tenantId && users[id].isActive
        && (users[id].email == Some(identifier) || users[id].username == Some(identifier)));
    }

    method WritePassword(tenantId: string, userId: string, hash: Hash, force: bool)
      returns (ghost projection: Option<string>)
      requires userId in users
      modifies this
      ensures Picked(projection, Projections(old(Contents()), tenantId, old(users)[userId]))
      ensures Contents() == SetPassword(old(Contents()), userId, hash, force, projection)
    {
      var user := users[userId];
      users := users[userId := user.(passwordHash := hash)];
      auths := auths[userId := UserAuth(hash, force)];
      var driver := FindProjection(tenantId, user);
      if driver.Some? {
        drivers := drivers[driver.value := drivers[driver.value].(passwordHash := hash)];
      }
      projection := driver;
    }

    method RequestTenantPasswordReset(tenantId: string, entered: string, ip: Option<string>, now: int)
      returns (ghost matched: Option<string>)
      modifies this
      ensures Allowed(old(Contents()), RequestStep(tenantId, entered, ip, now, matched))
      ensures Contents() == RequestReset(old(Contents()), tenantId, entered, ip, now, matched)
    {
      var identifier := Text.ToLower(Text.Trim(entered));
      matched := None;
      if identifier == "" {
        return;
      }
      var user := FindActive(tenantId, identifier);
      matched := user;
      var r := Request(tenantId, identifier, user, None, Pending, now, ip, None, None,
                       Some("No active account match at request time."));
      if user.Some? {
        r := r.(role := Some(users[user.value].role), notes := Some("Matched active account."));
      }
      requests := requests + [r];
    }

    method ApprovePasswordResetRequest(tenantId: string, id: nat, reviewer: Actor, notes: Option<string>, hash: Hash, now: int)
      returns (result: Result<string, Error>, ghost matched: Option<string>, ghost projection: Option<string>)
      modifies this
      ensures Allowed(old(Contents()), ApproveStep(tenantId, id, reviewer, notes, hash, now, matched, projection))
      ensures Outcome(Contents(), result)
        == Approve(old(Contents()), tenantId, id, reviewer, notes, hash, now, matched, projection)
    {
      matched, projection := None, None;
      if !Governs(reviewer) {
        return Failure(ForbiddenRequests), matched, projection;
      }
      if |requests| <= id || requests[id].tenantId != tenantId {
        return Failure(RequestNotFound), matched, projection;
      }
      var r := requests[id];
      if r.status != Pending {
        return Failure(RequestNotPending), matched, projection;
      }
      var target := r.userId;
      if target.None? {
        target := FindActive(tenantId, r.usernameEntered);
        matched := target;
      }
      if target.None? || target.value !in users {
        return Failure(NoMatchingUser), matched, projection;
      }
      var role := users[target.value].role;
      projection := WritePassword(tenantId, target.value, hash, true);
      requests := requests[id := r.(
        status := Approved, userId := target, role := Some(role), reviewedBy := Some(reviewer.id),
        reviewedAt := Some(now), notes := if notes.Some? then notes else r.notes)];
      return Success(target.value), matched, projection;
    }

    method RejectPasswordResetRequest(tenantId: string, id: nat, reviewer: Actor, notes: string, now: int)
      returns (result: Result<(), Error>)
      modifies this
      ensures Outcome(Contents(), result) == Reject(old(Contents()), tenantId, id, reviewer, notes, now)
    {
      if !Governs(reviewer) {
        return Failure(ForbiddenRequests);
      }
      var note := Text.Trim(notes);
      if note == "" {
        return Failure(RejectReasonRequired);
      }
      if |requests| <= id || requests[id].tenantId != tenantId {
        return Failure(RequestNotFound);
      }
      if requests[id].status != Pending {
        return Failure(RequestNotPending);
      }
      requests := requests[id := requests[id].(
        status := Rejected, reviewedBy := Some(reviewer.id), reviewedAt := Some(now), notes := Some(note))];
      return Success(());
    }

    method ChangeTenantStaffPassword(tenantId: string, userId: string, current: string, hash: Hash, now: int)
      returns (result: Result<(), Error>, ghost projection: Option<string>)
      modifies this
      ensures Allowed(old(Contents()), ChangeStep(tenantId, userId, current, hash, now, projection))
      ensures Outcome(Contents(), result) == ChangePassword(old(Contents()), tenantId, userId, current, hash, now, projection)
    {
      projection := None;
      if userId !in users || users[userId].tenantId != tenantId || !users[userId].isActive {
        return Failure(UserNotFound), projection;
      }
      if users[userId].passwordHash.password != current {
        return Failure(InvalidCredentials), projection;
      }
      projection := WritePassword(tenantId, userId, hash, false);
      for n := 0 to |requests|
        modifies `requests
        invariant |requests| == |old(requests)|
        invariant forall k :: 0 <= k < n ==> requests[k] == Complete(old(requests)[k], tenantId, userId, now)
        invariant forall k :: n <= k < |requests| ==> requests[k] == old(requests)[k]
      {
        if Completes(requests[n], tenantId, userId) {
          requests := requests[n := requests[n].(
            status := Completed, reviewedAt := Some(now), reviewedBy := Some(userId))];
        }
      }
      assert requests == CompleteAll(old(requests), tenantId, userId, now);
      return Success(()), projection;
    }

    method ResetMasterDriverPassword(tenantId: string, userId: string, a: Actor, hash: Hash)
      returns (result: Result<(), Error>, ghost projection: Option<string>)
      modifies this
      ensures Allowed(old(Contents()), ManagerStep(tenantId, userId, a, hash, projection))
      ensures Outcome(Contents(), result) == ResetByManager(old(Contents()), tenantId, userId, a, hash, projection)
    {
      projection := None;
      if !ManagesMasterData(a) {
        return Failure(ForbiddenMasterDataWrite), projection;
      }
      if userId !in users || users[userId].tenantId != tenantId || !Managed(users[userId].role) {
        return Failure(UserNotFound), projection;
      }
      if !CanAssign(a.role, users[userId].role) {
        return Failure(ForbiddenRoleAssignment), projection;
      }
      projection := WritePassword(tenantId, userId, hash, true);
      return Success(()), projection;
    }

    method ResetSupportTenantUserAccount(tenants: set<string>, tenantId: string, userId: string, hash: Hash)
      returns (result: Result<(), Error>, ghost projection: Option<string>)
      modifies this
      ensures Allowed(old(Contents()), SupportStep(tenants, tenantId, userId, hash, projection))
      ensures Outcome(Contents(), result) == ResetBySupport(old(Contents()), tenants, tenantId, userId, hash, projection)
    {
      projection := None;
      if tenantId !in tenants {
        return Failure(TenantNotFound), projection;
      }
      if userId !in users || users[userId].tenantId != tenantId {
        return Failure(UserNotFound), projection;
      }
      projection := WritePassword(tenantId, userId, hash, true);
      return Success(()), projection;
    }
  }

  // ---------------------------------------------------------------- runs

  /** Every operation with what its unordered queries picked, and any edit of users and driver rows that
      leaves tenants and hashes alone (creating and renaming users, linking drivers). */
  datatype Step =
    | RequestStep(tenantId: string, entered: string, ip: Option<string>, now: int, matched: Option<string>)
    | ApproveStep(tenantId: string, id: nat, reviewer: Actor, notes: Option<string>, hash: Hash, now: int,
                  matched: Option<string>, projection: Option<string>)
    | RejectStep(tenantId: string, id: nat, reviewer: Actor, reason: string, now: int)
    | ChangeStep(tenantId: string, userId: string, current: string, hash: Hash, now: int, projection: Option<string>)
    | ManagerStep(tenantId: string, userId: string, actor: Actor, hash: Hash, projection: Option<string>)
    | SupportStep(tenants: set<string>, tenantId: string, userId: string, hash: Hash, projection: Option<string>)
    | ProfileStep(users: map<string, User>, drivers: map<string, Driver>)

  function Apply(s: Store, step: Step): Store {
    match step
    case RequestStep(tenantId, entered, ip, now, m) => RequestReset(s, tenantId, entered, ip, now, m)
    case ApproveStep(tenantId, id, reviewer, notes, hash, now, m, p) =>
      Approve(s, tenantId, id, reviewer, notes, hash, now, m, p).store
    case RejectStep(tenantId, id, reviewer, reason, now) => Reject(s, tenantId, id, reviewer, reason, now).store
    case ChangeStep(tenantId, userId, current, hash, now, p) =>
      ChangePassword(s, tenantId, userId, current, hash, now, p).store
    case ManagerStep(tenantId, userId, a, hash, p) => ResetByManager(s, tenantId, userId, a, hash, p).store
    case SupportStep(tenants, tenantId, userId, hash, p) => ResetBySupport(s, tenants, tenantId, userId, hash, p).store
    case ProfileStep(users, drivers) => s.(users := users, drivers := drivers)
  }

  /** The picks answer the queries the step makes; a query that is not reached may have any answer. */
  ghost predicate Allowed(s: Store, step: Step) {
    match step
    case RequestStep(tenantId, entered, _, _, m) =>
      var identifier := Text.ToLower(Text.Trim(entered));
      identifier != "" ==> Picked(m, ActiveMatches(s, tenantId, identifier))
    case ApproveStep(tenantId, id, reviewer, _, _, _, m, p) =>
      Governs(reviewer) && Found(s, tenantId, id) && s.requests[id].status.Pending? ==>
        && (s.requests[id].userId.None? ==> Picked(m, ActiveMatches(s, tenantId, s.requests[id].usernameEntered)))
        && (var target := Target(s, id, m);
            target.Some? && target.value in s.users ==> Picked(p, Projections(s, tenantId, s.users[target.value])))
    case RejectStep(_, _, _, _, _) => true
    case ChangeStep(tenantId, userId, current, _, _, p) =>
      ActiveUser(s, tenantId, userId) && s.users[userId].passwordHash.password == current ==>
        Picked(p, Projections(s, tenantId, s.users[userId]))
    case ManagerStep(tenantId, userId, a, _, p) =>
      ManagesMasterData(a) && ManagedUser(s, tenantId, userId) && CanAssign(a.role, s.users[userId].role) ==>
        Picked(p, Projections(s, tenantId, s.users[userId]))
    case SupportStep(tenants, tenantId, userId, _, p) =>
      tenantId in tenants && userId in s.users && s.users[userId].tenantId == tenantId ==>
        Picked(p, Projections(s, tenantId, s.users[userId]))
    case ProfileStep(users, _) =>
      forall id :: id in s.users ==>
        id in users && users[id].tenantId == s.users[id].tenantId && users[id].passwordHash == s.users[id].passwordHash
  }

  function RunFrom(s: Store, steps: seq<Step>): Store
    decreases |steps|
  {
    if steps == [] then s else RunFrom(Apply(s, steps[0]), steps[1..])
  }

  ghost predicate ValidRun(s: Store, steps: seq<Step>)
    decreases |steps|
  {
    steps != [] ==> Allowed(s, steps[0]) && ValidRun(Apply(s, steps[0]), steps[1..])
  }

  ghost predicate Inv(s: Store) {
    && (forall id :: id in s.auths ==> id in s.users && s.auths[id].passwordHash == s.users[id].passwordHash)
    && (forall i :: 0 <= i < |s.requests| ==> LinkedInTenant(s, s.requests[i]))
    && (forall i :: 0 <= i < |s.requests| && s.requests[i].status.Approved? ==> MustChange(s, s.requests[i]))
  }

  predicate LinkedInTenant(s: Store, r: Request) {
    r.userId.Some? ==> r.userId.value in s.users && s.users[r.userId.value].tenantId == r.tenantId
  }

  predicate MustChange(s: Store, r: Request) {
    r.userId.Some? && r.userId.value in s.auths && s.auths[r.userId.value].forcePasswordChange
  }

  /** One step of a request's life. */
  predicate Follows(a: Status, b: Status) {
    a == b || (a.Pending? && (b.Approved? || b.Rejected?)) || (a.Approved? && b.Completed?)
  }

  ghost predicate StatusesFollow(s: Store, t: Store) {
    && |s.requests| <= |t.requests|
    && (forall i :: 0 <= i < |s.requests| ==> Follows(s.requests[i].status, t.requests[i].status))
    && (forall i :: |s.requests| <= i < |t.requests| ==> t.requests[i].status.Pending?)
  }

  lemma SetPasswordKeeps(s: Store, userId: string, hash: Hash, projection: Option<string>)
    requires Inv(s) && userId in s.users
    ensures Inv(SetPassword(s, userId, hash, true, projection))
  {}

  lemma ApproveKeeps(
    s: Store, tenantId: string, id: nat, reviewer: Actor, notes: Option<string>, hash: Hash, now: int,
    matched: Option<string>, projection: Option<string>)
    requires Inv(s) && Allowed(s, ApproveStep(tenantId, id, reviewer, notes, hash, now, matched, projection))
    ensures var t := Approve(s, tenantId, id, reviewer, notes, hash, now, matched, projection).store;
      Inv(t) && StatusesFollow(s, t)
  {
    var o := Approve(s, tenantId, id, reviewer, notes, hash, now, matched, projection);
    if o.result.Success? {
      assert LinkedInTenant(s, s.requests[id]);
      SetPasswordKeeps(s, o.result.value, hash, projection);
    }
  }

  lemma ChangeKeeps(
    s: Store, tenantId: string, userId: string, current: string, hash: Hash, now: int, projection: Option<string>)
    requires Inv(s)
    ensures var t := ChangePassword(s, tenantId, userId, current, hash, now, projection).store;
      Inv(t) && StatusesFollow(s, t)
  {
    var t := ChangePassword(s, tenantId, userId, current, hash, now, projection).store;
    forall i | 0 <= i < |s.requests|
      ensures LinkedInTenant(t, t.requests[i]) && (t.requests[i].status.Approved? ==> MustChange(t, t.requests[i]))
    {
      assert LinkedInTenant(s, s.requests[i]);
    }
  }

  lemma RejectKeeps(s: Store, tenantId: string, id: nat, reviewer: Actor, reason: string, now: int)
    requires Inv(s)
    ensures var t := Reject(s, tenantId, id, reviewer, reason, now).store; Inv(t) && StatusesFollow(s, t)
  {
    var t := Reject(s, tenantId, id, reviewer, reason, now).store;
    assert forall i :: 0 <= i < |s.requests| ==> LinkedInTenant(s, s.requests[i]) ==> LinkedInTenant(t, t.requests[i]);
  }

  lemma RequestKeeps(s: Store, tenantId: string, entered: string, ip: Option<string>, now: int, matched: Option<string>)
    requires Inv(s) && Allowed(s, RequestStep(tenantId, entered, ip, now, matched))
    ensures var t := RequestReset(s, tenantId, entered, ip, now, matched); Inv(t) && StatusesFollow(s, t)
  {}

  lemma ProfileKeeps(s: Store, users: map<string, User>, drivers: map<string, Driver>)
    requires Inv(s) && Allowed(s, ProfileStep(users, drivers))
    ensures Inv(s.(users := users, drivers := drivers))
  {
    var t := s.(users := users, drivers := drivers);
    assert forall i :: 0 <= i < |s.requests| ==> LinkedInTenant(s, s.requests[i]) ==> LinkedInTenant(t, t.requests[i]);
  }

  lemma StepKeepsInv(s: Store, step: Step)
    requires Inv(s) && Allowed(s, step)
    ensures Inv(Apply(s, step)) && StatusesFollow(s, Apply(s, step))
  {
    match step
    case ApproveStep(tenantId, id, reviewer, notes, hash, now, m, p) =>
      ApproveKeeps(s, tenantId, id, reviewer, notes, hash, now, m, p);
    case ChangeStep(tenantId, userId, current, hash, now, p) =>
      ChangeKeeps(s, tenantId, userId, current, hash, now, p);
    case ManagerStep(_, userId, _, hash, p) =>
      if userId in s.users {
        SetPasswordKeeps(s, userId, hash, p);
      }
    case SupportStep(_, _, userId, hash, p) =>
      if userId in s.users {
        SetPasswordKeeps(s, userId, hash, p);
      }
    case ProfileStep(users, drivers) => ProfileKeeps(s, users, drivers);
    case RejectStep(tenantId, id, reviewer, reason, now) => RejectKeeps(s, tenantId, id, reviewer, reason, now);
    case RequestStep(tenantId, entered, ip, now, m) => RequestKeeps(s, tenantId, entered, ip, now, m);
  }

  /** What several steps can make of a status. */
  predicate Reaches(a: Status, b: Status) {
    Follows(a, b) || (a.Pending? && b.Completed?)
  }

  /** In every run: an approved request has a user who must change the password, an auth row carries the
      user's own hash, and each status only moves forward along its path. */
  lemma {:induction false} RunKeepsInv(s: Store, steps: seq<Step>)
    requires Inv(s) && ValidRun(s, steps)
    ensures var t := RunFrom(s, steps);
      && Inv(t) && |s.requests| <= |t.requests|
      && forall i :: 0 <= i < |s.requests| ==> Reaches(s.requests[i].status, t.requests[i].status)
    decreases |steps|
  {
    if steps != [] {
      StepKeepsInv(s, steps[0]);
      RunKeepsInv(Apply(s, steps[0]), steps[1..]);
    }
  }

  /** A request that ends completed was approved at some moment of the run: nothing completes a pending one. */
  lemma {:induction false} CompletedWasApproved(s: Store, steps: seq<Step>, i: nat) returns (n: nat)
    requires Inv(s) && ValidRun(s, steps)
    requires i < |s.requests| && s.requests[i].status.Pending?
    requires i < |RunFrom(s, steps).requests| && RunFrom(s, steps).requests[i].status.Completed?
    ensures n <= |steps| && i < |RunFrom(s, steps[..n]).requests| && RunFrom(s, steps[..n]).requests[i].status.Approved?
    decreases |steps|
  {
    var t := Apply(s, steps[0]);
    StepKeepsInv(s, steps[0]);
    RunKeepsInv(t, steps[1..]);
    if t.requests[i].status.Approved? {
      n := 1;
      assert steps[..1][1..] == [] && steps[..1][0] == steps[0];
    } else {
      var m := CompletedWasApproved(t, steps[1..], i);
      n := m + 1;
      assert steps[..n][1..] == steps[1..][..m];
    }
  }

  /** A request is completed by its own user changing the password, and by nothing else. */
  lemma CompletedOnlyByItsUser(s: Store, step: Step, i: nat)
    requires Inv(s) && Allowed(s, step) && i < |s.requests|
    ensures Apply(s, step).requests[i].status.Completed? && !s.requests[i].status.Completed? <==>
      && s.requests[i].status.Approved? && step.ChangeStep?
      && step.tenantId == s.requests[i].tenantId && s.requests[i].userId == Some(step.userId)
      && s.users[step.userId].isActive && s.users[step.userId].passwordHash.password == step.current
  {
    StepKeepsInv(s, step);
  }

  // ---------------------------------------------------------------- what the user meets at sign-in

  /** Whether a user's password is accepted, and then whether the client is told to force a change. */
  function CheckPassword(s: Store, userId: string, password: string): Option<bool>
    requires userId in s.users
  {
    if s.users[userId].passwordHash.password == password
    then Some(userId in s.auths && s.auths[userId].forcePasswordChange)
    else None
  }

  /** The active user the query picks for the identifier as entered must have the password. */
  function SignIn(s: Store, matched: Option<string>, password: string): Option<bool> {
    if matched.Some? && matched.value in s.users then CheckPassword(s, matched.value, password) else None
  }

  ghost predicate FoundBySignIn(s: Store, tenantId: string, entered: string, matched: Option<string>) {
    Picked(matched, ActiveMatches(s, tenantId, Text.ToLower(Text.Trim(entered))))
  }

  /** While a request stays approved, its user cannot sign in without being told to change the password. */
  lemma SignInForcesChange(steps: seq<Step>, i: nat, password: string)
    requires ValidRun(Store(map[], map[], map[], []), steps)
    requires var t := RunFrom(Store(map[], map[], map[], []), steps); i < |t.requests| && t.requests[i].status.Approved?
    ensures var t := RunFrom(Store(map[], map[], map[], []), steps);
      && t.requests[i].userId.Some? && t.requests[i].userId.value in t.users
      && SignIn(t, t.requests[i].userId, password) != Some(false)
  {
    RunKeepsInv(Store(map[], map[], map[], []), steps);
  }

  /** The user whose password a step replaces, and the forced flag it leaves. */
  function Writes(s: Store, step: Step): Option<(string, Hash, bool)> {
    match step
    case ApproveStep(tenantId, id, reviewer, notes, hash, now, m, p) =>
      var r := Approve(s, tenantId, id, reviewer, notes, hash, now, m, p).result;
      if r.Success? then Some((r.value, hash, true)) else None
    case ChangeStep(tenantId, userId, current, hash, now, p) =>
      if ChangePassword(s, tenantId, userId, current, hash, now, p).result.Success? then Some((userId, hash, false)) else None
    case ManagerStep(tenantId, userId, a, hash, p) =>
      if ResetByManager(s, tenantId, userId, a, hash, p).result.Success? then Some((userId, hash, true)) else None
    case SupportStep(tenants, tenantId, userId, hash, p) =>
      if ResetBySupport(s, tenants, tenantId, userId, hash, p).result.Success? then Some((userId, hash, true)) else None
    case RequestStep(_, _, _, _, _) => None
    case RejectStep(_, _, _, _, _) => None
    case ProfileStep(_, _) => None
  }

  /** The last password written for a user in a run. */
  function LastWritten(s: Store, steps: seq<Step>, userId: string): Option<(Hash, bool)>
    decreases |steps|
  {
    if steps == [] then None
    else
      var later := LastWritten(Apply(s, steps[0]), steps[1..], userId);
      var w := Writes(s, steps[0]);
      if later.Some? then later
      else if w.Some? && w.value.0 == userId then Some((w.value.1, w.value.2))
      else None
  }

  /** What a password check answers after a write, or as before it. */
  function AfterWrite(w: Option<(string, Hash, bool)>, before: Option<bool>, userId: string, password: string): Option<bool> {
    if w.Some? && w.value.0 == userId then (if password == w.value.1.password then Some(w.value.2) else None) else before
  }

  /** The step leaves all passwords alone, or sets the one it writes. */
  ghost predicate SetsPassword(s: Store, step: Step) {
    var t, w := Apply(s, step), Writes(s, step);
    if w.Some? then
      exists p :: w.value.0 in s.users && t.users == SetPassword(s, w.value.0, w.value.1, w.value.2, p).users
        && t.auths == SetPassword(s, w.value.0, w.value.1, w.value.2, p).auths
    else
      t.auths == s.auths && forall id :: id in s.users ==> id in t.users && t.users[id].passwordHash == s.users[id].passwordHash
  }

  lemma ApproveSets(s: Store, step: Step)
    requires step.ApproveStep?
    ensures SetsPassword(s, step)
  {
    if Writes(s, step).Some? {
      assert Apply(s, step).users == SetPassword(s, Writes(s, step).value.0, step.hash, true, step.projection).users;
    }
  }

  lemma ChangeSets(s: Store, step: Step)
    requires step.ChangeStep?
    ensures SetsPassword(s, step)
  {
    if Writes(s, step).Some? {
      assert Apply(s, step).users == SetPassword(s, step.userId, step.hash, false, step.projection).users;
    }
  }

  lemma ResetSets(s: Store, step: Step)
    requires step.ManagerStep? || step.SupportStep?
    ensures SetsPassword(s, step)
  {
    if Writes(s, step).Some? {
      assert Apply(s, step).users == SetPassword(s, step.userId, step.hash, true, step.projection).users;
    }
  }

  lemma OthersSetNothing(s: Store, step: Step)
    requires Allowed(s, step) && (step.RequestStep? || step.RejectStep? || step.ProfileStep?)
    ensures SetsPassword(s, step)
  {}

  lemma StepSetsPassword(s: Store, step: Step)
    requires Allowed(s, step)
    ensures SetsPassword(s, step)
  {
    if step.ApproveStep? {
      ApproveSets(s, step);
    } else if step.ChangeStep? {
      ChangeSets(s, step);
    } else if step.ManagerStep? || step.SupportStep? {
      ResetSets(s, step);
    } else {
      OthersSetNothing(s, step);
    }
  }

  lemma WriteDecidesCheck(s: Store, step: Step, userId: string, password: string)
    requires SetsPassword(s, step) && userId in s.users
    ensures userId in Apply(s, step).users
    ensures CheckPassword(Apply(s, step), userId, password)
      == AfterWrite(Writes(s, step), CheckPassword(s, userId, password), userId, password)
  {}

  lemma {:induction false} LastPasswordIsChecked(s: Store, steps: seq<Step>, userId: string, password: string)
    requires ValidRun(s, steps) && userId in s.users
    ensures var t, last := RunFrom(s, steps), LastWritten(s, steps, userId);
      && userId in t.users
      && CheckPassword(t, userId, password) ==
         if last.Some? then (if password == last.value.0.password then Some(last.value.1) else None)
         else CheckPassword(s, userId, password)
    decreases |steps|
  {
    if steps != [] {
      StepSetsPassword(s, steps[0]);
      WriteDecidesCheck(s, steps[0], userId, password);
      LastPasswordIsChecked(Apply(s, steps[0]), steps[1..], userId, password);
    }
  }

  /** After any run a sign-in fails if no active user matches what was entered. Else, of the user it finds, exactly
      the last password written signs in, forced or not as its writer asked; without a write, the sign-in is as it
      was. Other users' resets never touch it. */
  lemma LastPasswordSignsIn(
    s: Store, steps: seq<Step>, tenantId: string, entered: string, matched: Option<string>, password: string)
    requires ValidRun(s, steps) && FoundBySignIn(RunFrom(s, steps), tenantId, entered, matched)
    requires matched.Some? ==> matched.value in s.users
    ensures var t := RunFrom(s, steps);
      SignIn(t, matched, password) ==
        if ActiveMatches(t, tenantId, Text.ToLower(Text.Trim(entered))) == {} then None
        else
          var last := LastWritten(s, steps, matched.value);
          if last.Some? then (if password == last.value.0.password then Some(last.value.1) else None)
          else CheckPassword(s, matched.value, password)
  {
    if matched.Some? {
      LastPasswordIsChecked(s, steps, matched.value, password);
    }
  }

  /** A governed approval succeeds exactly when the request is pending in the tenant and either is linked to
      a user or some active user of the tenant now matches what was entered. */
  lemma ApprovalSucceedsIff(s: Store, step: Step)
    requires Inv(s) && Allowed(s, step) && step.ApproveStep?
    ensures Writes(s, step).Some? <==>
      && Governs(step.reviewer) && Found(s, step.tenantId, step.id) && s.requests[step.id].status.Pending?
      && (s.requests[step.id].userId.Some? || ActiveMatches(s, step.tenantId, s.requests[step.id].usernameEntered) != {})
  {
    if Found(s, step.tenantId, step.id) {
      assert LinkedInTenant(s, s.requests[step.id]);
    }
  }
}
