/** What creating and editing a driver or a vehicle does to the holdings, and when it fails, read from the tables
    before the call (master-data.service.ts). */
module DriverAssignments {
  import opened Accounts
  import opened Common
  import opened VehicleAssignment
  import Text

  // ---------------------------------------------------------------- one driver row takes a vehicle

  /** Row `id` holds the vehicle, alone, or holds none; of the other rows only a former holder of the vehicle loses it. */
  ghost predicate Takes(a: map<string, Driver>, b: map<string, Driver>, id: string, vehicleId: Option<string>) {
    && id in b && b[id].assignedVehicleId == vehicleId
    && (vehicleId.Some? ==> forall d :: d in b && b[d].assignedVehicleId == vehicleId ==> d == id)
    && (forall d :: d in a && d != id ==> d in b && b[d].assignedVehicleId == Left(a[d].assignedVehicleId, vehicleId))
  }

  /** What is left of a holding when somebody else takes a vehicle. */
  function Left(held: Option<string>, taken: Option<string>): Option<string> {
    if held == taken then None else held
  }

  /** No row changes its vehicle, and new rows hold none. */
  ghost predicate NobodyMoves(a: map<string, Driver>, b: map<string, Driver>) {
    && (forall d :: d in a ==> d in b && b[d].assignedVehicleId == a[d].assignedVehicleId)
    && (forall d :: d in b && d !in a ==> b[d].assignedVehicleId.None?)
  }

  /** The row is linked to the user by user name or employee number. */
  predicate IsLinked(drivers: map<string, Driver>, tenantId: string, u: User, id: string) {
    && id in drivers && drivers[id].tenantId == tenantId
    && (|| (u.username.Some? && u.username.value != "" && drivers[id].username == u.username.value)
        || (u.employeeNo.Some? && u.employeeNo.value != "" && drivers[id].employeeNumber == u.employeeNo))
  }

  ghost predicate Unlinked(drivers: map<string, Driver>, tenantId: string, u: User) {
    forall id :: !IsLinked(drivers, tenantId, u, id)
  }

  ghost predicate IsNewestLinked(drivers: map<string, Driver>, tenantId: string, u: User, id: string) {
    IsLinked(drivers, tenantId, u, id)
    && forall other :: IsLinked(drivers, tenantId, u, other) ==> drivers[other].createdAt <= drivers[id].createdAt
  }

  lemma LinkedRows(drivers: map<string, Driver>, tenantId: string, u: User)
    ensures forall id :: id in Projections(drivers, tenantId, u) <==> IsLinked(drivers, tenantId, u, id)
    ensures Projections(drivers, tenantId, u) == {} <==> Unlinked(drivers, tenantId, u)
  {
    forall id ensures id in Projections(drivers, tenantId, u) <==> IsLinked(drivers, tenantId, u, id) {}
    if Projections(drivers, tenantId, u) != {} {
      var id :| id in Projections(drivers, tenantId, u);
      assert IsLinked(drivers, tenantId, u, id);
    }
  }

  lemma PickIsNewest(drivers: map<string, Driver>, tenantId: string, u: User, pick: Option<string>)
    requires PicksNewest(drivers, tenantId, u, pick)
    ensures pick.None? <==> Unlinked(drivers, tenantId, u)
    ensures pick.Some? ==> IsNewestLinked(drivers, tenantId, u, pick.value)
  {
    LinkedRows(drivers, tenantId, u);
  }

  /** No row is linked, and none can be made: the user has the empty employee number and another row has it. */
  ghost predicate Blocked(drivers: map<string, Driver>, tenantId: string, u: User) {
    && Unlinked(drivers, tenantId, u) && u.username.Some? && u.username.value != "" && u.employeeNo == Some("")
    && exists id :: id in drivers && drivers[id].tenantId == tenantId && drivers[id].employeeNumber == Some("")
  }

  /** The newest linked row, or a new one without a vehicle; nothing for an unlinked user without a name. */
  lemma EnsureIs(s: Store, tenantId: string, u: User, f: Fresh)
    requires PicksNewest(s.drivers, tenantId, u, f.pick) && f.id !in s.drivers
    ensures var e := EnsureProjection(s, tenantId, u, f);
      && (e.result.Failure? <==> Blocked(s.drivers, tenantId, u))
      && (e.result.Failure? ==> e == Outcome(s, Failure(UniqueViolation)))
      && (e.result == Success(None) <==> Unlinked(s.drivers, tenantId, u) && !Present(u.username))
      && (e.result == Success(None) ==> e.store == s)
      && (f.pick.Some? ==> e == Outcome(s, Success(f.pick)) && IsNewestLinked(s.drivers, tenantId, u, f.pick.value))
      && (f.pick.None? ==> Unlinked(s.drivers, tenantId, u))
      && (f.pick.None? && e.result.Success? && e.result.value.Some? ==>
            && e.result.value == Some(f.id) && Present(u.username)
            && e.store == s.(drivers := s.drivers[f.id := Driver(tenantId, u.username.value, u.employeeNo, f.now, None)]))
  {
    PickIsNewest(s.drivers, tenantId, u, f.pick);
    LinkedRows(s.drivers, tenantId, u);
    if f.pick.None? && Present(u.username) {
      NewRowFitsIff(s.drivers, tenantId, u, f);
    }
  }

  /** Setting a driver's vehicle, for a user with a linked row or one that can be made: the row takes the vehicle or
      none. It fails exactly if no row is linked and none can be made; an unlinked user without a name is passed over. */
  lemma SetAssignmentTakes(s: Store, tenantId: string, u: User, vehicleId: Option<string>, f: Fresh)
    requires Inv(s) && PicksNewest(s.drivers, tenantId, u, f.pick) && f.id !in s.drivers
    requires vehicleId.Some? ==> TenantVehicle(s, tenantId, vehicleId.value)
    ensures var o := SetAssignment(s, tenantId, u, vehicleId, f);
      && (o.result.Failure? <==> Blocked(s.drivers, tenantId, u))
      && o.store.users == s.users && o.store.vehicles == s.vehicles
      && (o.result.Failure? || (Unlinked(s.drivers, tenantId, u) && !Present(u.username)) ==> o.store == s)
      && (o.result.Success? && f.pick.Some? ==> Takes(s.drivers, o.store.drivers, f.pick.value, vehicleId))
      && (o.result.Success? && f.pick.None? && Present(u.username) ==> Takes(s.drivers, o.store.drivers, f.id, vehicleId))
  {
    EnsureIs(s, tenantId, u, f);
    EnsureKeeps(s, tenantId, u, f);
    var e := EnsureProjection(s, tenantId, u, f);
    if e.result.Success? && e.result.value.Some? {
      var id := e.result.value.value;
      ReassignMoves(e.store, tenantId, id, vehicleId);
      MovedTakes(s.drivers, e.store.drivers, SetAssignment(s, tenantId, u, vehicleId, f).store.drivers, id, vehicleId);
    }
  }

  lemma MovedTakes(a: map<string, Driver>, b: map<string, Driver>, c: map<string, Driver>, id: string, vehicleId: Option<string>)
    requires NoSharing(b) && Moved(b, c, id, vehicleId)
    requires forall d :: d in a ==> d in b && b[d] == a[d]
    ensures Takes(a, c, id, vehicleId)
  {}

  // ---------------------------------------------------------------- creating a driver

  /** Another user of the tenant has the user name or the employee number. */
  ghost predicate NameTaken(users: map<string, User>, tenantId: string, userId: string, username: string, employeeNo: Option<string>) {
    exists other :: other in users && other != userId && users[other].tenantId == tenantId
      && (users[other].username == Some(username) || (employeeNo.Some? && users[other].employeeNo == employeeNo))
  }

  lemma NameTakenIff(users: map<string, User>, userId: string, u: User)
    requires u.username.Some?
    ensures UserFits(users, userId, u) <==> !NameTaken(users, u.tenantId, userId, u.username.value, u.employeeNo)
  {}

  /** What is wrong with the input, the first fault first. */
  ghost function InputFault(
    s: Store, tenantId: string, userId: string, username: string, employeeNo: Option<string>, role: Role, vehicleId: Option<string>)
    : Option<Error>
  {
    if username == "" then Some(UsernameRequired)
    else if vehicleId.Some? && !(vehicleId.value in s.vehicles && s.vehicles[vehicleId.value] == tenantId) then Some(VehicleNotFound)
    else if vehicleId.Some? && role != DriverRole then Some(VehicleOnlyForDrivers)
    else if NameTaken(s.users, tenantId, userId, username, employeeNo) then Some(UniqueViolation)
    else None
  }

  lemma SaveUserIs(s: Store, tenantId: string, userId: string, u: User, vehicleId: Option<string>)
    requires u.tenantId == tenantId
    ensures var o := SaveUser(s, tenantId, userId, u, vehicleId);
      var fault := InputFault(s, tenantId, userId, u.username.GetOr(""), u.employeeNo, u.role, vehicleId);
      o == if fault.Some? then Outcome(s, Failure(fault.value)) else Outcome(s.(users := s.users[userId := u]), Success(()))
  {
    if u.username.Some? {
      NameTakenIff(s.users, userId, u);
    }
  }

  lemma CleanNumber(entered: Option<string>)
    ensures CleanEmployeeNo(entered) != Some("")
  {}

  /** The text without blanks around it, and none for a missing or blank one. */
  predicate IsTrimmed(entered: Option<string>, stored: Option<string>) {
    if entered.None? || Text.Trim(entered.value) == "" then stored.None? else stored == Some(Text.Trim(entered.value))
  }

  /** Creating a driver fails exactly for a fault of the input, and then changes nothing. Else the user is stored, and
      a driver's row, the newest linked or a new one, takes the vehicle given or none. */
  lemma NewDriverTakes(s: Store, step: Step)
    requires Inv(s) && Allowed(s, step) && step.NewDriver? && step.f.id !in s.drivers
    ensures var u := NewUser(step.tenantId, step.role, step.username, step.employeeNo);
      var o := CreateMasterDriver(s, step.tenantId, step.userId, u, step.vehicleId, step.f, step.g);
      var fault := InputFault(s, step.tenantId, step.userId, u.username.value, u.employeeNo, step.role, step.vehicleId);
      && Apply(s, step) == o.store && o.store.vehicles == s.vehicles
      && u.tenantId == step.tenantId && u.role == step.role && u.username == Some(Text.ToLower(Text.Trim(step.username)))
      && IsTrimmed(step.employeeNo, u.employeeNo)
      && (fault.Some? ==> o == Outcome(s, Failure(fault.value)))
      && (fault.None? ==> o.result.Success? && o.store.users == s.users[step.userId := u])
      && (fault.None? && step.role != DriverRole ==> o.store.drivers == s.drivers)
      && (fault.None? && step.role == DriverRole ==>
            && step.g.pick.Some? && Takes(s.drivers, o.store.drivers, step.g.pick.value, step.vehicleId)
            && (if Unlinked(s.drivers, step.tenantId, u) then step.g.pick.value == step.f.id
                else IsNewestLinked(s.drivers, step.tenantId, u, step.g.pick.value)))
  {
    var u := NewUser(step.tenantId, step.role, step.username, step.employeeNo);
    var t := SaveUser(s, step.tenantId, step.userId, u, step.vehicleId);
    SaveUserIs(s, step.tenantId, step.userId, u, step.vehicleId);
    CleanNumber(step.employeeNo);
    if t.result.Success? && step.role.DriverRole? {
      var e := EnsureProjection(t.store, step.tenantId, u, step.f);
      EnsureIs(t.store, step.tenantId, u, step.f);
      EnsureKeeps(t.store, step.tenantId, u, step.f);
      SecondPick(t.store, e.store, step.tenantId, u, step.f, step.g.pick);
      SetPicked(e.store, step.tenantId, u, step.vehicleId, step.g);
      TakesFromBefore(s.drivers, e.store.drivers, Apply(s, step).drivers, step.g.pick.value, step.vehicleId);
    }
  }

  /** With a linked row at hand, setting the vehicle succeeds whatever identifier a new row would get. */
  lemma SetPicked(s: Store, tenantId: string, u: User, vehicleId: Option<string>, g: Fresh)
    requires Inv(s) && PicksNewest(s.drivers, tenantId, u, g.pick) && g.pick.Some?
    requires vehicleId.Some? ==> TenantVehicle(s, tenantId, vehicleId.value)
    ensures var o := SetAssignment(s, tenantId, u, vehicleId, g);
      o.result.Success? && o.store.users == s.users && Takes(s.drivers, o.store.drivers, g.pick.value, vehicleId)
  {
    var id := g.pick.value;
    ReassignMoves(s, tenantId, id, vehicleId);
    MovedTakes(s.drivers, s.drivers, SetAssignment(s, tenantId, u, vehicleId, g).store.drivers, id, vehicleId);
  }

  lemma SecondPick(s: Store, t: Store, tenantId: string, u: User, f: Fresh, pick: Option<string>)
    requires PicksNewest(s.drivers, tenantId, u, f.pick) && f.id !in s.drivers && Present(u.username)
    requires EnsureProjection(s, tenantId, u, f).result.Success? && t == EnsureProjection(s, tenantId, u, f).store
    requires PicksNewest(t.drivers, tenantId, u, pick)
    ensures pick.Some?
    ensures if Unlinked(s.drivers, tenantId, u) then pick.value == f.id else IsNewestLinked(s.drivers, tenantId, u, pick.value)
    ensures forall d :: d in s.drivers ==> d in t.drivers && t.drivers[d] == s.drivers[d]
  {
    EnsureIs(s, tenantId, u, f);
    PickIsNewest(s.drivers, tenantId, u, f.pick);
    PickIsNewest(t.drivers, tenantId, u, pick);
    if Unlinked(s.drivers, tenantId, u) {
      assert IsLinked(t.drivers, tenantId, u, f.id);
      assert forall d :: d in s.drivers ==> !IsLinked(s.drivers, tenantId, u, d) && !IsLinked(t.drivers, tenantId, u, d);
    }
  }

  lemma TakesFromBefore(a: map<string, Driver>, b: map<string, Driver>, c: map<string, Driver>, id: string, vehicleId: Option<string>)
    requires Takes(b, c, id, vehicleId)
    requires forall d :: d in a ==> d in b && b[d].assignedVehicleId == a[d].assignedVehicleId
    ensures Takes(a, c, id, vehicleId)
  {}

  // ---------------------------------------------------------------- editing a driver

  /** Another row of the tenant has the name or the number that the linked row is to take over. */
  ghost predicate RowClashes(drivers: map<string, Driver>, tenantId: string, id: string, u: User) {
    exists other :: other in drivers && other != id && drivers[other].tenantId == tenantId
      && (drivers[other].username == u.username.GetOr("") || (u.employeeNo.Some? && drivers[other].employeeNumber == u.employeeNo))
  }

  /** The driver row cannot follow the edit. */
  ghost predicate CannotFollow(s: Store, tenantId: string, u: User, pick: Option<string>) {
    if pick.Some? then RowClashes(s.drivers, tenantId, pick.value, u) else Blocked(s.drivers, tenantId, u)
  }

  /** The row follows the keys of the user and keeps its vehicle. */
  lemma SyncIs(s: Store, tenantId: string, u: User, f: Fresh)
    requires PicksNewest(s.drivers, tenantId, u, f.pick) && f.id !in s.drivers && Present(u.username)
    ensures var o := SyncProjection(s, tenantId, u, f);
      && (o.result.Failure? <==> CannotFollow(s, tenantId, u, f.pick))
      && (o.result.Failure? ==> o == Outcome(s, Failure(UniqueViolation)))
      && o.store.users == s.users && NobodyMoves(s.drivers, o.store.drivers)
      && (o.result.Success? ==> IsLinked(o.store.drivers, tenantId, u, if f.pick.Some? then f.pick.value else f.id))
  {
    EnsureIs(s, tenantId, u, f);
    PickIsNewest(s.drivers, tenantId, u, f.pick);
    var e := EnsureProjection(s, tenantId, u, f);
    if e.result.Success? && e.result.value.Some? {
      var id := e.result.value.value;
      var d := e.store.drivers[id].(username := u.username.GetOr(""), employeeNumber := u.employeeNo);
      if f.pick.Some? {
        ClashIff(s.drivers, tenantId, id, u, d);
      } else {
        assert d == e.store.drivers[id];
        LinkedRows(s.drivers, tenantId, u);
        NewRowFitsIff(s.drivers, tenantId, u, f);
      }
    }
  }

  lemma ClashIff(drivers: map<string, Driver>, tenantId: string, id: string, u: User, d: Driver)
    requires d.tenantId == tenantId && d.username == u.username.GetOr("") && d.employeeNumber == u.employeeNo
    ensures DriverFits(drivers, id, d) <==> !RowClashes(drivers, tenantId, id, u)
  {}

  /** The user row after the edit: what is given is taken over, without blanks around it, the rest stays. */
  predicate IsEdited(before: User, after: User, step: Step)
    requires step.EditDriver?
  {
    && after.tenantId == before.tenantId
    && after.role == (if step.nextRole.Set? then step.nextRole.value else before.role)
    && after.username == (if step.nextUsername.Set? then Some(Text.ToLower(Text.Trim(step.nextUsername.value))) else before.username)
    && (step.nextEmployeeNo.Keep? ==> after.employeeNo == before.employeeNo)
    && (step.nextEmployeeNo.Set? ==> IsTrimmed(step.nextEmployeeNo.value, after.employeeNo))
  }

  /** The user may be edited as a driver. */
  predicate Editable(s: Store, tenantId: string, userId: string) {
    && userId in s.users && s.users[userId].tenantId == tenantId
    && (s.users[userId].role == DriverRole || s.users[userId].role == SiteSupervisor
        || s.users[userId].role == SafetyOfficer || s.users[userId].role == TenantAdmin)
  }

  /** Why an edit fails, the first fault first. */
  ghost function EditFault(s: Store, step: Step, u: User): Option<Error>
    requires step.EditDriver?
  {
    if !Editable(s, step.tenantId, step.userId) then Some(DriverNotFound)
    else
      var fault := InputFault(s, step.tenantId, step.userId, u.username.GetOr(""), u.employeeNo, u.role,
                              if step.vehicle.Set? then step.vehicle.value else None);
      if fault.Some? then fault
      else if u.role == DriverRole && CannotFollow(s, step.tenantId, u, step.f.pick) then Some(UniqueViolation)
      else None
  }

  function Edited(s: Store, step: Step): User
    requires step.EditDriver? && step.userId in s.users
  {
    NextUser(s.users[step.userId], step.nextRole, step.nextUsername, step.nextEmployeeNo)
  }

  /** An edit of a driver fails exactly for a fault of the input or a clash of the driver row, and then no row changes
      its vehicle. Else the row takes the vehicle given, or none, or, if none is mentioned, nobody moves. */
  lemma EditDriverTakes(s: Store, step: Step, u: User)
    requires Inv(s) && Allowed(s, step) && step.EditDriver? && step.f.id !in s.drivers
    requires step.userId in s.users ==> IsEdited(s.users[step.userId], u, step)
    ensures var o := UpdateMasterDriver(s, step.tenantId, step.userId, step.nextRole, step.nextUsername, step.nextEmployeeNo,
        step.vehicle, step.f, step.g);
      var fault := EditFault(s, step, u);
      && Apply(s, step) == o.store && o.store.vehicles == s.vehicles
      && (fault.Some? ==> o.result == Failure(fault.value) && o.store.drivers == s.drivers)
      && (fault.None? ==> o.result.Success? && o.store.users == s.users[step.userId := u])
      && (fault.None? && (u.role != DriverRole || step.vehicle.Keep?) ==> NobodyMoves(s.drivers, o.store.drivers))
      && (fault.None? && u.role == DriverRole && step.vehicle.Set? ==>
            step.g.pick.Some? && Takes(s.drivers, o.store.drivers, step.g.pick.value, step.vehicle.value))
  {
    if Editable(s, step.tenantId, step.userId) {
      EditedIs(s, step, u);
      SaveUserIs(s, step.tenantId, step.userId, u, Wanted(step.vehicle));
      var t := SaveUser(s, step.tenantId, step.userId, u, Wanted(step.vehicle));
      if t.result.Success? && u.role.DriverRole? {
        FollowsAndTakes(s, t.store, step, u);
      }
    }
  }

  lemma EditedIs(s: Store, step: Step, u: User)
    requires step.EditDriver? && step.userId in s.users && IsEdited(s.users[step.userId], u, step)
    ensures u == Edited(s, step)
    ensures Editable(s, step.tenantId, step.userId) <==> ManagedUser(s, step.tenantId, step.userId)
  {}

  lemma FollowsAndTakes(s: Store, t: Store, step: Step, u: User)
    requires Inv(s) && Allowed(s, step) && step.EditDriver? && step.f.id !in s.drivers && step.userId in s.users
    requires ManagedUser(s, step.tenantId, step.userId) && u == Edited(s, step) && u.role.DriverRole? && Present(u.username)
    requires SaveUser(s, step.tenantId, step.userId, u, Wanted(step.vehicle)) == Outcome(t, Success(()))
    requires t == s.(users := s.users[step.userId := u])
    ensures var r := SyncProjection(t, step.tenantId, u, step.f);
      && (r.result.Failure? <==> CannotFollow(s, step.tenantId, u, step.f.pick))
      && (r.result.Failure? ==> r == Outcome(t, Failure(UniqueViolation)))
      && r.store.users == t.users && NobodyMoves(s.drivers, r.store.drivers)
      && (r.result.Success? && step.vehicle.Set? ==>
            && step.g.pick.Some?
            && var o := SetAssignment(r.store, step.tenantId, u, step.vehicle.value, step.g);
               o.result.Success? && o.store.users == t.users
               && Takes(s.drivers, o.store.drivers, step.g.pick.value, step.vehicle.value))
  {
    SyncIs(t, step.tenantId, u, step.f);
    SyncKeeps(t, step.tenantId, u, step.f);
    var r := SyncProjection(t, step.tenantId, u, step.f);
    if r.result.Success? && step.vehicle.Set? {
      PickIsNewest(r.store.drivers, step.tenantId, u, step.g.pick);
      SetPicked(r.store, step.tenantId, u, step.vehicle.value, step.g);
      TakesFromBefore(s.drivers, r.store.drivers, SetAssignment(r.store, step.tenantId, u, step.vehicle.value, step.g).store.drivers,
        step.g.pick.value, step.vehicle.value);
    }
  }

  // ---------------------------------------------------------------- creating and editing a vehicle

  /** The user named is a driver of the tenant with a linked row, or one to whom a row can be given. */
  ghost predicate CanHold(s: Store, tenantId: string, userId: string) {
    && userId in s.users && s.users[userId].tenantId == tenantId && s.users[userId].role == DriverRole
    && !Blocked(s.drivers, tenantId, s.users[userId])
    && (Unlinked(s.drivers, tenantId, s.users[userId]) ==> Present(s.users[userId].username))
  }

  lemma CanHoldIff(s: Store, tenantId: string, userId: string)
    ensures CanHold(s, tenantId, userId) <==> !Unusable(s, tenantId, userId)
  {
    if userId in s.users {
      LinkedRows(s.drivers, tenantId, s.users[userId]);
    }
  }

  /** Nobody holds the vehicle. */
  ghost predicate Free(drivers: map<string, Driver>, vehicleId: string) {
    forall d :: d in drivers ==> drivers[d].assignedVehicleId != Some(vehicleId)
  }

  /** One row holds the vehicle, alone, and that row is linked to the user. */
  ghost predicate HeldFor(drivers: map<string, Driver>, tenantId: string, u: User, vehicleId: string) {
    exists id :: IsLinked(drivers, tenantId, u, id) && drivers[id].assignedVehicleId == Some(vehicleId)
      && forall d :: d in drivers && drivers[d].assignedVehicleId == Some(vehicleId) ==> d == id
  }

  /** Naming a driver for a vehicle: it ends with that driver alone, or, if the user named cannot hold it or none is
      named, with nobody; and the call fails exactly for such a user. */
  lemma NamingADriver(s: Store, tenantId: string, vehicleId: string, driverUserId: Option<string>, f: Fresh)
    requires Inv(s) && TenantVehicle(s, tenantId, vehicleId) && AssignAllowed(s, tenantId, vehicleId, driverUserId, f)
    requires f.id !in s.drivers
    ensures var o := AssignVehicle(s, tenantId, vehicleId, driverUserId, f);
      && (o.result.Failure? <==> driverUserId.Some? && !CanHold(s, tenantId, driverUserId.value))
      && (driverUserId.None? || o.result.Failure? ==> Free(o.store.drivers, vehicleId))
      && (driverUserId.Some? && o.result.Success? ==>
            driverUserId.value in s.users && HeldFor(o.store.drivers, tenantId, s.users[driverUserId.value], vehicleId))
  {
    AssignFailsIff(s, tenantId, vehicleId, driverUserId, f);
    AssignVehicleHolders(s, tenantId, vehicleId, driverUserId, f);
    var drivers := AssignVehicle(s, tenantId, vehicleId, driverUserId, f).store.drivers;
    var holders := Holders(drivers, vehicleId);
    if driverUserId.Some? {
      CanHoldIff(s, tenantId, driverUserId.value);
      if !Unusable(s, tenantId, driverUserId.value) {
        LinkedRows(drivers, tenantId, s.users[driverUserId.value]);
        OneOfOne(holders);
        var id :| id in holders;
        assert IsLinked(drivers, tenantId, s.users[driverUserId.value], id);
        assert forall d :: d in drivers && drivers[d].assignedVehicleId == Some(vehicleId) ==> d in holders;
      }
    }
    if holders == {} {
      assert forall d :: d in drivers && drivers[d].assignedVehicleId == Some(vehicleId) ==> d in holders;
    }
  }

  lemma OneOfOne(s: set<string>)
    requires s != {} && |s| <= 1
    ensures forall a, b :: a in s && b in s ==> a == b
  {
    var a :| a in s;
    assert s == {a} + (s - {a});
    assert |s| == 1 + |s - {a}|;
  }

  /** A new vehicle, and an edit that mentions a driver, end as naming that driver does; an edit that mentions none, or
      is of no vehicle of the tenant, changes nothing. */
  lemma VehicleStepNames(s: Store, step: Step)
    requires Inv(s) && Allowed(s, step) && (step.NewVehicle? || step.EditVehicle?) && step.f.id !in s.drivers
    ensures var t := Apply(s, step);
      var vehicleId := if step.NewVehicle? then step.newVehicleId else step.editedVehicleId;
      var named := if step.NewVehicle? then step.driverUserId else Wanted(step.driverUser);
      if step.EditVehicle? && (step.driverUser.Keep? || !TenantVehicle(s, step.tenantId, vehicleId)) then t == s
      else
        && TenantVehicle(t, step.tenantId, vehicleId)
        && (named.None? || !CanHold(s, step.tenantId, named.value) ==> Free(t.drivers, vehicleId))
        && (named.Some? && CanHold(s, step.tenantId, named.value) ==>
              HeldFor(t.drivers, step.tenantId, s.users[named.value], vehicleId))
  {
    if step.NewVehicle? {
      var t := s.(vehicles := s.vehicles[step.newVehicleId := step.tenantId]);
      assert Inv(t);
      NamingADriver(t, step.tenantId, step.newVehicleId, step.driverUserId, step.f);
      NotYetHeld(s, step.newVehicleId);
    } else if TenantVehicle(s, step.tenantId, step.editedVehicleId) && step.driverUser.Set? {
      NamingADriver(s, step.tenantId, step.editedVehicleId, step.driverUser.value, step.f);
    }
  }

  lemma NotYetHeld(s: Store, vehicleId: string)
    requires Inv(s) && vehicleId !in s.vehicles
    ensures Free(s.drivers, vehicleId)
  {
    forall d | d in s.drivers ensures s.drivers[d].assignedVehicleId != Some(vehicleId) {
      assert s.drivers[d].assignedVehicleId.Some? ==>
        TenantVehicle(s, s.drivers[d].tenantId, s.drivers[d].assignedVehicleId.value);
    }
  }
}
