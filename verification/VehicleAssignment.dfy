/** Which driver row holds which vehicle, under the driver and vehicle operations of
    master-data.service.ts. */
module VehicleAssignment {
  import opened Accounts
  import opened Common
  import Text

  datatype User = User(tenantId: string, role: Role, username: Option<string>, employeeNo: Option<string>)

  datatype Driver = Driver(
    tenantId: string, username: string, employeeNumber: Option<string>, createdAt: int, assignedVehicleId: Option<string>)

  /** Vehicles map to their tenant. */
  datatype Store = Store(users: map<string, User>, drivers: map<string, Driver>, vehicles: map<string, string>)

  datatype Error =
    | DriverNotFound | VehicleNotFound | UsernameRequired | VehicleOnlyForDrivers | UniqueViolation | ProjectionMissing

  datatype Outcome<T> = Outcome(store: Store, result: Result<T, Error>)

  /** A field of an update: left out, or given. */
  datatype Change<T> = Keep | Set(value: T)

  // ---------------------------------------------------------------- constraints and queries

  /** The unique indexes on (tenant, username) and (tenant, employee number); nulls do not clash. */
  predicate DriverFits(drivers: map<string, Driver>, id: string, d: Driver) {
    forall other :: other in drivers && other != id && drivers[other].tenantId == d.tenantId ==>
      && drivers[other].username != d.username
      && (d.employeeNumber.Some? ==> drivers[other].employeeNumber != d.employeeNumber)
  }

  predicate UserFits(users: map<string, User>, id: string, u: User) {
    forall other :: other in users && other != id && users[other].tenantId == u.tenantId ==>
      && (u.username.Some? ==> users[other].username != u.username)
      && (u.employeeNo.Some? ==> users[other].employeeNo != u.employeeNo)
  }

  function Projections(drivers: map<string, Driver>, tenantId: string, u: User): set<string> {
    set id | id in drivers && drivers[id].tenantId == tenantId
      && Links(u.username, u.employeeNo, drivers[id].username, drivers[id].employeeNumber)
  }

  /** A query for the newest linked row may answer any that none exceeds, and none only if there is none. */
  ghost predicate PicksNewest(drivers: map<string, Driver>, tenantId: string, u: User, pick: Option<string>) {
    var linked := Projections(drivers, tenantId, u);
    if pick.None? then linked == {}
    else pick.value in linked && forall id :: id in linked ==> drivers[id].createdAt <= drivers[pick.value].createdAt
  }

  // ---------------------------------------------------------------- the shared steps

  /** What a query picked and the row id and time a new row would get. */
  datatype Fresh = Fresh(pick: Option<string>, id: string, now: int)

  function EnsureProjection(s: Store, tenantId: string, u: User, f: Fresh): (o: Outcome<Option<string>>)
    ensures o.store.vehicles == s.vehicles
    ensures o.result.Success? && o.result.value.Some? ==> o.result.value.value in o.store.drivers
  {
    if f.pick.Some? && f.pick.value in s.drivers then Outcome(s, Success(f.pick))
    else if !Present(u.username) then Outcome(s, Success(None))
    else
      var d := Driver(tenantId, u.username.value, u.employeeNo, f.now, None);
      if !DriverFits(s.drivers, f.id, d) then Outcome(s, Failure(UniqueViolation))
      else Outcome(s.(drivers := s.drivers[f.id := d]), Success(Some(f.id)))
  }

  function ClearVehicle(drivers: map<string, Driver>, tenantId: string, vehicleId: string): map<string, Driver> {
    map id | id in drivers ::
      if drivers[id].tenantId == tenantId && drivers[id].assignedVehicleId == Some(vehicleId)
      then drivers[id].(assignedVehicleId := None)
      else drivers[id]
  }

  function Hold(drivers: map<string, Driver>, id: string, vehicleId: Option<string>): map<string, Driver>
    requires id in drivers
  {
    drivers[id := drivers[id].(assignedVehicleId := vehicleId)]
  }

  /** Give one driver row a vehicle or none: whoever holds the new vehicle, or for none the old one, loses it. */
  function Reassign(drivers: map<string, Driver>, tenantId: string, id: string, vehicleId: Option<string>): map<string, Driver>
    requires id in drivers
  {
    var freed := if vehicleId.Some? then vehicleId else drivers[id].assignedVehicleId;
    Hold(if freed.Some? then ClearVehicle(drivers, tenantId, freed.value) else drivers, id, vehicleId)
  }

  function SetAssignment(s: Store, tenantId: string, u: User, vehicleId: Option<string>, f: Fresh): (o: Outcome<()>)
    ensures o.store.vehicles == s.vehicles
  {
    var e := EnsureProjection(s, tenantId, u, f);
    if e.result.Failure? then Outcome(e.store, Failure(e.result.error))
    else if e.result.value.None? then Outcome(e.store, Success(()))
    else Outcome(e.store.(drivers := Reassign(e.store.drivers, tenantId, e.result.value.value, vehicleId)), Success(()))
  }

  /** The vehicle is freed first; the checks on the driver come after that write. */
  function AssignVehicle(s: Store, tenantId: string, vehicleId: string, driverUserId: Option<string>, f: Fresh): (o: Outcome<()>)
    ensures o.store.vehicles == s.vehicles
  {
    var c := s.(drivers := ClearVehicle(s.drivers, tenantId, vehicleId));
    if driverUserId.None? then Outcome(c, Success(()))
    else if !IsDriverUser(s, tenantId, driverUserId.value) then Outcome(c, Failure(DriverNotFound))
    else
      var e := EnsureProjection(c, tenantId, s.users[driverUserId.value], f);
      if e.result.Failure? then Outcome(e.store, Failure(e.result.error))
      else if e.result.value.None? then Outcome(e.store, Failure(ProjectionMissing))
      else Outcome(e.store.(drivers := Hold(e.store.drivers, e.result.value.value, Some(vehicleId))), Success(()))
  }

  predicate IsDriverUser(s: Store, tenantId: string, userId: string) {
    userId in s.users && s.users[userId].tenantId == tenantId && s.users[userId].role.DriverRole?
  }

  predicate TenantVehicle(s: Store, tenantId: string, vehicleId: string) {
    vehicleId in s.vehicles && s.vehicles[vehicleId] == tenantId
  }

  // ---------------------------------------------------------------- the four operations

  function CheckDriverInput(s: Store, tenantId: string, username: string, role: Role, vehicleId: Option<string>): Option<Error> {
    if username == "" then Some(UsernameRequired)
    else if vehicleId.Some? && !TenantVehicle(s, tenantId, vehicleId.value) then Some(VehicleNotFound)
    else if !role.DriverRole? && vehicleId.Some? then Some(VehicleOnlyForDrivers)
    else None
  }

  function CleanUsername(entered: string): string { Text.ToLower(Text.Trim(entered)) }

  function CleanEmployeeNo(entered: Option<string>): Option<string> {
    if entered.Some? && Text.Trim(entered.value) != "" then Some(Text.Trim(entered.value)) else None
  }

  function NewUser(tenantId: string, role: Role, username: string, employeeNo: Option<string>): User {
    User(tenantId, role, Some(CleanUsername(username)), CleanEmployeeNo(employeeNo))
  }

  /** A checked user row, and whether it may be stored. */
  function SaveUser(s: Store, tenantId: string, userId: string, u: User, vehicleId: Option<string>): (o: Outcome<()>)
    ensures o.store.vehicles == s.vehicles
  {
    var error := CheckDriverInput(s, tenantId, u.username.GetOr(""), u.role, vehicleId);
    if error.Some? then Outcome(s, Failure(error.value))
    else if !UserFits(s.users, userId, u) then Outcome(s, Failure(UniqueViolation))
    else Outcome(s.(users := s.users[userId := u]), Success(()))
  }

  function CreateMasterDriver(
    s: Store, tenantId: string, userId: string, u: User, vehicleId: Option<string>, f: Fresh, g: Fresh): (o: Outcome<()>)
    ensures o.store.vehicles == s.vehicles
  {
    var t := SaveUser(s, tenantId, userId, u, vehicleId);
    if t.result.Failure? || !u.role.DriverRole? then t
    else
      var e := EnsureProjection(t.store, tenantId, u, f);
      if e.result.Failure? then Outcome(e.store, Failure(e.result.error))
      else SetAssignment(e.store, tenantId, u, vehicleId, g)
  }

  function NextUser(u: User, role: Change<Role>, username: Change<string>, employeeNo: Change<Option<string>>): User {
    u.(role := if role.Set? then role.value else u.role,
       username := if username.Set? then Some(CleanUsername(username.value)) else u.username,
       employeeNo := if employeeNo.Set? then CleanEmployeeNo(employeeNo.value) else u.employeeNo)
  }

  function Wanted(vehicle: Change<Option<string>>): Option<string> {
    if vehicle.Set? then vehicle.value else None
  }

  /** The driver row takes over the user's keys. */
  function SyncProjection(s: Store, tenantId: string, u: User, f: Fresh): (o: Outcome<()>)
    ensures o.store.vehicles == s.vehicles
  {
    var e := EnsureProjection(s, tenantId, u, f);
    if e.result.Failure? then Outcome(e.store, Failure(e.result.error))
    else if e.result.value.None? then Outcome(e.store, Success(()))
    else
      var id := e.result.value.value;
      var d := e.store.drivers[id].(username := u.username.GetOr(""), employeeNumber := u.employeeNo);
      if DriverFits(e.store.drivers, id, d) then Outcome(e.store.(drivers := e.store.drivers[id := d]), Success(()))
      else Outcome(e.store, Failure(UniqueViolation))
  }

  predicate ManagedUser(s: Store, tenantId: string, userId: string) {
    userId in s.users && s.users[userId].tenantId == tenantId && Managed(s.users[userId].role)
  }

  function UpdateMasterDriver(
    s: Store, tenantId: string, userId: string, role: Change<Role>, username: Change<string>,
    employeeNo: Change<Option<string>>, vehicle: Change<Option<string>>, f: Fresh, g: Fresh): (o: Outcome<()>)
    ensures o.store.vehicles == s.vehicles
  {
    if !ManagedUser(s, tenantId, userId) then Outcome(s, Failure(DriverNotFound))
    else
      var u := NextUser(s.users[userId], role, username, employeeNo);
      var t := SaveUser(s, tenantId, userId, u, Wanted(vehicle));
      if t.result.Failure? || !u.role.DriverRole? then t
      else
        var r := SyncProjection(t.store, tenantId, u, f);
        if r.result.Failure? || vehicle.Keep? then r
        else SetAssignment(r.store, tenantId, u, vehicle.value, g)
  }

  function CreateMasterVehicle(s: Store, tenantId: string, vehicleId: string, driverUserId: Option<string>, f: Fresh): Outcome<()> {
    var t := s.(vehicles := s.vehicles[vehicleId := tenantId]);
    if driverUserId.None? then Outcome(t, Success(())) else AssignVehicle(t, tenantId, vehicleId, driverUserId, f)
  }

  function UpdateMasterVehicle(s: Store, tenantId: string, vehicleId: string, driverUser: Change<Option<string>>, f: Fresh): Outcome<()> {
    if !TenantVehicle(s, tenantId, vehicleId) then Outcome(s, Failure(VehicleNotFound))
    else if driverUser.Keep? then Outcome(s, Success(()))
    else AssignVehicle(s, tenantId, vehicleId, driverUser.value, f)
  }

  /** The tables, changed in place, one write after another and without a transaction. */
  class FleetTables {
    var users: map<string, User>
    var drivers: map<string, Driver>
    var vehicles: map<string, string>

    ghost function Contents(): Store
      reads this
    {
      Store(users, drivers, vehicles)
    }

    constructor ()
      ensures Contents() == Store(map[], map[], map[])
    {
      users, drivers, vehicles := map[], map[], map[];
    }

    method GetDriverProjectionForUser(tenantId: string, u: User) returns (pick: Option<string>)
      ensures PicksNewest(drivers, tenantId, u, pick)
    {
      pick := None;
      if !Present(u.username) && !Present(u.employeeNo) {
        return;
      }
      var linked := Projections(drivers, tenantId, u);
      var rest := linked;
      while rest != {}
        invariant rest <= linked
        invariant pick.None? ==> rest == linked
        invariant pick.Some? ==> pick.value in linked - rest
        invariant pick.Some? ==> forall id :: id in linked - rest ==> drivers[id].createdAt <= drivers[pick.value].createdAt
        decreases |rest|
      {
        var id :| id in rest;
        if pick.None? || drivers[pick.value].createdAt < drivers[id].createdAt {
          pick := Some(id);
        }
        rest := rest - {id};
      }
    }

    method EnsureDriverProjection(tenantId: string, u: User, id: string, now: int)
      returns (result: Result<Option<string>, Error>, ghost f: Fresh)
      modifies `drivers
      ensures PicksNewest(old(drivers), tenantId, u, f.pick) && f.id == id && f.now == now
      ensures Outcome(Contents(), result) == EnsureProjection(old(Contents()), tenantId, u, f)
    {
      var existing := GetDriverProjectionForUser(tenantId, u);
      f := Fresh(existing, id, now);
      if existing.Some? {
        return Success(existing), f;
      }
      if !Present(u.username) {
        return Success(None), f;
      }
      var d := Driver(tenantId, u.username.value, u.employeeNo, now, None);
      if !DriverFits(drivers, id, d) {
        return Failure(UniqueViolation), f;
      }
      drivers := drivers[id := d];
      return Success(Some(id)), f;
    }

    method SetDriverVehicleAssignment(tenantId: string, u: User, vehicleId: Option<string>, id: string, now: int)
      returns (result: Result<(), Error>, ghost f: Fresh)
      modifies `drivers
      ensures PicksNewest(old(drivers), tenantId, u, f.pick)
      ensures Outcome(Contents(), result) == SetAssignment(old(Contents()), tenantId, u, vehicleId, f)
    {
      var projection;
      projection, f := EnsureDriverProjection(tenantId, u, id, now);
      if projection.Failure? {
        return Failure(projection.error), f;
      }
      if projection.value.None? {
        return Success(()), f;
      }
      var at := projection.value.value;
      var held := drivers[at].assignedVehicleId;
      if vehicleId.Some? {
        drivers := ClearVehicle(drivers, tenantId, vehicleId.value);
      } else if held.Some? {
        drivers := ClearVehicle(drivers, tenantId, held.value);
      }
      drivers := drivers[at := drivers[at].(assignedVehicleId := vehicleId)];
      return Success(()), f;
    }

    method AssignVehicleToDriverUser(tenantId: string, vehicleId: string, driverUserId: Option<string>, id: string, now: int)
      returns (result: Result<(), Error>, ghost f: Fresh)
      modifies `drivers
      ensures AssignAllowed(old(Contents()), tenantId, vehicleId, driverUserId, f)
      ensures Outcome(Contents(), result) == AssignVehicle(old(Contents()), tenantId, vehicleId, driverUserId, f)
    {
      f := Fresh(None, id, now);
      drivers := ClearVehicle(drivers, tenantId, vehicleId);
      if driverUserId.None? {
        return Success(()), f;
      }
      var userId := driverUserId.value;
      if userId !in users || users[userId].tenantId != tenantId || !users[userId].role.DriverRole? {
        return Failure(DriverNotFound), f;
      }
      var projection;
      projection, f := EnsureDriverProjection(tenantId, users[userId], id, now);
      if projection.Failure? {
        return Failure(projection.error), f;
      }
      if projection.value.None? {
        return Failure(ProjectionMissing), f;
      }
      var at := projection.value.value;
      drivers := drivers[at := drivers[at].(assignedVehicleId := Some(vehicleId))];
      return Success(()), f;
    }

    method CreateDriver(
      tenantId: string, userId: string, role: Role, username: string, employeeNo: Option<string>,
      vehicleId: Option<string>, id: string, now: int)
      returns (result: Result<(), Error>, ghost f: Fresh, ghost g: Fresh)
      modifies this
      ensures Allowed(old(Contents()), NewDriver(tenantId, userId, role, username, employeeNo, vehicleId, f, g))
      ensures Outcome(Contents(), result) ==
        CreateMasterDriver(old(Contents()), tenantId, userId, NewUser(tenantId, role, username, employeeNo), vehicleId, f, g)
    {
      f, g := Fresh(None, id, now), Fresh(None, id, now);
      var u := NewUser(tenantId, role, username, employeeNo);
      result := StoreUser(tenantId, userId, u, vehicleId);
      if result.Failure? || !role.DriverRole? {
        return;
      }
      var projection;
      projection, f := EnsureDriverProjection(tenantId, u, id, now);
      if projection.Failure? {
        return Failure(projection.error), f, g;
      }
      result, g := SetDriverVehicleAssignment(tenantId, u, vehicleId, id, now);
    }

    method StoreUser(tenantId: string, userId: string, u: User, vehicleId: Option<string>) returns (result: Result<(), Error>)
      modifies `users
      ensures Outcome(Contents(), result) == SaveUser(old(Contents()), tenantId, userId, u, vehicleId)
    {
      if u.username.GetOr("") == "" {
        return Failure(UsernameRequired);
      }
      if vehicleId.Some? && (vehicleId.value !in vehicles || vehicles[vehicleId.value] != tenantId) {
        return Failure(VehicleNotFound);
      }
      if !u.role.DriverRole? && vehicleId.Some? {
        return Failure(VehicleOnlyForDrivers);
      }
      if !UserFits(users, userId, u) {
        return Failure(UniqueViolation);
      }
      users := users[userId := u];
      return Success(());
    }

    method SyncDriver(tenantId: string, u: User, id: string, now: int) returns (result: Result<(), Error>, ghost f: Fresh)
      modifies `drivers
      ensures PicksNewest(old(drivers), tenantId, u, f.pick)
      ensures Outcome(Contents(), result) == SyncProjection(old(Contents()), tenantId, u, f)
    {
      var projection;
      projection, f := EnsureDriverProjection(tenantId, u, id, now);
      if projection.Failure? {
        return Failure(projection.error), f;
      }
      if projection.value.Some? {
        var at := projection.value.value;
        var d := drivers[at].(username := u.username.GetOr(""), employeeNumber := u.employeeNo);
        if !DriverFits(drivers, at, d) {
          return Failure(UniqueViolation), f;
        }
        drivers := drivers[at := d];
      }
      return Success(()), f;
    }

    method UpdateDriver(
      tenantId: string, userId: string, role: Change<Role>, username: Change<string>,
      employeeNo: Change<Option<string>>, vehicle: Change<Option<string>>, id: string, now: int)
      returns (result: Result<(), Error>, ghost f: Fresh, ghost g: Fresh)
      modifies this
      ensures Allowed(old(Contents()), EditDriver(tenantId, userId, role, username, employeeNo, vehicle, f, g))
      ensures Outcome(Contents(), result) ==
        UpdateMasterDriver(old(Contents()), tenantId, userId, role, username, employeeNo, vehicle, f, g)
    {
      f, g := Fresh(None, id, now), Fresh(None, id, now);
      if userId !in users || users[userId].tenantId != tenantId || !Managed(users[userId].role) {
        return Failure(DriverNotFound), f, g;
      }
      var u := NextUser(users[userId], role, username, employeeNo);
      result := StoreUser(tenantId, userId, u, Wanted(vehicle));
      if result.Failure? || !u.role.DriverRole? {
        return;
      }
      result, f := SyncDriver(tenantId, u, id, now);
      if result.Failure? {
        return;
      }
      if vehicle.Set? {
        result, g := SetDriverVehicleAssignment(tenantId, u, vehicle.value, id, now);
      }
    }

    method CreateVehicle(tenantId: string, vehicleId: string, driverUserId: Option<string>, id: string, now: int)
      returns (result: Result<(), Error>, ghost f: Fresh)
      requires vehicleId !in vehicles
      modifies this
      ensures Allowed(old(Contents()), NewVehicle(tenantId, vehicleId, driverUserId, f))
      ensures Outcome(Contents(), result) == CreateMasterVehicle(old(Contents()), tenantId, vehicleId, driverUserId, f)
    {
      f := Fresh(None, id, now);
      vehicles := vehicles[vehicleId := tenantId];
      if driverUserId.Some? {
        result, f := AssignVehicleToDriverUser(tenantId, vehicleId, driverUserId, id, now);
      } else {
        result := Success(());
      }
    }

    method UpdateVehicle(tenantId: string, vehicleId: string, driverUser: Change<Option<string>>, id: string, now: int)
      returns (result: Result<(), Error>, ghost f: Fresh)
      modifies this
      ensures Allowed(old(Contents()), EditVehicle(tenantId, vehicleId, driverUser, f))
      ensures Outcome(Contents(), result) == UpdateMasterVehicle(old(Contents()), tenantId, vehicleId, driverUser, f)
    {
      f := Fresh(None, id, now);
      if vehicleId !in vehicles || vehicles[vehicleId] != tenantId {
        return Failure(VehicleNotFound), f;
      }
      if driverUser.Set? {
        result, f := AssignVehicleToDriverUser(tenantId, vehicleId, driverUser.value, id, now);
      } else {
        result := Success(());
      }
    }
  }

  // ---------------------------------------------------------------- runs

  /** The four operations, and edits elsewhere that leave each row's tenant and vehicle alone. */
  datatype Step =
    | NewDriver(tenantId: string, userId: string, role: Role, username: string, employeeNo: Option<string>,
                vehicleId: Option<string>, f: Fresh, g: Fresh)
    | EditDriver(tenantId: string, userId: string, nextRole: Change<Role>, nextUsername: Change<string>,
                 nextEmployeeNo: Change<Option<string>>, vehicle: Change<Option<string>>, f: Fresh, g: Fresh)
    | NewVehicle(tenantId: string, newVehicleId: string, driverUserId: Option<string>, f: Fresh)
    | EditVehicle(tenantId: string, editedVehicleId: string, driverUser: Change<Option<string>>, f: Fresh)
    | Elsewhere(users: map<string, User>, drivers: map<string, Driver>)

  function Apply(s: Store, step: Step): Store {
    match step
    case NewDriver(tenantId, userId, role, username, employeeNo, vehicleId, f, g) =>
      CreateMasterDriver(s, tenantId, userId, NewUser(tenantId, role, username, employeeNo), vehicleId, f, g).store
    case EditDriver(tenantId, userId, role, username, employeeNo, vehicle, f, g) =>
      UpdateMasterDriver(s, tenantId, userId, role, username, employeeNo, vehicle, f, g).store
    case NewVehicle(tenantId, vehicleId, driverUserId, f) =>
      CreateMasterVehicle(s, tenantId, vehicleId, driverUserId, f).store
    case EditVehicle(tenantId, vehicleId, driverUser, f) =>
      UpdateMasterVehicle(s, tenantId, vehicleId, driverUser, f).store
    case Elsewhere(users, drivers) => s.(users := users, drivers := drivers)
  }

  ghost predicate AssignAllowed(s: Store, tenantId: string, vehicleId: string, driverUserId: Option<string>, f: Fresh) {
    driverUserId.Some? && IsDriverUser(s, tenantId, driverUserId.value) ==>
      PicksNewest(ClearVehicle(s.drivers, tenantId, vehicleId), tenantId, s.users[driverUserId.value], f.pick)
  }

  ghost predicate Allowed(s: Store, step: Step) {
    match step
    case NewDriver(tenantId, userId, role, username, employeeNo, vehicleId, f, g) =>
      var u := NewUser(tenantId, role, username, employeeNo);
      var t := SaveUser(s, tenantId, userId, u, vehicleId);
      t.result.Success? && role.DriverRole? ==>
        && PicksNewest(s.drivers, tenantId, u, f.pick)
        && (var e := EnsureProjection(t.store, tenantId, u, f);
            e.result.Success? ==> PicksNewest(e.store.drivers, tenantId, u, g.pick))
    case EditDriver(tenantId, userId, role, username, employeeNo, vehicle, f, g) =>
      ManagedUser(s, tenantId, userId) ==>
        var u := NextUser(s.users[userId], role, username, employeeNo);
        var t := SaveUser(s, tenantId, userId, u, Wanted(vehicle));
        t.result.Success? && u.role.DriverRole? ==>
          && PicksNewest(s.drivers, tenantId, u, f.pick)
          && (var r := SyncProjection(t.store, tenantId, u, f);
              r.result.Success? && vehicle.Set? ==> PicksNewest(r.store.drivers, tenantId, u, g.pick))
    case NewVehicle(tenantId, vehicleId, driverUserId, f) =>
      vehicleId !in s.vehicles && AssignAllowed(s, tenantId, vehicleId, driverUserId, f)
    case EditVehicle(tenantId, vehicleId, driverUser, f) =>
      TenantVehicle(s, tenantId, vehicleId) && driverUser.Set? ==> AssignAllowed(s, tenantId, vehicleId, driverUser.value, f)
    case Elsewhere(users, drivers) =>
      && drivers.Keys == s.drivers.Keys && Unique(drivers)
      && forall id :: id in drivers ==>
           drivers[id].tenantId == s.drivers[id].tenantId && drivers[id].assignedVehicleId == s.drivers[id].assignedVehicleId
  }

  function RunFrom(s: Store, steps: seq<Step>): Store
    decreases |steps|
  {
    if steps == [] then s else RunFrom(Apply(s, steps[0]), steps[1..])
  }

  ghost predicate ValidRun(s: Store, steps: seq<Step>)
    decreases |steps|
  {
    steps != [] ==> Allowed(s, steps[0]) && ValidRun(Apply(s, steps[0]), steps[1..])
  }

  ghost predicate Unique(drivers: map<string, Driver>) {
    forall id :: id in drivers ==> DriverFits(drivers, id, drivers[id])
  }

  ghost predicate NoSharing(drivers: map<string, Driver>) {
    forall a, b :: a in drivers && b in drivers && a != b && drivers[a].assignedVehicleId.Some? ==>
      drivers[a].assignedVehicleId != drivers[b].assignedVehicleId
  }

  ghost predicate OwnTenant(s: Store) {
    forall id :: id in s.drivers && s.drivers[id].assignedVehicleId.Some? ==>
      TenantVehicle(s, s.drivers[id].tenantId, s.drivers[id].assignedVehicleId.value)
  }

  ghost predicate Inv(s: Store) {
    Unique(s.drivers) && NoSharing(s.drivers) && OwnTenant(s)
  }

  // ---------------------------------------------------------------- what the shared steps do to the holdings

  ghost function Holders(drivers: map<string, Driver>, vehicleId: string): set<string> {
    set id | id in drivers && drivers[id].assignedVehicleId == Some(vehicleId)
  }

  ghost function Held(drivers: map<string, Driver>): set<string> {
    set id | id in drivers && drivers[id].assignedVehicleId.Some? :: drivers[id].assignedVehicleId.value
  }

  function AsSet(o: Option<string>): set<string> { if o.Some? then {o.value} else {} }

  /** Row `id` now has the vehicle or none, and of the others only a holder of that vehicle lost it. */
  ghost predicate Moved(a: map<string, Driver>, b: map<string, Driver>, id: string, vehicleId: Option<string>) {
    && b.Keys == a.Keys && id in a
    && forall other :: other in a ==> b[other] == a[other].(assignedVehicleId :=
         if other == id then vehicleId
         else if vehicleId.Some? && a[other].assignedVehicleId == vehicleId then None
         else a[other].assignedVehicleId)
  }

  /** Reassigning touches the named row, and of the others only a holder of the new vehicle. */
  lemma ReassignMoves(s: Store, tenantId: string, id: string, vehicleId: Option<string>)
    requires NoSharing(s.drivers) && OwnTenant(s) && id in s.drivers && s.drivers[id].tenantId == tenantId
    requires vehicleId.Some? ==> TenantVehicle(s, tenantId, vehicleId.value)
    ensures Moved(s.drivers, Reassign(s.drivers, tenantId, id, vehicleId), id, vehicleId)
  {
    var freed := if vehicleId.Some? then vehicleId else s.drivers[id].assignedVehicleId;
    forall other | other in s.drivers && other != id && freed.Some? && s.drivers[other].assignedVehicleId == freed
      ensures s.drivers[other].tenantId == tenantId && vehicleId.Some?
    {
      assert TenantVehicle(s, s.drivers[other].tenantId, freed.value);
    }
  }

  /** Of all vehicles only the row's old one is freed, and only the new one is taken. */
  lemma OneVehicleMoves(a: map<string, Driver>, b: map<string, Driver>, id: string, vehicleId: Option<string>)
    requires NoSharing(a) && Moved(a, b, id, vehicleId)
    ensures Held(b) == Held(a) - AsSet(a[id].assignedVehicleId) + AsSet(vehicleId)
  {
    var expected := Held(a) - AsSet(a[id].assignedVehicleId) + AsSet(vehicleId);
    forall v ensures v in Held(b) <==> v in expected {
      if v in Held(b) {
        var d :| d in b && b[d].assignedVehicleId == Some(v);
        assert d != id ==> a[d].assignedVehicleId == Some(v);
      }
      if vehicleId == Some(v) {
        assert b[id].assignedVehicleId == Some(v);
      } else if v in expected {
        var d :| d in a && a[d].assignedVehicleId == Some(v);
        assert b[d].assignedVehicleId == Some(v);
      }
    }
  }

  lemma MoveKeeps(s: Store, t: Store, id: string, vehicleId: Option<string>)
    requires NoSharing(s.drivers) && OwnTenant(s) && Moved(s.drivers, t.drivers, id, vehicleId) && t.vehicles == s.vehicles
    requires vehicleId.Some? ==> TenantVehicle(s, s.drivers[id].tenantId, vehicleId.value)
    ensures NoSharing(t.drivers) && OwnTenant(t)
  {}

  lemma StoringKeepsUnique(drivers: map<string, Driver>, id: string, d: Driver)
    requires Unique(drivers) && DriverFits(drivers, id, d)
    ensures Unique(drivers[id := d])
  {
    var t := drivers[id := d];
    forall other | other in t ensures DriverFits(t, other, t[other]) {
      if other != id {
        assert DriverFits(drivers, other, drivers[other]);
      }
    }
  }

  lemma RenamingKeeps(s: Store, id: string, d: Driver)
    requires Inv(s) && id in s.drivers && DriverFits(s.drivers, id, d)
    requires d.tenantId == s.drivers[id].tenantId && d.assignedVehicleId == s.drivers[id].assignedVehicleId
    ensures Inv(s.(drivers := s.drivers[id := d]))
  {
    StoringKeepsUnique(s.drivers, id, d);
  }

  lemma EnsureKeeps(s: Store, tenantId: string, u: User, f: Fresh)
    requires Inv(s) && PicksNewest(s.drivers, tenantId, u, f.pick)
    ensures var e := EnsureProjection(s, tenantId, u, f);
      && Inv(e.store) && e.store.vehicles == s.vehicles && e.store.users == s.users
      && (e.result.Success? && e.result.value.Some? ==> e.store.drivers[e.result.value.value].tenantId == tenantId)
  {
    var e := EnsureProjection(s, tenantId, u, f);
    if e.store != s {
      StoringKeepsUnique(s.drivers, f.id, e.store.drivers[f.id]);
    }
  }

  lemma ReassignKeeps(s: Store, tenantId: string, id: string, vehicleId: Option<string>)
    requires Inv(s) && id in s.drivers && s.drivers[id].tenantId == tenantId
    requires vehicleId.Some? ==> TenantVehicle(s, tenantId, vehicleId.value)
    ensures Inv(s.(drivers := Reassign(s.drivers, tenantId, id, vehicleId)))
  {
    var t := s.(drivers := Reassign(s.drivers, tenantId, id, vehicleId));
    ReassignMoves(s, tenantId, id, vehicleId);
    MoveKeeps(s, t, id, vehicleId);
    SameKeysStayUnique(s.drivers, t.drivers);
  }

  lemma SameKeysStayUnique(a: map<string, Driver>, b: map<string, Driver>)
    requires Unique(a) && a.Keys == b.Keys
    requires forall id :: id in a ==> b[id] == a[id].(assignedVehicleId := b[id].assignedVehicleId)
    ensures Unique(b)
  {
    forall id | id in b ensures DriverFits(b, id, b[id]) {
      assert DriverFits(a, id, a[id]);
    }
  }

  lemma SetAssignmentKeeps(s: Store, tenantId: string, u: User, vehicleId: Option<string>, f: Fresh)
    requires Inv(s) && PicksNewest(s.drivers, tenantId, u, f.pick)
    requires vehicleId.Some? ==> TenantVehicle(s, tenantId, vehicleId.value)
    ensures Inv(SetAssignment(s, tenantId, u, vehicleId, f).store)
  {
    EnsureKeeps(s, tenantId, u, f);
    var e := EnsureProjection(s, tenantId, u, f);
    if e.result.Success? && e.result.value.Some? {
      ReassignKeeps(e.store, tenantId, e.result.value.value, vehicleId);
    }
  }

  lemma ClearKeeps(s: Store, tenantId: string, vehicleId: string)
    requires Inv(s) && TenantVehicle(s, tenantId, vehicleId)
    ensures Inv(s.(drivers := ClearVehicle(s.drivers, tenantId, vehicleId)))
    ensures Holders(ClearVehicle(s.drivers, tenantId, vehicleId), vehicleId) == {}
  {
    var t := ClearVehicle(s.drivers, tenantId, vehicleId);
    SameKeysStayUnique(s.drivers, t);
    forall id | id in t ensures t[id].assignedVehicleId != Some(vehicleId) {
      if s.drivers[id].assignedVehicleId == Some(vehicleId) {
        assert TenantVehicle(s, s.drivers[id].tenantId, vehicleId);
      }
    }
  }

  lemma HoldKeeps(s: Store, id: string, vehicleId: string)
    requires Inv(s) && id in s.drivers && TenantVehicle(s, s.drivers[id].tenantId, vehicleId)
    requires Holders(s.drivers, vehicleId) == {}
    ensures Inv(s.(drivers := Hold(s.drivers, id, Some(vehicleId))))
    ensures Holders(Hold(s.drivers, id, Some(vehicleId)), vehicleId) == {id}
  {
    var t := Hold(s.drivers, id, Some(vehicleId));
    SameKeysStayUnique(s.drivers, t);
    assert forall d :: d in s.drivers ==> d !in Holders(s.drivers, vehicleId);
  }

  lemma AssignVehicleKeeps(s: Store, tenantId: string, vehicleId: string, driverUserId: Option<string>, f: Fresh)
    requires Inv(s) && TenantVehicle(s, tenantId, vehicleId) && AssignAllowed(s, tenantId, vehicleId, driverUserId, f)
    ensures var o := AssignVehicle(s, tenantId, vehicleId, driverUserId, f);
      && Inv(o.store)
      && (Holders(o.store.drivers, vehicleId) == {} <==> driverUserId.None? || o.result.Failure?)
  {
    ClearKeeps(s, tenantId, vehicleId);
    var c := s.(drivers := ClearVehicle(s.drivers, tenantId, vehicleId));
    if driverUserId.Some? && IsDriverUser(s, tenantId, driverUserId.value) {
      EnsureKeeps(c, tenantId, s.users[driverUserId.value], f);
      var e := EnsureProjection(c, tenantId, s.users[driverUserId.value], f);
      assert Holders(e.store.drivers, vehicleId) == {} by {
        assert forall d :: d in c.drivers ==> d !in Holders(c.drivers, vehicleId);
      }
      if e.result.Success? && e.result.value.Some? {
        HoldKeeps(e.store, e.result.value.value, vehicleId);
      }
    }
  }

  /** Some driver row of the tenant has the empty employee number. */
  predicate EmptyNumberTaken(drivers: map<string, Driver>, tenantId: string) {
    exists id :: id in drivers && drivers[id].tenantId == tenantId && drivers[id].employeeNumber == Some("")
  }

  /** A named user to whom no vehicle can be given: no driver of the tenant, or no driver row is linked and none
      can be made, for want of a user name or because an empty employee number is taken. */
  predicate Unusable(s: Store, tenantId: string, userId: string) {
    || !IsDriverUser(s, tenantId, userId)
    || (Projections(s.drivers, tenantId, s.users[userId]) == {}
        && (!Present(s.users[userId].username)
            || (s.users[userId].employeeNo == Some("") && EmptyNumberTaken(s.drivers, tenantId))))
  }

  lemma ClearingKeepsLinks(drivers: map<string, Driver>, tenantId: string, vehicleId: string, u: User)
    ensures var c := ClearVehicle(drivers, tenantId, vehicleId);
      && c.Keys == drivers.Keys && Projections(c, tenantId, u) == Projections(drivers, tenantId, u)
      && (EmptyNumberTaken(c, tenantId) <==> EmptyNumberTaken(drivers, tenantId))
  {
    var c := ClearVehicle(drivers, tenantId, vehicleId);
    if EmptyNumberTaken(drivers, tenantId) {
      var id :| id in drivers && drivers[id].tenantId == tenantId && drivers[id].employeeNumber == Some("");
      assert c[id].employeeNumber == Some("");
    }
  }

  /** A row for an unlinked user with a name clashes with another only over an empty employee number. */
  lemma NewRowFitsIff(drivers: map<string, Driver>, tenantId: string, u: User, f: Fresh)
    requires f.id !in drivers && Present(u.username) && Projections(drivers, tenantId, u) == {}
    ensures DriverFits(drivers, f.id, Driver(tenantId, u.username.value, u.employeeNo, f.now, None))
      <==> !(u.employeeNo == Some("") && EmptyNumberTaken(drivers, tenantId))
  {
    forall id | id in drivers && drivers[id].tenantId == tenantId
      ensures drivers[id].username != u.username.value
      ensures Present(u.employeeNo) ==> drivers[id].employeeNumber != u.employeeNo
    {
      assert id !in Projections(drivers, tenantId, u);
    }
  }

  /** The call fails exactly if it names a user who is unusable before it. */
  lemma AssignFailsIff(s: Store, tenantId: string, vehicleId: string, driverUserId: Option<string>, f: Fresh)
    requires AssignAllowed(s, tenantId, vehicleId, driverUserId, f) && f.id !in s.drivers
    ensures AssignVehicle(s, tenantId, vehicleId, driverUserId, f).result.Failure?
      <==> driverUserId.Some? && Unusable(s, tenantId, driverUserId.value)
  {
    if driverUserId.Some? && IsDriverUser(s, tenantId, driverUserId.value) {
      var u := s.users[driverUserId.value];
      var c := ClearVehicle(s.drivers, tenantId, vehicleId);
      ClearingKeepsLinks(s.drivers, tenantId, vehicleId, u);
      if f.pick.None? && Present(u.username) {
        NewRowFitsIff(c, tenantId, u, f);
      }
    }
  }

  lemma HolderIsLinked(s: Store, tenantId: string, vehicleId: string, driverUserId: Option<string>, f: Fresh)
    requires Inv(s) && TenantVehicle(s, tenantId, vehicleId) && AssignAllowed(s, tenantId, vehicleId, driverUserId, f)
    ensures var o := AssignVehicle(s, tenantId, vehicleId, driverUserId, f);
      driverUserId.Some? && o.result.Success? ==>
        Holders(o.store.drivers, vehicleId) <= Projections(o.store.drivers, tenantId, s.users[driverUserId.value])
  {
    ClearKeeps(s, tenantId, vehicleId);
    if driverUserId.Some? && IsDriverUser(s, tenantId, driverUserId.value) {
      var c, u := s.(drivers := ClearVehicle(s.drivers, tenantId, vehicleId)), s.users[driverUserId.value];
      var e := EnsureProjection(c, tenantId, u, f);
      assert forall d :: d in c.drivers ==> d !in Holders(c.drivers, vehicleId);
      if e.result.Success? && e.result.value.Some? {
        assert e.result.value.value in Projections(e.store.drivers, tenantId, u);
      }
    }
  }

  /** Nobody holds the vehicle after the call exactly if no driver or an unusable user was named; else the
      named driver's row holds it alone. */
  lemma AssignVehicleHolders(s: Store, tenantId: string, vehicleId: string, driverUserId: Option<string>, f: Fresh)
    requires Inv(s) && TenantVehicle(s, tenantId, vehicleId) && AssignAllowed(s, tenantId, vehicleId, driverUserId, f)
    requires f.id !in s.drivers
    ensures var t := AssignVehicle(s, tenantId, vehicleId, driverUserId, f).store;
      && (Holders(t.drivers, vehicleId) == {} <==> driverUserId.None? || Unusable(s, tenantId, driverUserId.value))
      && |Holders(t.drivers, vehicleId)| <= 1
      && (driverUserId.Some? && !Unusable(s, tenantId, driverUserId.value) ==>
            Holders(t.drivers, vehicleId) <= Projections(t.drivers, tenantId, s.users[driverUserId.value]))
  {
    AssignVehicleKeeps(s, tenantId, vehicleId, driverUserId, f);
    AssignFailsIff(s, tenantId, vehicleId, driverUserId, f);
    HolderIsLinked(s, tenantId, vehicleId, driverUserId, f);
    var holders := Holders(AssignVehicle(s, tenantId, vehicleId, driverUserId, f).store.drivers, vehicleId);
    if id :| id in holders {
      assert holders == {id};
    }
  }

  /** A driver who held the vehicle loses it to a call that names an unusable user and fails. */
  lemma FailedCallTakesVehicle(s: Store, tenantId: string, vehicleId: string, userId: string, f: Fresh, holder: string)
    requires Inv(s) && AssignAllowed(s, tenantId, vehicleId, Some(userId), f) && f.id !in s.drivers
    requires holder in s.drivers && s.drivers[holder].assignedVehicleId == Some(vehicleId)
    requires TenantVehicle(s, tenantId, vehicleId) && Unusable(s, tenantId, userId)
    ensures var o := AssignVehicle(s, tenantId, vehicleId, Some(userId), f);
      o.result.Failure? && holder in o.store.drivers && o.store.drivers[holder].assignedVehicleId == None
  {
    AssignFailsIff(s, tenantId, vehicleId, Some(userId), f);
    AssignVehicleHolders(s, tenantId, vehicleId, Some(userId), f);
    assert TenantVehicle(s, s.drivers[holder].tenantId, vehicleId);
    var o := AssignVehicle(s, tenantId, vehicleId, Some(userId), f);
    assert holder !in Holders(o.store.drivers, vehicleId);
  }

  /** Such a call: the user named is a supervisor, and the driver of the vehicle is left without it. */
  lemma SupervisorNamedForVehicle()
    ensures var s := Store(
        map["u" := User("t", SiteSupervisor, Some("sara"), None)],
        map["d" := Driver("t", "dan", None, 0, Some("v"))], map["v" := "t"]);
      var o := UpdateMasterVehicle(s, "t", "v", Set(Some("u")), Fresh(None, "e", 1));
      && Inv(s) && Allowed(s, EditVehicle("t", "v", Set(Some("u")), Fresh(None, "e", 1)))
      && o.result == Failure(DriverNotFound) && o.store.drivers["d"].assignedVehicleId == None
  {}

  lemma SyncKeeps(s: Store, tenantId: string, u: User, f: Fresh)
    requires Inv(s) && PicksNewest(s.drivers, tenantId, u, f.pick)
    ensures Inv(SyncProjection(s, tenantId, u, f).store) && SyncProjection(s, tenantId, u, f).store.vehicles == s.vehicles
  {
    EnsureKeeps(s, tenantId, u, f);
    var e := EnsureProjection(s, tenantId, u, f);
    if e.result.Success? && e.result.value.Some? {
      var id := e.result.value.value;
      var d := e.store.drivers[id].(username := u.username.GetOr(""), employeeNumber := u.employeeNo);
      if DriverFits(e.store.drivers, id, d) {
        RenamingKeeps(e.store, id, d);
      }
    }
  }

  ghost predicate VehiclesStay(s: Store, t: Store) {
    forall v :: v in s.vehicles ==> v in t.vehicles && t.vehicles[v] == s.vehicles[v]
  }

  lemma StepKeepsVehicles(s: Store, step: Step)
    requires step.NewVehicle? ==> step.newVehicleId !in s.vehicles
    ensures VehiclesStay(s, Apply(s, step))
  {}

  lemma StepKeepsInv(s: Store, step: Step)
    requires Inv(s) && Allowed(s, step)
    ensures Inv(Apply(s, step))
  {
    if step.NewDriver? {
      NewDriverKeeps(s, step);
    } else if step.EditDriver? {
      EditDriverKeeps(s, step);
    } else {
      VehicleStepKeeps(s, step);
    }
  }

  lemma NewDriverKeeps(s: Store, step: Step)
    requires Inv(s) && Allowed(s, step) && step.NewDriver?
    ensures Inv(Apply(s, step))
  {
    match step
    case NewDriver(tenantId, userId, role, username, employeeNo, vehicleId, f, g) =>
      var u := NewUser(tenantId, role, username, employeeNo);
      var t := SaveUser(s, tenantId, userId, u, vehicleId);
      if t.result.Success? && role.DriverRole? {
        EnsureKeeps(t.store, tenantId, u, f);
        var e := EnsureProjection(t.store, tenantId, u, f);
        if e.result.Success? {
          SetAssignmentKeeps(e.store, tenantId, u, vehicleId, g);
        }
      }
  }

  lemma EditDriverKeeps(s: Store, step: Step)
    requires Inv(s) && Allowed(s, step) && step.EditDriver?
    ensures Inv(Apply(s, step))
  {
    match step
    case EditDriver(tenantId, userId, role, username, employeeNo, vehicle, f, g) =>
      if ManagedUser(s, tenantId, userId) {
        var u := NextUser(s.users[userId], role, username, employeeNo);
        var t := SaveUser(s, tenantId, userId, u, Wanted(vehicle));
        if t.result.Success? && u.role.DriverRole? {
          SyncKeeps(t.store, tenantId, u, f);
          var r := SyncProjection(t.store, tenantId, u, f);
          if r.result.Success? && vehicle.Set? {
            SetAssignmentKeeps(r.store, tenantId, u, vehicle.value, g);
          }
        }
      }
  }

  lemma VehicleStepKeeps(s: Store, step: Step)
    requires Inv(s) && Allowed(s, step) && (step.NewVehicle? || step.EditVehicle? || step.Elsewhere?)
    ensures Inv(Apply(s, step))
  {
    match step
    case NewVehicle(tenantId, vehicleId, driverUserId, f) =>
      var t := s.(vehicles := s.vehicles[vehicleId := tenantId]);
      assert Inv(t);
      if driverUserId.Some? {
        AssignVehicleKeeps(t, tenantId, vehicleId, driverUserId, f);
      }
    case EditVehicle(tenantId, vehicleId, driverUser, f) =>
      if TenantVehicle(s, tenantId, vehicleId) && driverUser.Set? {
        AssignVehicleKeeps(s, tenantId, vehicleId, driverUser.value, f);
      }
    case Elsewhere(users, drivers) =>
  }

  /** In every run no vehicle is held by two driver rows, each held vehicle is of its driver's tenant, and
      no two rows of a tenant share a key. */
  lemma {:induction false} RunKeepsInv(s: Store, steps: seq<Step>)
    requires Inv(s) && ValidRun(s, steps)
    ensures Inv(RunFrom(s, steps)) && VehiclesStay(s, RunFrom(s, steps))
    decreases |steps|
  {
    if steps != [] {
      StepKeepsInv(s, steps[0]);
      StepKeepsVehicles(s, steps[0]);
      RunKeepsInv(Apply(s, steps[0]), steps[1..]);
    }
  }

  lemma OneHolder(steps: seq<Step>, vehicleId: string)
    requires ValidRun(Store(map[], map[], map[]), steps)
    ensures |Holders(RunFrom(Store(map[], map[], map[]), steps).drivers, vehicleId)| <= 1
  {
    RunKeepsInv(Store(map[], map[], map[]), steps);
    var holders := Holders(RunFrom(Store(map[], map[], map[]), steps).drivers, vehicleId);
    if id :| id in holders {
      assert holders == {id};
    }
  }

  // ---------------------------------------------------------------- who is left alone

  /** The driver rows a step may write as its own: those its queries picked, and its new rows. */
  function OwnRows(step: Step): set<string> {
    match step
    case NewDriver(_, _, _, _, _, _, f, g) => {f.id, g.id} + AsSet(f.pick) + AsSet(g.pick)
    case EditDriver(_, _, _, _, _, _, f, g) => {f.id, g.id} + AsSet(f.pick) + AsSet(g.pick)
    case NewVehicle(_, _, _, f) => {f.id} + AsSet(f.pick)
    case EditVehicle(_, _, _, f) => {f.id} + AsSet(f.pick)
    case Elsewhere(_, _) => {}
  }

  /** The vehicle a step is about. */
  function NamedVehicle(step: Step): Option<string> {
    match step
    case NewDriver(_, _, _, _, _, vehicleId, _, _) => vehicleId
    case EditDriver(_, _, _, _, _, vehicle, _, _) => Wanted(vehicle)
    case NewVehicle(_, vehicleId, _, _) => Some(vehicleId)
    case EditVehicle(_, vehicleId, _, _) => Some(vehicleId)
    case Elsewhere(_, _) => None
  }

  ghost predicate SameVehicle(s: Store, t: Store, d: string) {
    d in s.drivers && d in t.drivers && t.drivers[d].assignedVehicleId == s.drivers[d].assignedVehicleId
  }

  lemma SetAssignmentFrame(s: Store, tenantId: string, u: User, vehicleId: Option<string>, f: Fresh, d: string)
    requires Inv(s) && PicksNewest(s.drivers, tenantId, u, f.pick) && d in s.drivers
    requires vehicleId.Some? ==> TenantVehicle(s, tenantId, vehicleId.value)
    requires d != f.id && f.pick != Some(d)
    requires s.drivers[d].assignedVehicleId.Some? ==> s.drivers[d].assignedVehicleId != vehicleId
    ensures SameVehicle(s, SetAssignment(s, tenantId, u, vehicleId, f).store, d)
  {
    EnsureKeeps(s, tenantId, u, f);
    var e := EnsureProjection(s, tenantId, u, f);
    if e.result.Success? && e.result.value.Some? {
      ReassignMoves(e.store, tenantId, e.result.value.value, vehicleId);
    }
  }

  lemma CreateFrame(
    s: Store, tenantId: string, userId: string, u: User, vehicleId: Option<string>, f: Fresh, g: Fresh, d: string)
    requires Inv(s) && d in s.drivers && d !in {f.id, g.id} && f.pick != Some(d) && g.pick != Some(d)
    requires var t := SaveUser(s, tenantId, userId, u, vehicleId);
      t.result.Success? && u.role.DriverRole? ==>
        && PicksNewest(s.drivers, tenantId, u, f.pick)
        && (var e := EnsureProjection(t.store, tenantId, u, f);
            e.result.Success? ==> PicksNewest(e.store.drivers, tenantId, u, g.pick))
    requires s.drivers[d].assignedVehicleId.Some? ==> s.drivers[d].assignedVehicleId != vehicleId
    ensures SameVehicle(s, CreateMasterDriver(s, tenantId, userId, u, vehicleId, f, g).store, d)
  {
    var t := SaveUser(s, tenantId, userId, u, vehicleId);
    if t.result.Success? && u.role.DriverRole? {
      EnsureKeeps(t.store, tenantId, u, f);
      var e := EnsureProjection(t.store, tenantId, u, f);
      if e.result.Success? {
        SetAssignmentFrame(e.store, tenantId, u, vehicleId, g, d);
      }
    }
  }

  lemma SyncFrame(s: Store, tenantId: string, u: User, f: Fresh, d: string)
    requires d in s.drivers && d != f.id
    ensures SameVehicle(s, SyncProjection(s, tenantId, u, f).store, d)
  {}

  lemma EditFrame(s: Store, step: Step, d: string)
    requires Inv(s) && Allowed(s, step) && step.EditDriver? && d in s.drivers && d !in OwnRows(step)
    requires s.drivers[d].assignedVehicleId.Some? ==> s.drivers[d].assignedVehicleId != NamedVehicle(step)
    ensures SameVehicle(s, Apply(s, step), d)
  {
    if ManagedUser(s, step.tenantId, step.userId) {
      var u := NextUser(s.users[step.userId], step.nextRole, step.nextUsername, step.nextEmployeeNo);
      var t := SaveUser(s, step.tenantId, step.userId, u, Wanted(step.vehicle));
      if t.result.Success? && u.role.DriverRole? {
        SyncKeeps(t.store, step.tenantId, u, step.f);
        SyncFrame(t.store, step.tenantId, u, step.f, d);
        var r := SyncProjection(t.store, step.tenantId, u, step.f);
        if r.result.Success? && step.vehicle.Set? {
          SetAssignmentFrame(r.store, step.tenantId, u, step.vehicle.value, step.g, d);
        }
      }
    }
  }

  lemma AssignVehicleFrame(s: Store, tenantId: string, vehicleId: string, driverUserId: Option<string>, f: Fresh, d: string)
    requires d in s.drivers && d != f.id && f.pick != Some(d) && s.drivers[d].assignedVehicleId != Some(vehicleId)
    ensures SameVehicle(s, AssignVehicle(s, tenantId, vehicleId, driverUserId, f).store, d)
  {}

  /** A step changes the vehicle of no driver row but its own rows and the old holder of its vehicle. */
  lemma StepFrame(s: Store, step: Step, d: string)
    requires Inv(s) && Allowed(s, step) && d in s.drivers && d !in OwnRows(step)
    requires s.drivers[d].assignedVehicleId.Some? ==> s.drivers[d].assignedVehicleId != NamedVehicle(step)
    ensures SameVehicle(s, Apply(s, step), d)
  {
    match step
    case NewDriver(tenantId, userId, role, username, employeeNo, vehicleId, f, g) =>
      CreateFrame(s, tenantId, userId, NewUser(tenantId, role, username, employeeNo), vehicleId, f, g, d);
    case EditDriver(_, _, _, _, _, _, _, _) => EditFrame(s, step, d);
    case NewVehicle(tenantId, vehicleId, driverUserId, f) =>
      AssignVehicleFrame(s.(vehicles := s.vehicles[vehicleId := tenantId]), tenantId, vehicleId, driverUserId, f, d);
    case EditVehicle(tenantId, vehicleId, driverUser, f) =>
      AssignVehicleFrame(s, tenantId, vehicleId, Wanted(driverUser), f, d);
    case Elsewhere(_, _) =>
  }

  ghost predicate LeavesAlone(steps: seq<Step>, d: string, vehicleId: string) {
    forall k :: 0 <= k < |steps| ==> d !in OwnRows(steps[k]) && NamedVehicle(steps[k]) != Some(vehicleId)
  }

  /** A driver keeps a vehicle through any run whose steps neither pick that driver nor name that vehicle. */
  lemma {:induction false} KeepsVehicle(s: Store, steps: seq<Step>, d: string, vehicleId: string)
    requires Inv(s) && ValidRun(s, steps) && LeavesAlone(steps, d, vehicleId)
    requires d in s.drivers && s.drivers[d].assignedVehicleId == Some(vehicleId)
    ensures Holders(RunFrom(s, steps).drivers, vehicleId) == {d}
    decreases |steps|
  {
    if steps == [] {
      assert Holders(s.drivers, vehicleId) == {d};
    } else {
      StepKeepsInv(s, steps[0]);
      StepFrame(s, steps[0], d);
      KeepsVehicle(Apply(s, steps[0]), steps[1..], d, vehicleId);
    }
  }
}
