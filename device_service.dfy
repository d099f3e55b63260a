/**
  * `DeviceService`: the checks the application runs before it reads or writes the
  * device table. Each operation refuses a missing id, a blank name or type and a
  * reference to an employee the employee lookup does not find, in that order, and
  * otherwise hands the request on to the device repository with names and types trimmed.
  * The repositories the service is built with are the ones of this model, and the
  * database they share is passed to every operation.
  */
module DeviceService {
  import opened Wrappers
  import opened Strings
  import opened FleetStore
  import EmployeeRepository
  import opened DeviceRepository

  // ---------------------------------------------------------------------------
  // Stored text
  // ---------------------------------------------------------------------------

  /** A name or type as the service stores it: trimmed and not blank. */
  predicate Tidy(s: string) {
    !IsBlank(s) && Trim(s) == s
  }

  /** Both text fields of a device are tidy. */
  predicate TidyDevice(d: DeviceRow) {
    Tidy(d.name) && Tidy(d.deviceType)
  }

  /** Trimming a string that is not blank gives a tidy one. */
  lemma TrimmedIsTidy(s: string)
    requires !IsBlank(s)
    ensures Tidy(Trim(s))
  {
    TrimIdempotent(s);
  }

  // ---------------------------------------------------------------------------
  // The employee check
  // ---------------------------------------------------------------------------

  /**
    * `if (employeeId) { findById(employeeId) ... }`: nothing to check for an absent
    * or empty reference; otherwise the employee lookup must find a user, and a
    * reference `parseInt` cannot read is refused by the ORM on the way.
    */
  function UserCheck(users: seq<UserRow>, employeeId: Option<string>): (r: Option<Error>)
    ensures r.None? <==>
      employeeId.None? || employeeId.value == "" || exists u :: u in users && ParseInt(employeeId.value) == Some(u.id as int)
    ensures r == Some(InvalidIdentifier) <==> employeeId.Some? && employeeId.value != "" && ParseInt(employeeId.value).None?
    ensures r.Some? ==> r == Some(InvalidIdentifier) || r == Some(UserNotFound)
  {
    if employeeId.None? || employeeId.value == "" then None
    else
      match EmployeeRepository.FindById(users, employeeId.value)
      case Err(e) => Some(e)
      case Ok(None) => Some(UserNotFound)
      case Ok(Some(_)) => None
  }

  // ---------------------------------------------------------------------------
  // Reads
  // ---------------------------------------------------------------------------

  /** `getAllDevices`: the repository listing, one entry per stored device in table order. */
  method GetAllDevices(db: Database) returns (r: seq<DeviceWithEmployee>)
    ensures r == FindAll(db.users, db.devices)
    ensures Rows(r) == db.devices
  {
    r := FindAll(db.users, db.devices);
    assert Rows(r) == db.devices;
  }

  /** `getDeviceById`: an empty id is refused; otherwise the repository lookup. */
  method GetDeviceById(db: Database, id: string) returns (r: Result<Option<DeviceWithEmployee>, Error>)
    ensures id == "" ==> r == Err(DeviceIdRequired)
    ensures id != "" ==> r == DeviceRepository.FindById(db.users, db.devices, id)
    ensures r.Ok? && r.value.Some? ==> r.value.value.device in db.devices && r.value.value.device.id == id
  {
    if id == "" {
      return Err(DeviceIdRequired);
    }
    r := DeviceRepository.FindById(db.users, db.devices, id);
  }

  /** `searchDevicesByType`: a blank query lists everything, any other is trimmed and matched. */
  method SearchDevicesByType(db: Database, query: string) returns (r: seq<DeviceWithEmployee>)
    ensures IsBlank(query) ==> r == FindAll(db.users, db.devices)
    ensures !IsBlank(query) ==> r == FindByType(db.users, db.devices, Trim(query))
    ensures forall i :: 0 <= i < |r| ==> r[i].device in db.devices && (IsBlank(query) || TypeMatches(r[i].device, Trim(query)))
  {
    if IsBlank(query) {
      r := FindAll(db.users, db.devices);
      forall i | 0 <= i < |r| ensures r[i].device in db.devices {
        assert r[i].device == db.devices[i];
      }
    } else {
      r := FindByType(db.users, db.devices, Trim(query));
    }
  }

  /** `getDevicesByUser`: an empty id is refused; otherwise the devices holding exactly that string. */
  method GetDevicesByUser(db: Database, userId: string) returns (r: Result<seq<DeviceRow>, Error>)
    ensures userId == "" <==> r == Err(UserIdRequired)
    ensures userId != "" ==> r == Ok(FindByUserId(db.devices, userId))
    ensures r.Ok? ==> forall i :: 0 <= i < |r.value| ==> r.value[i] in db.devices && r.value[i].employeeId == Some(userId)
  {
    if userId == "" {
      return Err(UserIdRequired);
    }
    r := Ok(FindByUserId(db.devices, userId));
  }

  /** `getUnassignedDevices`: the devices whose reference is `null`. */
  method GetUnassignedDevices(db: Database) returns (r: seq<DeviceWithEmployee>)
    ensures r == FindUnassigned(db.devices)
    ensures forall i :: 0 <= i < |r| ==> r[i].device in db.devices && r[i].device.employeeId.None?
  {
    r := FindUnassigned(db.devices);
  }

  // ---------------------------------------------------------------------------
  // Writes
  // ---------------------------------------------------------------------------

  /**
    * `createDevice`: a blank name, then a blank type, then an employee reference the
    * lookup does not find is refused; otherwise the trimmed fields and the reference as
    * given are stored as the newest device under the id the database generates.
    */
  method CreateDevice(db: Database, freshId: string, name: string, deviceType: string, employeeId: Option<string>)
    returns (r: Result<DeviceRow, Error>)
    requires db.Valid() && FindDevice(db.devices, freshId).None?
    modifies db
    ensures db.Valid()
    ensures db.users == old(db.users) && db.nextUserId == old(db.nextUserId)
    ensures r == Err(DeviceNameRequired) <==> IsBlank(name)
    ensures r == Err(DeviceTypeRequired) <==> !IsBlank(name) && IsBlank(deviceType)
    ensures r.Err? && !IsBlank(name) && !IsBlank(deviceType) ==> Some(r.error) == UserCheck(db.users, employeeId)
    ensures r.Ok? <==> !IsBlank(name) && !IsBlank(deviceType) && UserCheck(db.users, employeeId).None?
    ensures r.Err? ==> db.devices == old(db.devices)
    ensures r.Ok? ==>
      && r.value == DeviceRow(freshId, Trim(name), Trim(deviceType), employeeId)
      && db.devices == [r.value] + old(db.devices)
      && TidyDevice(r.value)
  {
    if IsBlank(name) {
      return Err(DeviceNameRequired);
    }
    if IsBlank(deviceType) {
      return Err(DeviceTypeRequired);
    }
    var check := UserCheck(db.users, employeeId);
    if check.Some? {
      return Err(check.value);
    }
    TrimmedIsTidy(name);
    TrimmedIsTidy(deviceType);
    var d := DeviceRepository.Create(db, freshId, Trim(name), Trim(deviceType), employeeId);
    r := Ok(d);
  }

  /** The patch `updateDevice` hands on: given names and types trimmed, the reference as given. */
  function TrimmedPatch(p: DevicePatch): (q: DevicePatch)
    ensures q.employeeId == p.employeeId
    ensures q.name.Some? <==> p.name.Some?
    ensures q.deviceType.Some? <==> p.deviceType.Some?
    ensures p.name.Some? ==> q.name.value == Trim(p.name.value)
    ensures p.deviceType.Some? ==> q.deviceType.value == Trim(p.deviceType.value)
  {
    DevicePatch(
      if p.name.Some? then Some(Trim(p.name.value)) else None,
      if p.deviceType.Some? then Some(Trim(p.deviceType.value)) else None,
      p.employeeId)
  }

  /** A field of the patch that was given but is blank. */
  predicate BlankGiven(field: Option<string>) {
    field.Some? && IsBlank(field.value)
  }

  /**
    * The first complaint `updateDevice` has about a patch: a given name that is blank,
    * then a given type that is blank, then a given reference the lookup does not find.
    */
  function PatchError(users: seq<UserRow>, p: DevicePatch): (r: Option<Error>)
    ensures r == Some(DeviceNameEmpty) <==> BlankGiven(p.name)
    ensures r == Some(DeviceTypeEmpty) <==> !BlankGiven(p.name) && BlankGiven(p.deviceType)
    ensures r.None? <==>
      !BlankGiven(p.name) && !BlankGiven(p.deviceType) && (p.employeeId.None? || UserCheck(users, p.employeeId.value).None?)
    ensures r.Some? && r != Some(DeviceNameEmpty) && r != Some(DeviceTypeEmpty) ==>
      p.employeeId.Some? && r == UserCheck(users, p.employeeId.value)
  {
    if BlankGiven(p.name) then Some(DeviceNameEmpty)
    else if BlankGiven(p.deviceType) then Some(DeviceTypeEmpty)
    else if p.employeeId.Some? then UserCheck(users, p.employeeId.value)
    else None
  }

  /** A patch with no complaint keeps a tidy device tidy. */
  lemma PatchKeepsTidy(users: seq<UserRow>, d: DeviceRow, p: DevicePatch)
    requires TidyDevice(d) && PatchError(users, p).None?
    ensures TidyDevice(ApplyPatch(d, TrimmedPatch(p)))
  {
    if p.name.Some? {
      TrimmedIsTidy(p.name.value);
    }
    if p.deviceType.Some? {
      TrimmedIsTidy(p.deviceType.value);
    }
  }

  /**
    * `updateDevice`: an empty id is refused, then a device the lookup does not find
    * (the lookup itself fails when the stored reference is not a number), then the
    * patch's complaints; otherwise the row with that id takes the trimmed patch.
    */
  method UpdateDevice(db: Database, id: string, p: DevicePatch) returns (r: Result<DeviceRow, Error>)
    requires db.Valid()
    modifies db
    ensures db.Valid()
    ensures db.users == old(db.users) && db.nextUserId == old(db.nextUserId)
    ensures r.Err? ==> db.devices == old(db.devices)
    ensures id == "" ==> r == Err(DeviceIdRequired)
    ensures id != "" && DeviceRepository.FindById(db.users, old(db.devices), id).Err? ==> r == Err(InvalidIdentifier)
    ensures id != "" && FindDevice(old(db.devices), id).None? ==> r == Err(DeviceNotFound)
    ensures id != "" && DeviceRepository.FindById(db.users, old(db.devices), id).Ok? && FindDevice(old(db.devices), id).Some?
      ==> (r.Ok? <==> PatchError(db.users, p).None?) && (r.Err? ==> Some(r.error) == PatchError(db.users, p))
    ensures r.Ok? ==>
      && FindDevice(old(db.devices), id).Some?
      && r.value == ApplyPatch(FindDevice(old(db.devices), id).value, TrimmedPatch(p))
      && db.devices == ReplaceDevice(old(db.devices), id, TrimmedPatch(p))
      && (TidyDevice(FindDevice(old(db.devices), id).value) ==> TidyDevice(r.value))
  {
    if id == "" {
      return Err(DeviceIdRequired);
    }
    var existing := DeviceRepository.FindById(db.users, db.devices, id);
    if existing.Err? {
      return Err(existing.error);
    }
    if existing.value.None? {
      return Err(DeviceNotFound);
    }
    var complaint := PatchError(db.users, p);
    if complaint.Some? {
      return Err(complaint.value);
    }
    var d := FindDevice(db.devices, id).value;
    if TidyDevice(d) {
      PatchKeepsTidy(db.users, d, p);
    }
    r := DeviceRepository.Update(db, id, TrimmedPatch(p));
  }

  /**
    * `deleteDevice`: an empty id is refused, then a device the lookup does not find;
    * otherwise the device goes.
    */
  method DeleteDevice(db: Database, id: string) returns (r: Result<(), Error>)
    requires db.Valid()
    modifies db
    ensures db.Valid()
    ensures db.users == old(db.users) && db.nextUserId == old(db.nextUserId)
    ensures id == "" ==> r == Err(DeviceIdRequired)
    ensures id != "" && DeviceRepository.FindById(db.users, old(db.devices), id).Err? ==> r == Err(InvalidIdentifier)
    ensures id != "" && FindDevice(old(db.devices), id).None? ==> r == Err(DeviceNotFound)
    ensures r.Ok? <==> id != "" && DeviceRepository.FindById(db.users, old(db.devices), id).Ok? && FindDevice(old(db.devices), id).Some?
    ensures r.Err? ==> db.devices == old(db.devices)
    ensures r.Ok? ==> db.devices == RemoveDevice(old(db.devices), id)
  {
    if id == "" {
      return Err(DeviceIdRequired);
    }
    var existing := DeviceRepository.FindById(db.users, db.devices, id);
    if existing.Err? {
      return Err(existing.error);
    }
    if existing.value.None? {
      return Err(DeviceNotFound);
    }
    r := DeviceRepository.Delete(db, id);
  }

  /** `{ employeeId: userId }`. */
  function AssignPatch(userId: string): DevicePatch {
    DevicePatch(None, None, Some(Some(userId)))
  }

  /** `{ employeeId: null }`. */
  const UnassignPatch: DevicePatch := DevicePatch(None, None, Some(None))

  /**
    * `assignDeviceToUser`: an empty device id, then an empty user id, then a device the
    * lookup does not find, then a user the employee lookup does not find is refused;
    * otherwise the device's reference becomes the user id exactly as given.
    */
  method AssignDeviceToUser(db: Database, deviceId: string, userId: string) returns (r: Result<DeviceRow, Error>)
    requires db.Valid()
    modifies db
    ensures db.Valid()
    ensures db.users == old(db.users) && db.nextUserId == old(db.nextUserId)
    ensures r.Err? ==> db.devices == old(db.devices)
    ensures deviceId == "" ==> r == Err(DeviceIdRequired)
    ensures deviceId != "" && userId == "" ==> r == Err(UserIdRequired)
    ensures deviceId != "" && userId != "" && DeviceRepository.FindById(db.users, old(db.devices), deviceId).Err? ==> r == Err(InvalidIdentifier)
    ensures deviceId != "" && userId != "" && FindDevice(old(db.devices), deviceId).None? ==> r == Err(DeviceNotFound)
    ensures r.Ok? <==>
      && deviceId != "" && userId != ""
      && DeviceRepository.FindById(db.users, old(db.devices), deviceId).Ok? && FindDevice(old(db.devices), deviceId).Some?
      && UserCheck(db.users, Some(userId)).None?
    ensures (&& deviceId != "" && userId != ""
             && DeviceRepository.FindById(db.users, old(db.devices), deviceId).Ok? && FindDevice(old(db.devices), deviceId).Some?
             && r.Err?)
      ==> Some(r.error) == UserCheck(db.users, Some(userId))
    ensures r.Ok? ==>
      && r.value == FindDevice(old(db.devices), deviceId).value.(employeeId := Some(userId))
      && db.devices == ReplaceDevice(old(db.devices), deviceId, AssignPatch(userId))
  {
    if deviceId == "" {
      return Err(DeviceIdRequired);
    }
    if userId == "" {
      return Err(UserIdRequired);
    }
    var device := DeviceRepository.FindById(db.users, db.devices, deviceId);
    if device.Err? {
      return Err(device.error);
    }
    if device.value.None? {
      return Err(DeviceNotFound);
    }
    var user := EmployeeRepository.FindById(db.users, userId);
    if user.Err? {
      return Err(user.error);
    }
    if user.value.None? {
      return Err(UserNotFound);
    }
    r := DeviceRepository.Update(db, deviceId, AssignPatch(userId));
  }

  /**
    * `unassignDevice`: an empty device id, then a device the lookup does not find is
    * refused; otherwise the device's reference becomes `null`.
    */
  method UnassignDevice(db: Database, deviceId: string) returns (r: Result<DeviceRow, Error>)
    requires db.Valid()
    modifies db
    ensures db.Valid()
    ensures db.users == old(db.users) && db.nextUserId == old(db.nextUserId)
    ensures r.Err? ==> db.devices == old(db.devices)
    ensures deviceId == "" ==> r == Err(DeviceIdRequired)
    ensures deviceId != "" && DeviceRepository.FindById(db.users, old(db.devices), deviceId).Err? ==> r == Err(InvalidIdentifier)
    ensures deviceId != "" && FindDevice(old(db.devices), deviceId).None? ==> r == Err(DeviceNotFound)
    ensures r.Ok? <==>
      deviceId != "" && DeviceRepository.FindById(db.users, old(db.devices), deviceId).Ok? && FindDevice(old(db.devices), deviceId).Some?
    ensures r.Ok? ==>
      && r.value == FindDevice(old(db.devices), deviceId).value.(employeeId := None)
      && db.devices == ReplaceDevice(old(db.devices), deviceId, UnassignPatch)
  {
    if deviceId == "" {
      return Err(DeviceIdRequired);
    }
    var device := DeviceRepository.FindById(db.users, db.devices, deviceId);
    if device.Err? {
      return Err(device.error);
    }
    if device.value.None? {
      return Err(DeviceNotFound);
    }
    r := DeviceRepository.Update(db, deviceId, UnassignPatch);
  }

  // ---------------------------------------------------------------------------
  // What an assignment does to the listings
  // ---------------------------------------------------------------------------

  /** After an assignment the device is among the user's devices, and no longer unassigned. */
  lemma AssignedDeviceListedForUser(devices: seq<DeviceRow>, k: nat, userId: string)
    requires DeviceIdsDistinct(devices) && k < |devices|
    ensures var after := ReplaceDevice(devices, devices[k].id, AssignPatch(userId));
      && after[k] in FindByUserId(after, userId)
      && after[k] !in Rows(FindUnassigned(after))
  {
    var after := ReplaceDevice(devices, devices[k].id, AssignPatch(userId));
    assert after[k].employeeId == Some(userId);
  }

  /** After unassigning, the device is among the unassigned ones and no user's. */
  lemma UnassignedDeviceListed(devices: seq<DeviceRow>, k: nat, userId: string)
    requires DeviceIdsDistinct(devices) && k < |devices|
    ensures var after := ReplaceDevice(devices, devices[k].id, UnassignPatch);
      && after[k] in Rows(FindUnassigned(after))
      && after[k] !in FindByUserId(after, userId)
  {
    var after := ReplaceDevice(devices, devices[k].id, UnassignPatch);
    assert after[k].employeeId.None?;
  }

  /**
    * Assigning a device to a user by the decimal form of their id makes the listing
    * show that user, with their full name, at the device's position.
    */
  lemma AssignmentShownInListing(users: seq<UserRow>, devices: seq<DeviceRow>, k: nat, u: UserRow)
    requires DeviceIdsDistinct(devices) && k < |devices| && u in users && UserIdsDistinct(users)
    ensures var entry := FindAll(users, ReplaceDevice(devices, devices[k].id, AssignPatch(ToDecimal(u.id))))[k];
      && entry.employee.Some?
      && entry.employee.value == EmployeeSummary(ToDecimal(u.id), EmployeeRepository.FullName(u), EmployeeRepository.IdRole(u.id))
  {
    var after := ReplaceDevice(devices, devices[k].id, AssignPatch(ToDecimal(u.id)));
    var d := after[k];
    assert d.employeeId == Some(ToDecimal(u.id));
    assert ToDecimal(u.id) != "" by {
      ParseDecimal(u.id);
    }
    var entry := FindAll(users, after)[k];
    assert entry.device == d;
    assert Linked(users, d);
    var v :| v in users && ToDecimal(v.id) == d.employeeId.value
      && entry.employee.value == EmployeeSummary(d.employeeId.value, EmployeeRepository.FullName(v), EmployeeRepository.IdRole(v.id));
    DecimalInjective(v.id, u.id);
    var i :| 0 <= i < |users| && users[i] == u;
    var j :| 0 <= j < |users| && users[j] == v;
    assert users[i].id == users[j].id;
  }
}
