/**
  * `DeviceRepository`: devices, each shown with the employee its `employeeId` string
  * refers to. The listing queries join through a map keyed by `user.id.toString()`;
  * the single-device lookup joins through `parseInt(employeeId)` instead, and the two
  * disagree on references that are not in canonical decimal form.
  */
module DeviceRepository {
  import opened Wrappers
  import opened Strings
  import opened FleetStore
  import EmployeeRepository

  /** The `employee` part of `DeviceWithEmployee`. */
  datatype EmployeeSummary = EmployeeSummary(id: string, name: string, role: string)

  /** A device with the employee it is assigned to, if the join finds one. */
  datatype DeviceWithEmployee = DeviceWithEmployee(device: DeviceRow, employee: Option<EmployeeSummary>)

  /** `UpdateDeviceData`: each field absent or given; a given `employeeId` may be `null`. */
  datatype DevicePatch = DevicePatch(name: Option<string>, deviceType: Option<string>, employeeId: Option<Option<string>>)

  /** The devices of a joined list. */
  function Rows(r: seq<DeviceWithEmployee>): (s: seq<DeviceRow>)
    ensures |s| == |r|
  {
    seq(|r|, i requires 0 <= i < |r| => r[i].device)
  }

  // ---------------------------------------------------------------------------
  // The join
  // ---------------------------------------------------------------------------

  /** `userMap.get(key)`, the map from `user.id.toString()` to the user. */
  function UserByKey(users: seq<UserRow>, key: string): (r: Option<UserRow>)
    ensures r.Some? ==> r.value in users && ToDecimal(r.value.id) == key
    ensures r.None? ==> forall u :: u in users ==> ToDecimal(u.id) != key
  {
    if users == [] then None
    else if ToDecimal(users[0].id) == key then Some(users[0])
    else UserByKey(users[1..], key)
  }

  /** `device.employeeId && userMap.has(device.employeeId)`. */
  predicate Linked(users: seq<UserRow>, d: DeviceRow) {
    d.employeeId.Some? && d.employeeId.value != "" && exists u :: u in users && ToDecimal(u.id) == d.employeeId.value
  }

  /**
    * The mapping of `findAll` and `findByType`: every device field is kept, and the
    * employee is present exactly when the reference names a user by its id string;
    * it then carries that string, the user's full name and the role of `parseInt` of it.
    */
  function Attach(users: seq<UserRow>, d: DeviceRow): (r: DeviceWithEmployee)
    ensures r.device == d
    ensures r.employee.Some? <==> Linked(users, d)
    ensures r.employee.Some? ==>
      exists u :: u in users && ToDecimal(u.id) == d.employeeId.value
        && r.employee.value == EmployeeSummary(d.employeeId.value, EmployeeRepository.FullName(u), EmployeeRepository.IdRole(u.id))
  {
    if d.employeeId.Some? && d.employeeId.value != "" then
      match UserByKey(users, d.employeeId.value)
      case None => DeviceWithEmployee(d, None)
      case Some(u) =>
        ParseDecimal(u.id);
        var n: UserId := ParseInt(d.employeeId.value).value;
        DeviceWithEmployee(d, Some(EmployeeSummary(d.employeeId.value, EmployeeRepository.FullName(u), EmployeeRepository.IdRole(n))))
    else
      DeviceWithEmployee(d, None)
  }

  /** `devices.map(...)` with the join. */
  function AttachAll(users: seq<UserRow>, devices: seq<DeviceRow>): (r: seq<DeviceWithEmployee>)
    ensures |r| == |devices| && Rows(r) == devices
    ensures forall i :: 0 <= i < |r| ==> r[i] == Attach(users, devices[i])
  {
    var r := seq(|devices|, i requires 0 <= i < |devices| => Attach(users, devices[i]));
    assert Rows(r) == devices;
    r
  }

  // ---------------------------------------------------------------------------
  // Reads
  // ---------------------------------------------------------------------------

  /** `findAll`: every device, newest first, each with its employee when the join finds one. */
  function FindAll(users: seq<UserRow>, devices: seq<DeviceRow>): (r: seq<DeviceWithEmployee>)
    ensures |r| == |devices|
    ensures forall i :: 0 <= i < |r| ==> r[i].device == devices[i] && (r[i].employee.Some? <==> Linked(users, devices[i]))
    ensures forall i :: 0 <= i < |r| ==> r[i] == Attach(users, devices[i])
  {
    AttachAll(users, devices)
  }

  /** `type: { contains: type }`, taken as a case-sensitive substring test. */
  predicate TypeMatches(d: DeviceRow, query: string) {
    Includes(d.deviceType, query)
  }

  /** `findByType`: the devices whose type contains the query, in order, joined like `findAll`. */
  function FindByType(users: seq<UserRow>, devices: seq<DeviceRow>, query: string): (r: seq<DeviceWithEmployee>)
    ensures Subsequence(Rows(r), devices)
    ensures forall i :: 0 <= i < |r| ==> r[i].device in devices && TypeMatches(r[i].device, query) && r[i] == Attach(users, r[i].device)
    ensures forall i :: 0 <= i < |devices| && TypeMatches(devices[i], query) ==> devices[i] in Rows(r)
    ensures forall d :: multiset(Rows(r))[d] == if TypeMatches(d, query) then multiset(devices)[d] else 0
  {
    var p := (d: DeviceRow) => TypeMatches(d, query);
    var s := Filter(devices, p);
    FilterCount(devices, p);
    var r := AttachAll(users, s);
    assert forall i :: 0 <= i < |r| ==> r[i].device == s[i];
    assert Rows(r) == s;
    r
  }

  /** The empty query matches every type. */
  lemma FindByEmptyType(users: seq<UserRow>, devices: seq<DeviceRow>)
    ensures FindByType(users, devices, "") == FindAll(users, devices)
  {
    forall d | d in devices ensures TypeMatches(d, "") {
      assert OccursAt(d.deviceType, "", 0);
    }
    FilterAll(devices, d => TypeMatches(d, ""));
  }

  /**
    * `findById`: the device with exactly this id, or `null`. A non-empty reference is
    * read with `parseInt`: NaN is refused by the ORM, a number no user carries leaves the
    * employee `null`, and a user found gives the employee with the id-based role.
    */
  function FindById(users: seq<UserRow>, devices: seq<DeviceRow>, id: string): (r: Result<Option<DeviceWithEmployee>, Error>)
    ensures r == Ok(None) <==> FindDevice(devices, id).None?
    ensures r.Ok? && r.value.Some? ==> r.value.value.device == FindDevice(devices, id).value
    ensures r.Err? ==>
      && r.error == InvalidIdentifier && FindDevice(devices, id).Some?
      && var e := FindDevice(devices, id).value.employeeId; e.Some? && e.value != "" && ParseInt(e.value).None?
    ensures FindDevice(devices, id).Some? &&
      (var e := FindDevice(devices, id).value.employeeId; e.Some? && e.value != "" && ParseInt(e.value).None?)
      ==> r == Err(InvalidIdentifier)
    ensures r.Ok? && r.value.Some? ==>
      var e := r.value.value.device.employeeId;
      (r.value.value.employee.None? <==> e.None? || e.value == "" || FindUser(users, ParseInt(e.value).value).None?)
    ensures r.Ok? && r.value.Some? && r.value.value.employee.Some? ==>
      r.value.value.device.employeeId.Some? &&
      exists u :: u in users && ParseInt(r.value.value.device.employeeId.value) == Some(u.id as int)
        && r.value.value.employee.value
           == EmployeeSummary(r.value.value.device.employeeId.value, EmployeeRepository.FullName(u), EmployeeRepository.IdRole(u.id))
  {
    match FindDevice(devices, id)
    case None => Ok(None)
    case Some(d) =>
      if d.employeeId.Some? && d.employeeId.value != "" then
        match ParseInt(d.employeeId.value)
        case None => Err(InvalidIdentifier)
        case Some(n) =>
          match FindUser(users, n)
          case None => Ok(Some(DeviceWithEmployee(d, None)))
          case Some(u) =>
            var employee := EmployeeSummary(d.employeeId.value, EmployeeRepository.FullName(u), EmployeeRepository.IdRole(u.id));
            Ok(Some(DeviceWithEmployee(d, Some(employee))))
      else
        Ok(Some(DeviceWithEmployee(d, None)))
  }

  /** A reference the two joins read alike: none, empty, or the decimal form of a number. */
  ghost predicate CanonicalReference(e: Option<string>) {
    e.None? || e.value == "" || exists n: nat :: ToDecimal(n) == e.value
  }

  /** For a canonical reference, the single-device lookup agrees with the listing. */
  lemma FindByIdAgreesWithFindAll(users: seq<UserRow>, devices: seq<DeviceRow>, k: nat)
    requires UserIdsDistinct(users) && DeviceIdsDistinct(devices) && k < |devices|
    requires CanonicalReference(devices[k].employeeId)
    ensures FindById(users, devices, devices[k].id) == Ok(Some(FindAll(users, devices)[k]))
  {
    var d := devices[k];
    FindDeviceUnique(devices, d);
    assert FindAll(users, devices)[k] == Attach(users, d);
    if d.employeeId.Some? && d.employeeId.value != "" {
      var n: nat :| ToDecimal(n) == d.employeeId.value;
      CanonicalAttach(users, d, n);
    }
  }

  /**
    * A reference that is the decimal form of `n` parses to `n`, and the listing's join
    * then finds the user whose id is `n`, as the single-device lookup does.
    */
  lemma CanonicalAttach(users: seq<UserRow>, d: DeviceRow, n: nat)
    requires UserIdsDistinct(users) && d.employeeId == Some(ToDecimal(n))
    ensures ParseInt(d.employeeId.value) == Some(n)
    ensures FindUser(users, n).None? ==> Attach(users, d).employee.None?
    ensures FindUser(users, n).Some? ==>
      Attach(users, d).employee
        == Some(EmployeeSummary(d.employeeId.value, EmployeeRepository.FullName(FindUser(users, n).value),
                                EmployeeRepository.IdRole(FindUser(users, n).value.id)))
  {
    ParseDecimal(n);
    match FindUser(users, n)
    case None =>
      forall u | u in users ensures ToDecimal(u.id) != ToDecimal(n) {
        DecimalInjective(u.id, n);
      }
    case Some(u) =>
      var v := UserByKey(users, ToDecimal(n));
      assert v.Some?;
      DecimalInjective(v.value.id, n);
      FindUserUnique(users, v.value);
  }

  /** A reference written with a leading zero, such as "03" for user 3. */
  function Padded(id: UserId): string {
    "0" + ToDecimal(id)
  }

  /** The employee lookup reads a zero-padded reference as the user it pads. */
  lemma PaddedReferenceNamesUser(users: seq<UserRow>, u: UserRow)
    requires UserIdsDistinct(users) && u in users
    ensures EmployeeRepository.FindById(users, Padded(u.id))
         == Ok(Some(EmployeeRepository.ToEmployee(u, EmployeeRepository.IdRole(u.id))))
  {
    ZeroPaddedParses(u.id);
    FindUserUnique(users, u);
  }

  /** The listing matches a zero-padded reference against the id strings and shows no employee. */
  lemma PaddedReferenceHiddenInListing(users: seq<UserRow>, d: DeviceRow, id: UserId)
    requires d.employeeId == Some(Padded(id))
    ensures !Linked(users, d) && Attach(users, d).employee.None?
  {
    ZeroPaddedParses(id);
  }

  /**
    * A device whose reference pads a user's id: the listing shows it with no employee,
    * the single-device lookup shows it with that user.
    */
  lemma PaddedReferenceShownByLookup(users: seq<UserRow>, devices: seq<DeviceRow>, k: nat, u: UserRow)
    requires UserIdsDistinct(users) && DeviceIdsDistinct(devices) && k < |devices| && u in users
    requires devices[k].employeeId == Some(Padded(u.id))
    ensures FindAll(users, devices)[k].employee.None?
    ensures FindById(users, devices, devices[k].id)
         == Ok(Some(DeviceWithEmployee(devices[k],
              Some(EmployeeSummary(Padded(u.id), EmployeeRepository.FullName(u), EmployeeRepository.IdRole(u.id))))))
  {
    ZeroPaddedParses(u.id);
    FindDeviceUnique(devices, devices[k]);
    FindUserUnique(users, u);
    PaddedReferenceHiddenInListing(users, devices[k], u.id);
  }

  /** `findByUserId`: the devices whose reference is exactly the given string, in order. */
  function FindByUserId(devices: seq<DeviceRow>, userId: string): (r: seq<DeviceRow>)
    ensures Subsequence(r, devices)
    ensures forall i :: 0 <= i < |r| ==> r[i] in devices && r[i].employeeId == Some(userId)
    ensures forall i :: 0 <= i < |devices| && devices[i].employeeId == Some(userId) ==> devices[i] in r
    ensures forall d :: multiset(r)[d] == if d.employeeId == Some(userId) then multiset(devices)[d] else 0
  {
    var p := (d: DeviceRow) => d.employeeId == Some(userId);
    FilterCount(devices, p);
    Filter(devices, p)
  }

  /** `findUnassigned`: the devices whose reference is `null` (not the empty string), with no employee. */
  function FindUnassigned(devices: seq<DeviceRow>): (r: seq<DeviceWithEmployee>)
    ensures Subsequence(Rows(r), devices)
    ensures forall i :: 0 <= i < |r| ==> r[i].device in devices && r[i].device.employeeId.None? && r[i].employee.None?
    ensures forall i :: 0 <= i < |devices| && devices[i].employeeId.None? ==> devices[i] in Rows(r)
    ensures forall d :: multiset(Rows(r))[d] == if d.employeeId.None? then multiset(devices)[d] else 0
  {
    var p := (d: DeviceRow) => d.employeeId.None?;
    var s := Filter(devices, p);
    FilterCount(devices, p);
    var r := seq(|s|, i requires 0 <= i < |s| => DeviceWithEmployee(s[i], None));
    assert Rows(r) == s;
    r
  }

  // ---------------------------------------------------------------------------
  // Writes
  // ---------------------------------------------------------------------------

  /** A row with the given fields of the patch written over it. */
  function ApplyPatch(d: DeviceRow, p: DevicePatch): (r: DeviceRow)
    ensures r.id == d.id
    ensures r.name == if p.name.Some? then p.name.value else d.name
    ensures r.deviceType == if p.deviceType.Some? then p.deviceType.value else d.deviceType
    ensures r.employeeId == if p.employeeId.Some? then p.employeeId.value else d.employeeId
  {
    DeviceRow(d.id, p.name.GetOr(d.name), p.deviceType.GetOr(d.deviceType), p.employeeId.GetOr(d.employeeId))
  }

  /** The device table after `update({ where: { id }, data })`: only the row with that id changes. */
  function ReplaceDevice(devices: seq<DeviceRow>, id: string, p: DevicePatch): (r: seq<DeviceRow>)
    ensures |r| == |devices|
    ensures forall i :: 0 <= i < |r| ==> r[i].id == devices[i].id
    ensures forall i :: 0 <= i < |r| && devices[i].id != id ==> r[i] == devices[i]
    ensures forall i :: 0 <= i < |r| && devices[i].id == id ==> r[i] == ApplyPatch(devices[i], p)
    ensures DeviceIdsDistinct(devices) ==> DeviceIdsDistinct(r)
  {
    seq(|devices|, i requires 0 <= i < |devices| => if devices[i].id == id then ApplyPatch(devices[i], p) else devices[i])
  }

  /** The device table after `delete({ where: { id } })`. */
  function RemoveDevice(devices: seq<DeviceRow>, id: string): (r: seq<DeviceRow>)
    ensures forall i :: 0 <= i < |r| ==> r[i] in devices && r[i].id != id
    ensures forall i :: 0 <= i < |devices| && devices[i].id != id ==> devices[i] in r
    ensures Subsequence(r, devices)
    ensures forall d :: multiset(r)[d] == if d.id != id then multiset(devices)[d] else 0
  {
    var p := (d: DeviceRow) => d.id != id;
    FilterCount(devices, p);
    Filter(devices, p)
  }

  /** With unique ids, deleting the id of the device at `k` drops exactly that device. */
  lemma {:induction false} RemoveDeviceAt(devices: seq<DeviceRow>, k: nat)
    requires DeviceIdsDistinct(devices) && k < |devices|
    ensures RemoveDevice(devices, devices[k].id) == devices[..k] + devices[k + 1..]
  {
    if k == 0 {
      RemoveNewestDevice(devices);
    } else {
      var t, id := devices[1..], devices[k].id;
      assert t[k - 1] == devices[k];
      DeviceTailDistinct(devices);
      RemoveDeviceAt(t, k - 1);
      RemoveDeviceStep(devices, id);
      CutAfterHead(devices, k);
    }
  }

  /** Deleting a device keeps the remaining ids unique. */
  lemma RemoveDeviceKeepsDistinct(devices: seq<DeviceRow>, k: nat)
    requires DeviceIdsDistinct(devices) && k < |devices|
    ensures DeviceIdsDistinct(RemoveDevice(devices, devices[k].id))
  {
    RemoveDeviceAt(devices, k);
    DropKeepsDeviceIdsDistinct(devices, k);
  }

  /** Cutting one device out of a table with unique ids leaves them unique. */
  lemma DropKeepsDeviceIdsDistinct(devices: seq<DeviceRow>, k: nat)
    requires DeviceIdsDistinct(devices) && k < |devices|
    ensures DeviceIdsDistinct(devices[..k] + devices[k + 1..])
  {
    var r := devices[..k] + devices[k + 1..];
    forall i, j | 0 <= i < j < |r| ensures r[i].id != r[j].id {
      var i', j' := if i < k then i else i + 1, if j < k then j else j + 1;
      assert r[i] == devices[i'] && r[j] == devices[j'];
    }
  }

  /** Deleting an id the newest row does not carry keeps that row in front. */
  lemma RemoveDeviceStep(devices: seq<DeviceRow>, id: string)
    requires devices != [] && devices[0].id != id
    ensures RemoveDevice(devices, id) == [devices[0]] + RemoveDevice(devices[1..], id)
  {
  }

  /** With unique ids, deleting the newest device's id drops just that device. */
  lemma RemoveNewestDevice(devices: seq<DeviceRow>)
    requires DeviceIdsDistinct(devices) && devices != []
    ensures RemoveDevice(devices, devices[0].id) == devices[1..]
  {
    var t := devices[1..];
    forall i | 0 <= i < |t| ensures t[i].id != devices[0].id {
      assert devices[0].id != devices[i + 1].id;
    }
    RemoveMissingDevice(t, devices[0].id);
  }

  /** Dropping the newest device keeps the ids unique. */
  lemma DeviceTailDistinct(devices: seq<DeviceRow>)
    requires DeviceIdsDistinct(devices) && devices != []
    ensures DeviceIdsDistinct(devices[1..])
  {
    var t := devices[1..];
    forall i, j | 0 <= i < j < |t| ensures t[i].id != t[j].id {
      assert devices[i + 1].id != devices[j + 1].id;
    }
  }

  /** Deleting an id no device carries changes nothing. */
  lemma {:induction false} RemoveMissingDevice(devices: seq<DeviceRow>, id: string)
    requires forall i :: 0 <= i < |devices| ==> devices[i].id != id
    ensures RemoveDevice(devices, id) == devices
  {
    if devices != [] {
      RemoveMissingDevice(devices[1..], id);
    }
  }

  /**
    * `create`: the row is stored as the newest with the id the database generates
    * (a fresh key, passed in here) and the fields exactly as given.
    */
  method Create(db: Database, freshId: string, name: string, deviceType: string, employeeId: Option<string>)
    returns (d: DeviceRow)
    requires db.Valid() && FindDevice(db.devices, freshId).None?
    modifies db
    ensures db.Valid()
    ensures d == DeviceRow(freshId, name, deviceType, employeeId)
    ensures db.devices == [d] + old(db.devices)
    ensures db.users == old(db.users) && db.nextUserId == old(db.nextUserId)
  {
    d := DeviceRow(freshId, name, deviceType, employeeId);
    var devices := [d] + db.devices;
    assert DeviceIdsDistinct(devices) by {
      forall i, j | 0 <= i < j < |devices| ensures devices[i].id != devices[j].id {
        assert devices[j] in db.devices;
      }
    }
    db.devices := devices;
  }

  /** `update`: the ORM refuses an id no device carries; otherwise that row takes the patch. */
  method Update(db: Database, id: string, p: DevicePatch) returns (r: Result<DeviceRow, Error>)
    requires db.Valid()
    modifies db
    ensures db.Valid()
    ensures db.users == old(db.users) && db.nextUserId == old(db.nextUserId)
    ensures FindDevice(old(db.devices), id).None? ==> r == Err(RecordNotFound) && db.devices == old(db.devices)
    ensures FindDevice(old(db.devices), id).Some? ==>
      && r == Ok(ApplyPatch(FindDevice(old(db.devices), id).value, p))
      && db.devices == ReplaceDevice(old(db.devices), id, p)
  {
    var found := FindDevice(db.devices, id);
    if found.None? {
      return Err(RecordNotFound);
    }
    db.devices := ReplaceDevice(db.devices, id, p);
    r := Ok(ApplyPatch(found.value, p));
  }

  /** `delete`: the ORM refuses an id no device carries; otherwise that row goes. */
  method Delete(db: Database, id: string) returns (r: Result<(), Error>)
    requires db.Valid()
    modifies db
    ensures db.Valid()
    ensures db.users == old(db.users) && db.nextUserId == old(db.nextUserId)
    ensures FindDevice(old(db.devices), id).None? ==> r == Err(RecordNotFound) && db.devices == old(db.devices)
    ensures FindDevice(old(db.devices), id).Some? ==> r == Ok(()) && db.devices == RemoveDevice(old(db.devices), id)
  {
    var found := FindDevice(db.devices, id);
    if found.None? {
      return Err(RecordNotFound);
    }
    var devices := db.devices;
    var k :| 0 <= k < |devices| && devices[k] == found.value;
    RemoveDeviceKeepsDistinct(devices, k);
    db.devices := RemoveDevice(devices, id);
    r := Ok(());
  }

  /** After a user is deleted, a device still referring to them is listed with no employee. */
  lemma DeletedUserUnlinked(users: seq<UserRow>, k: nat, d: DeviceRow)
    requires UserIdsDistinct(users) && k < |users|
    requires d.employeeId == Some(ToDecimal(users[k].id))
    ensures Attach(EmployeeRepository.RemoveUser(users, users[k].id), d).employee.None?
  {
    var rest := EmployeeRepository.RemoveUser(users, users[k].id);
    forall u | u in rest ensures ToDecimal(u.id) != d.employeeId.value {
      DecimalInjective(u.id, users[k].id);
    }
  }
}
