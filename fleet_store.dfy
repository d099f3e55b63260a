/**
  * The records the fleet-inventory layer reads and writes, the errors its operations
  * throw, and the database they live in. The ORM and the SQLite file behind it are
  * replaced by one in-memory store: the `users` table and the `Device` table as
  * sequences kept in the order the repositories ask for (`created_at` / `createdAt`
  * descending, so the newest row comes first).
  */
module FleetStore {
  import opened Wrappers
  import opened Strings

  /** The `users.id` column: an auto-incremented integer primary key, so at least 1. */
  type UserId = n: int | n >= 1 witness 1

  /** One row of the `users` table (the timestamps are left out). */
  datatype UserRow = UserRow(id: UserId, firstName: string, lastName: string, email: string)

  /** One row of the `Device` table; `employeeId` is a nullable string column. */
  datatype DeviceRow = DeviceRow(id: string, name: string, deviceType: string, employeeId: Option<string>)

  /** What the services and the ORM throw. */
  datatype Error =
    | DeviceIdRequired
    | DeviceNameRequired
    | DeviceTypeRequired
    | DeviceNotFound
    | DeviceNameEmpty
    | DeviceTypeEmpty
    | UserIdRequired
    | UserNotFound
    | EmployeeIdRequired
    | EmployeeNameRequired
    | EmployeeRoleRequired
    | EmployeeNotFound
    | EmployeeNameEmpty
    | EmployeeRoleEmpty
      /** The ORM refuses a `where: { id: NaN }` lookup on the integer `users.id`. */
    | InvalidIdentifier
      /** The ORM's `update` / `delete` found no row with the given key. */
    | RecordNotFound

  /** The message of each error the services throw themselves. */
  function Message(e: Error): string {
    match e
    case DeviceIdRequired => "Device ID is required"
    case DeviceNameRequired => "Device name is required"
    case DeviceTypeRequired => "Device type is required"
    case DeviceNotFound => "Device not found"
    case DeviceNameEmpty => "Device name cannot be empty"
    case DeviceTypeEmpty => "Device type cannot be empty"
    case UserIdRequired => "User ID is required"
    case UserNotFound => "User not found"
    case EmployeeIdRequired => "Employee ID is required"
    case EmployeeNameRequired => "Employee name is required"
    case EmployeeRoleRequired => "Employee role is required"
    case EmployeeNotFound => "Employee not found"
    case EmployeeNameEmpty => "Employee name cannot be empty"
    case EmployeeRoleEmpty => "Employee role cannot be empty"
    case InvalidIdentifier => "Invalid value provided for users.id"
    case RecordNotFound => "Record to update or delete does not exist"
  }

  // ---------------------------------------------------------------------------
  // Keys and lookups
  // ---------------------------------------------------------------------------

  predicate UserIdsDistinct(users: seq<UserRow>) {
    forall i, j :: 0 <= i < j < |users| ==> users[i].id != users[j].id
  }

  predicate DeviceIdsDistinct(devices: seq<DeviceRow>) {
    forall i, j :: 0 <= i < j < |devices| ==> devices[i].id != devices[j].id
  }

  /** `findUnique({ where: { id } })` on the users table. */
  function FindUser(users: seq<UserRow>, id: int): (r: Option<UserRow>)
    ensures r.Some? ==> r.value in users && r.value.id == id
    ensures r.None? ==> forall u :: u in users ==> u.id != id
  {
    if users == [] then None
    else if users[0].id == id then Some(users[0])
    else FindUser(users[1..], id)
  }

  /** `findUnique({ where: { id } })` on the device table. */
  function FindDevice(devices: seq<DeviceRow>, id: string): (r: Option<DeviceRow>)
    ensures r.Some? ==> r.value in devices && r.value.id == id
    ensures r.None? ==> forall d :: d in devices ==> d.id != id
  {
    if devices == [] then None
    else if devices[0].id == id then Some(devices[0])
    else FindDevice(devices[1..], id)
  }

  /** With a primary key, the row found is the one row carrying that key. */
  lemma FindUserUnique(users: seq<UserRow>, u: UserRow)
    requires UserIdsDistinct(users) && u in users
    ensures FindUser(users, u.id) == Some(u)
  {
    var v := FindUser(users, u.id).value;
    var i :| 0 <= i < |users| && users[i] == u;
    var j :| 0 <= j < |users| && users[j] == v;
    assert users[i].id == users[j].id;
  }

  /** With a primary key, the device found is the one device carrying that key. */
  lemma FindDeviceUnique(devices: seq<DeviceRow>, d: DeviceRow)
    requires DeviceIdsDistinct(devices) && d in devices
    ensures FindDevice(devices, d.id) == Some(d)
  {
    var e := FindDevice(devices, d.id).value;
    var i :| 0 <= i < |devices| && devices[i] == d;
    var j :| 0 <= j < |devices| && devices[j] == e;
    assert devices[i].id == devices[j].id;
  }

  // ---------------------------------------------------------------------------
  // Filtering (`Array.prototype.filter` and the ORM's `where`)
  // ---------------------------------------------------------------------------

  /** `r` is `s` with some elements dropped and the rest kept in order. */
  predicate Subsequence<T(==)>(r: seq<T>, s: seq<T>) {
    if r == [] then true
    else if s == [] then false
    else if r[0] == s[0] then Subsequence(r[1..], s[1..])
    else Subsequence(r, s[1..])
  }

  /** The elements of `s` that satisfy `p`, in their original order. */
  function Filter<T(==)>(s: seq<T>, p: T -> bool): (r: seq<T>)
    ensures |r| <= |s|
    ensures forall i :: 0 <= i < |r| ==> r[i] in s && p(r[i])
    ensures forall i :: 0 <= i < |s| && p(s[i]) ==> s[i] in r
    ensures Subsequence(r, s)
  {
    if s == [] then []
    else if p(s[0]) then
      var t := Filter(s[1..], p);
      assert ([s[0]] + t)[1..] == t;
      [s[0]] + t
    else
      Filter(s[1..], p)
  }

  /** A kept element occurs in the result as often as in `s`; a dropped one not at all. */
  lemma {:induction false} FilterCount<T>(s: seq<T>, p: T -> bool)
    ensures forall x :: multiset(Filter(s, p))[x] == if p(x) then multiset(s)[x] else 0
  {
    if s != [] {
      FilterCount(s[1..], p);
      assert s == [s[0]] + s[1..];
    }
  }

  /** A filter every element passes keeps everything. */
  lemma {:induction false} FilterAll<T>(s: seq<T>, p: T -> bool)
    requires forall x :: x in s ==> p(x)
    ensures Filter(s, p) == s
  {
    if s != [] {
      assert forall x :: x in s[1..] ==> x in s;
      FilterAll(s[1..], p);
    }
  }

  /** Cutting out the element at `k > 0` keeps the head and cuts the tail at `k - 1`. */
  lemma CutAfterHead<T>(s: seq<T>, k: nat)
    requires 0 < k < |s|
    ensures s[..k] + s[k + 1..] == [s[0]] + (s[1..][..k - 1] + s[1..][k..])
  {
    assert s[..k] == [s[0]] + s[1..][..k - 1];
    assert s[k + 1..] == s[1..][k..];
  }

  // ---------------------------------------------------------------------------
  // The database
  // ---------------------------------------------------------------------------

  /** The two tables, newest row first, and the next value of the users' id sequence. */
  class Database {
    var users: seq<UserRow>
    var devices: seq<DeviceRow>
    var nextUserId: UserId

    /** The primary keys are unique and every user id was handed out by the sequence. */
    ghost predicate Valid()
      reads this
    {
      && UserIdsDistinct(users)
      && (forall u :: u in users ==> u.id < nextUserId)
      && DeviceIdsDistinct(devices)
    }

    constructor ()
      ensures Valid()
      ensures users == [] && devices == [] && nextUserId == 1
    {
      users := [];
      devices := [];
      nextUserId := 1;
    }
  }
}
