/**
  * `EmployeeRepository`: the application's employees are the rows of the `users`
  * table, shown with a full name made of the two name columns, the decimal form of
  * the id, and a role that the table does not store but that the repository makes up
  * from a fixed list of eight, either by list position or by id.
  */
module EmployeeRepository {
  import opened Wrappers
  import opened Strings
  import opened FleetStore

  /** The eight role names, handed out cyclically. */
  const Roles: seq<string> :=
    ["Developer", "UX Designer", "Secretary", "Manager", "DevOps", "Product Manager", "Data Analyst", "QA Engineer"]

  /** `roles.length`. */
  const RoleCount: nat := 8

  /** `roles[k % roles.length]` for a position or offset `k >= 0`. */
  function RoleAt(k: nat): (role: string)
    ensures role in Roles
  {
    Roles[k % RoleCount]
  }

  /** `roles[(user.id - 1) % roles.length]`; ids start at 1, so the remainder is never negative. */
  function IdRole(id: UserId): (role: string)
    ensures role in Roles
  {
    RoleAt(id - 1)
  }

  /** No two positions of the role list hold the same name. */
  lemma RolesDistinct()
    ensures forall a, b :: 0 <= a < b < RoleCount ==> Roles[a] != Roles[b]
  {
    assert |Roles[0]| == 9 && |Roles[1]| == 11 && |Roles[2]| == 9 && |Roles[3]| == 7;
    assert |Roles[4]| == 6 && |Roles[5]| == 15 && |Roles[6]| == 12 && |Roles[7]| == 11;
    assert Roles[0][0] == 'D' && Roles[1][0] == 'U' && Roles[2][0] == 'S' && Roles[7][0] == 'Q';
  }

  /** The `Employee` entity, without its two timestamps. */
  datatype Employee = Employee(id: string, name: string, role: string)

  /** An employee together with the number of devices assigned to them. */
  datatype EmployeeWithCount = EmployeeWithCount(employee: Employee, devicesCount: nat)

  /** `` `${user.first_name} ${user.last_name}` ``. */
  function FullName(u: UserRow): string {
    u.firstName + " " + u.lastName
  }

  /**
    * The entity built from a row and a role: its id is `user.id.toString()`, which
    * reads back as the row's id.
    */
  function ToEmployee(u: UserRow, role: string): (e: Employee)
    ensures e.id == ToDecimal(u.id)
    ensures ParseInt(e.id) == Some(u.id as int)
    ensures e.name == FullName(u) && e.role == role
  {
    ParseDecimal(u.id);
    Employee(ToDecimal(u.id), FullName(u), role)
  }

  // ---------------------------------------------------------------------------
  // Reads: findAll, findById, findByRole
  // ---------------------------------------------------------------------------

  /**
    * `findAll`: one employee per user, newest first, the role taken from the list by
    * position: the first eight users get the eight roles in order and the list repeats.
    */
  function FindAll(users: seq<UserRow>): (r: seq<Employee>)
    ensures |r| == |users|
    ensures forall i :: 0 <= i < |r| ==> r[i].id == ToDecimal(users[i].id)
    ensures forall i :: 0 <= i < |r| ==> ParseInt(r[i].id) == Some(users[i].id as int) && r[i].name == FullName(users[i])
    ensures forall i :: 0 <= i < |r| ==> r[i].role in Roles
  {
    seq(|users|, i requires 0 <= i < |users| => ToEmployee(users[i], RoleAt(i)))
  }

  /** The `findAll` list hands out the eight roles by position, cycling through them in order. */
  lemma FindAllRoles(users: seq<UserRow>, i: nat)
    requires i < |users|
    ensures FindAll(users)[i].role == Roles[i % RoleCount]
  {
  }

  /**
    * `findById`: `parseInt(id)` picks the row. An id with no leading digits parses to NaN,
    * which the ORM refuses; a number no row carries gives `null`; otherwise the role
    * comes from the id, not from a list position.
    */
  function FindById(users: seq<UserRow>, id: string): (r: Result<Option<Employee>, Error>)
    ensures r.Err? <==> ParseInt(id).None?
    ensures r.Err? ==> r.error == InvalidIdentifier
    ensures r == Ok(None) <==> ParseInt(id).Some? && forall u :: u in users ==> ParseInt(id) != Some(u.id as int)
    ensures r.Ok? && r.value.Some? ==>
      exists u :: u in users && ParseInt(id) == Some(u.id as int) && r.value.value == ToEmployee(u, IdRole(u.id))
  {
    match ParseInt(id)
    case None => Err(InvalidIdentifier)
    case Some(n) =>
      match FindUser(users, n)
      case None => Ok(None)
      case Some(u) => Ok(Some(ToEmployee(u, IdRole(u.id))))
  }

  /** Looking up a listed employee's id finds that same user, with the id-based role. */
  lemma FindByIdOfListed(users: seq<UserRow>, i: nat)
    requires UserIdsDistinct(users) && i < |users|
    ensures FindById(users, FindAll(users)[i].id) == Ok(Some(ToEmployee(users[i], IdRole(users[i].id))))
    ensures FindAll(users)[i].id == ToEmployee(users[i], IdRole(users[i].id)).id
  {
    FindUserUnique(users, users[i]);
  }

  /**
    * The two ways of choosing a role agree for a user exactly when the user's list
    * position and id are congruent modulo eight; deleting or reordering users breaks it.
    */
  lemma RoleSourcesAgree(users: seq<UserRow>, i: nat)
    requires i < |users|
    ensures FindAll(users)[i].role == IdRole(users[i].id) <==> i % RoleCount == (users[i].id - 1) % RoleCount
  {
    RolesDistinct();
    var a, b := i % RoleCount, (users[i].id - 1) % RoleCount;
    assert FindAll(users)[i].role == Roles[a];
    assert IdRole(users[i].id) == Roles[b];
  }

  /** `employee.role.toLowerCase().includes(role.toLowerCase())`. */
  predicate RoleMatches(e: Employee, query: string) {
    Includes(ToLower(e.role), ToLower(query))
  }

  /** `findByRole`: the `findAll` list narrowed, in order, to the roles containing the query. */
  function FindByRole(users: seq<UserRow>, query: string): (r: seq<Employee>)
    ensures Subsequence(r, FindAll(users))
    ensures forall i :: 0 <= i < |r| ==> r[i] in FindAll(users) && RoleMatches(r[i], query)
    ensures forall i :: 0 <= i < |users| && RoleMatches(FindAll(users)[i], query) ==> FindAll(users)[i] in r
    ensures forall e :: multiset(r)[e] == if RoleMatches(e, query) then multiset(FindAll(users))[e] else 0
  {
    var p := (e: Employee) => RoleMatches(e, query);
    FilterCount(FindAll(users), p);
    Filter(FindAll(users), p)
  }

  /** The empty query matches every role. */
  lemma FindByEmptyRole(users: seq<UserRow>)
    ensures FindByRole(users, "") == FindAll(users)
  {
    var all := FindAll(users);
    forall e | e in all ensures RoleMatches(e, "") {
      assert OccursAt(ToLower(e.role), "", 0);
    }
    FilterAll(all, e => RoleMatches(e, ""));
  }

  /** The search ignores the case of the query. */
  lemma FindByRoleIgnoresCase(users: seq<UserRow>, query: string)
    ensures FindByRole(users, ToLower(query)) == FindByRole(users, query)
  {
    ToLowerIdempotent(query);
    FilterSame(FindAll(users), e => RoleMatches(e, ToLower(query)), e => RoleMatches(e, query));
  }

  /** Two tests that agree on every element of `s` keep the same elements. */
  lemma {:induction false} FilterSame<T>(s: seq<T>, p: T -> bool, q: T -> bool)
    requires forall i :: 0 <= i < |s| ==> p(s[i]) == q(s[i])
    ensures Filter(s, p) == Filter(s, q)
  {
    if s != [] {
      FilterSame(s[1..], p, q);
    }
  }

  // ---------------------------------------------------------------------------
  // Names and e-mail addresses (create, update)
  // ---------------------------------------------------------------------------

  /**
    * `const [firstName, ...lastNameParts] = name.split(' ')` and
    * `lastNameParts.join(' ') || ''`: the text before the first space, and the rest.
    */
  function SplitName(name: string): (string, string) {
    var parts := Split(name, ' ');
    (parts[0], Join(parts[1..], ' '))
  }

  /**
    * The first name holds no space; a name with a space is the first and last name
    * joined by one space again; a name without one is all first name.
    */
  lemma NameRoundTrip(name: string)
    ensures ' ' !in SplitName(name).0
    ensures ' ' in name ==> SplitName(name).0 + " " + SplitName(name).1 == name
    ensures ' ' !in name ==> SplitName(name) == (name, "")
  {
    var parts := Split(name, ' ');
    JoinSplit(name, ' ');
    SplitPiecesFree(name, ' ');
    assert ' ' !in parts[0];
    if ' ' !in name {
      SplitFree(name, ' ');
    } else {
      assert |parts| >= 2;
      assert Join(parts, ' ') == parts[0] + " " + Join(parts[1..], ' ');
    }
  }

  /** `` `${firstName.toLowerCase()}.${lastName.toLowerCase()}@company.com` ``. */
  function Email(first: string, last: string): string {
    ToLower(first) + "." + ToLower(last) + "@company.com"
  }

  /** The derived address has no upper-case letter and ends in the company domain. */
  lemma EmailShape(first: string, last: string)
    ensures forall i :: 0 <= i < |Email(first, last)| ==> !('A' <= Email(first, last)[i] <= 'Z')
    ensures |Email(first, last)| >= 12 && Email(first, last)[|Email(first, last)| - 12..] == "@company.com"
  {
    var e := Email(first, last);
    var a, b := ToLower(first), ToLower(last);
    ToLowerIdempotent(first);
    ToLowerIdempotent(last);
    assert e == a + ("." + b + "@company.com");
    assert e == (a + "." + b) + "@company.com";
  }

  /** Names differing only in case get the same address. */
  lemma EmailIgnoresCase(first: string, last: string)
    ensures Email(ToLower(first), ToLower(last)) == Email(first, last)
  {
    ToLowerIdempotent(first);
    ToLowerIdempotent(last);
  }

  /** The row `create` inserts for a full name. */
  function NewUser(id: UserId, name: string): UserRow {
    var names := SplitName(name);
    UserRow(id, names.0, names.1, Email(names.0, names.1))
  }

  /** JavaScript truthiness of an optional string: present and not empty. */
  function Truthy(s: Option<string>): Option<string> {
    if s.Some? && s.value != "" then s else None
  }

  /**
    * The users table after `update` with `data.name` (when truthy): the matching row's
    * two name columns are re-derived; the id, the e-mail and every other row stay.
    */
  function Rename(users: seq<UserRow>, id: int, name: Option<string>): (r: seq<UserRow>)
    ensures |r| == |users|
    ensures forall i :: 0 <= i < |r| ==> r[i].id == users[i].id && r[i].email == users[i].email
    ensures forall i :: 0 <= i < |r| && (users[i].id != id || name.None?) ==> r[i] == users[i]
    ensures forall i :: 0 <= i < |r| && users[i].id == id && name.Some? ==>
      (r[i].firstName, r[i].lastName) == SplitName(name.value)
    ensures UserIdsDistinct(users) ==> UserIdsDistinct(r)
  {
    seq(|users|, i requires 0 <= i < |users| =>
      if users[i].id == id && name.Some? then
        var names := SplitName(name.value);
        users[i].(firstName := names.0, lastName := names.1)
      else users[i])
  }

  /** Renaming keeps every id below a bound that held before. */
  lemma RenameKeepsBound(users: seq<UserRow>, id: int, name: Option<string>, bound: int)
    requires forall u :: u in users ==> u.id < bound
    ensures forall u :: u in Rename(users, id, name) ==> u.id < bound
  {
    var r := Rename(users, id, name);
    forall u | u in r ensures u.id < bound {
      var i :| 0 <= i < |r| && r[i] == u;
      assert users[i] in users;
    }
  }

  /** After renaming the row at `k`, looking its id up finds the renamed row. */
  lemma RenameLookup(users: seq<UserRow>, k: nat, name: Option<string>)
    requires UserIdsDistinct(users) && k < |users|
    ensures var renamed := Rename(users, users[k].id, name);
      UserIdsDistinct(renamed) && FindUser(renamed, users[k].id) == Some(renamed[k])
  {
    var renamed := Rename(users, users[k].id, name);
    FindUserUnique(renamed, renamed[k]);
  }

  /** The users table after `delete({ where: { id } })`. */
  function RemoveUser(users: seq<UserRow>, id: int): (r: seq<UserRow>)
    ensures forall i :: 0 <= i < |r| ==> r[i] in users && r[i].id != id
    ensures forall i :: 0 <= i < |users| && users[i].id != id ==> users[i] in r
    ensures Subsequence(r, users)
    ensures forall u :: multiset(r)[u] == if u.id != id then multiset(users)[u] else 0
  {
    var p := (u: UserRow) => u.id != id;
    FilterCount(users, p);
    Filter(users, p)
  }

  /** With unique ids, deleting the id of the row at `k` drops exactly that row. */
  lemma {:induction false} RemoveUserAt(users: seq<UserRow>, k: nat)
    requires UserIdsDistinct(users) && k < |users|
    ensures RemoveUser(users, users[k].id) == users[..k] + users[k + 1..]
  {
    if k == 0 {
      RemoveNewestUser(users);
    } else {
      var t, id := users[1..], users[k].id;
      assert t[k - 1] == users[k];
      TailDistinct(users);
      RemoveUserAt(t, k - 1);
      RemoveUserStep(users, id);
      CutAfterHead(users, k);
    }
  }

  /** Deleting a row keeps the remaining ids unique. */
  lemma RemoveUserKeepsDistinct(users: seq<UserRow>, k: nat)
    requires UserIdsDistinct(users) && k < |users|
    ensures UserIdsDistinct(RemoveUser(users, users[k].id))
  {
    RemoveUserAt(users, k);
    DropKeepsDistinct(users, k);
  }

  /** Cutting one row out of a table with unique ids leaves them unique. */
  lemma DropKeepsDistinct(users: seq<UserRow>, k: nat)
    requires UserIdsDistinct(users) && k < |users|
    ensures UserIdsDistinct(users[..k] + users[k + 1..])
  {
    var r := users[..k] + users[k + 1..];
    forall i, j | 0 <= i < j < |r| ensures r[i].id != r[j].id {
      var i', j' := if i < k then i else i + 1, if j < k then j else j + 1;
      assert r[i] == users[i'] && r[j] == users[j'];
    }
  }

  /** Deleting an id the newest row does not carry keeps that row in front. */
  lemma RemoveUserStep(users: seq<UserRow>, id: int)
    requires users != [] && users[0].id != id
    ensures RemoveUser(users, id) == [users[0]] + RemoveUser(users[1..], id)
  {
  }

  /** With unique ids, deleting the newest row's id drops just that row. */
  lemma RemoveNewestUser(users: seq<UserRow>)
    requires UserIdsDistinct(users) && users != []
    ensures RemoveUser(users, users[0].id) == users[1..]
  {
    var t := users[1..];
    forall i | 0 <= i < |t| ensures t[i].id != users[0].id {
      assert users[0].id != users[i + 1].id;
    }
    RemoveMissingUser(t, users[0].id);
  }

  /** Dropping the newest row keeps the ids unique. */
  lemma TailDistinct(users: seq<UserRow>)
    requires UserIdsDistinct(users) && users != []
    ensures UserIdsDistinct(users[1..])
  {
    var t := users[1..];
    forall i, j | 0 <= i < j < |t| ensures t[i].id != t[j].id {
      assert users[i + 1].id != users[j + 1].id;
    }
  }

  /** Deleting an id no row carries changes nothing. */
  lemma {:induction false} RemoveMissingUser(users: seq<UserRow>, id: int)
    requires forall i :: 0 <= i < |users| ==> users[i].id != id
    ensures RemoveUser(users, id) == users
  {
    if users != [] {
      RemoveMissingUser(users[1..], id);
    }
  }

  // ---------------------------------------------------------------------------
  // Writes: create, update, delete
  // ---------------------------------------------------------------------------

  /**
    * `create`: the full name is split into the two name columns, the e-mail derived
    * from them, the next id of the sequence taken, and the row stored as the newest.
    * The role is only echoed back: the table has no column for it.
    */
  method Create(db: Database, name: string, role: string) returns (e: Employee)
    requires db.Valid()
    modifies db
    ensures db.Valid()
    ensures db.users == [NewUser(old(db.nextUserId), name)] + old(db.users)
    ensures db.nextUserId == old(db.nextUserId) + 1 && db.devices == old(db.devices)
    ensures e == ToEmployee(db.users[0], role)
  {
    var row := NewUser(db.nextUserId, name);
    var users := [row] + db.users;
    assert UserIdsDistinct(users) by {
      forall i, j | 0 <= i < j < |users| ensures users[i].id != users[j].id {
        assert users[j] in db.users;
      }
    }
    db.users := users;
    db.nextUserId := db.nextUserId + 1;
    e := ToEmployee(row, role);
  }

  /**
    * `update`: a truthy `name` re-derives the name columns (the e-mail is kept); the
    * ORM refuses a NaN id and an id no row carries. The role returned is the requested
    * one when truthy, else the id-based one.
    */
  method Update(db: Database, id: string, name: Option<string>, role: Option<string>)
    returns (r: Result<Employee, Error>)
    requires db.Valid()
    modifies db
    ensures db.Valid()
    ensures db.devices == old(db.devices) && db.nextUserId == old(db.nextUserId)
    ensures ParseInt(id).None? ==> r == Err(InvalidIdentifier)
    ensures ParseInt(id).Some? && FindUser(old(db.users), ParseInt(id).value).None? ==> r == Err(RecordNotFound)
    ensures r.Err? ==> db.users == old(db.users)
    ensures r.Ok? <==> ParseInt(id).Some? && FindUser(old(db.users), ParseInt(id).value).Some?
    ensures r.Ok? ==>
      && db.users == Rename(old(db.users), ParseInt(id).value, Truthy(name))
      && var u := FindUser(db.users, ParseInt(id).value).value;
         r.value == ToEmployee(u, if Truthy(role).Some? then role.value else IdRole(u.id))
  {
    var n := ParseInt(id);
    if n.None? {
      return Err(InvalidIdentifier);
    }
    var found := FindUser(db.users, n.value);
    if found.None? {
      return Err(RecordNotFound);
    }
    var users := db.users;
    var k :| 0 <= k < |users| && users[k] == found.value;
    var renamed := Rename(users, n.value, Truthy(name));
    RenameKeepsBound(users, n.value, Truthy(name), db.nextUserId);
    RenameLookup(users, k, Truthy(name));
    var u := renamed[k];
    var e := ToEmployee(u, if Truthy(role).Some? then role.value else IdRole(u.id));
    db.users := renamed;
    r := Ok(e);
  }

  /** `delete`: the ORM refuses a NaN id and an id no row carries; otherwise that row goes. */
  method Delete(db: Database, id: string) returns (r: Result<(), Error>)
    requires db.Valid()
    modifies db
    ensures db.Valid()
    ensures db.devices == old(db.devices) && db.nextUserId == old(db.nextUserId)
    ensures ParseInt(id).None? ==> r == Err(InvalidIdentifier)
    ensures ParseInt(id).Some? && FindUser(old(db.users), ParseInt(id).value).None? ==> r == Err(RecordNotFound)
    ensures r.Err? ==> db.users == old(db.users)
    ensures r.Ok? <==> ParseInt(id).Some? && FindUser(old(db.users), ParseInt(id).value).Some?
    ensures r.Ok? ==> db.users == RemoveUser(old(db.users), ParseInt(id).value)
  {
    var n := ParseInt(id);
    if n.None? {
      return Err(InvalidIdentifier);
    }
    var found := FindUser(db.users, n.value);
    if found.None? {
      return Err(RecordNotFound);
    }
    var users := db.users;
    var k :| 0 <= k < |users| && users[k] == found.value;
    RemoveUserKeepsDistinct(users, k);
    db.users := RemoveUser(users, n.value);
    r := Ok(());
  }

  // ---------------------------------------------------------------------------
  // findWithDevicesCount
  // ---------------------------------------------------------------------------

  /** `if (device.employeeId)` and a key match: the device counts for `key`. */
  predicate AssignedTo(d: DeviceRow, key: string) {
    d.employeeId == Some(key) && key != ""
  }

  /** The number of devices whose `employeeId` is the non-empty string `key`. */
  function AssignedCount(devices: seq<DeviceRow>, key: string): nat {
    if devices == [] then 0
    else AssignedCount(devices[..|devices| - 1], key) + (if AssignedTo(devices[|devices| - 1], key) then 1 else 0)
  }

  /** `deviceCountByUser.get(key) || 0`. */
  function CountOf(counts: map<string, nat>, key: string): nat {
    if key in counts then counts[key] else 0
  }

  /**
    * `findWithDevicesCount`: the devices are counted per `employeeId` in one pass, then
    * each user of the `findAll` list is paired with the count under its id string.
    */
  method FindWithDevicesCount(db: Database) returns (r: seq<EmployeeWithCount>)
    ensures |r| == |db.users|
    ensures forall i :: 0 <= i < |r| ==>
      r[i].employee == FindAll(db.users)[i] && r[i].devicesCount == AssignedCount(db.devices, ToDecimal(db.users[i].id))
  {
    var devices := db.devices;
    var counts: map<string, nat> := map[];
    var i := 0;
    while i < |devices|
      invariant 0 <= i <= |devices|
      invariant forall k :: k in counts ==> counts[k] == AssignedCount(devices[..i], k)
      invariant forall k :: k !in counts ==> AssignedCount(devices[..i], k) == 0
    {
      var d := devices[i];
      assert devices[..i + 1][..i] == devices[..i];
      if d.employeeId.Some? && d.employeeId.value != "" {
        var key := d.employeeId.value;
        counts := counts[key := CountOf(counts, key) + 1];
      }
      i := i + 1;
    }
    assert devices[..i] == devices;
    var users := db.users;
    var all := FindAll(users);
    r := seq(|users|, j requires 0 <= j < |users| =>
      EmployeeWithCount(all[j], CountOf(counts, ToDecimal(users[j].id))));
  }

  /** The counts of all users added up. */
  function CountsTotal(devices: seq<DeviceRow>, users: seq<UserRow>): nat {
    if users == [] then 0 else AssignedCount(devices, ToDecimal(users[0].id)) + CountsTotal(devices, users[1..])
  }

  /** How many users a single device counts for. */
  function Hits(users: seq<UserRow>, d: DeviceRow): nat {
    if users == [] then 0 else (if AssignedTo(d, ToDecimal(users[0].id)) then 1 else 0) + Hits(users[1..], d)
  }

  /** A device that is unassigned, or assigned to the empty string, counts for nobody. */
  lemma {:induction false} UnassignedCountsForNobody(users: seq<UserRow>, d: DeviceRow)
    requires d.employeeId.None? || d.employeeId == Some("")
    ensures Hits(users, d) == 0
  {
    if users != [] {
      UnassignedCountsForNobody(users[1..], d);
    }
  }

  /** A device that matches none of the users counts for nobody. */
  lemma {:induction false} NoHits(users: seq<UserRow>, d: DeviceRow)
    requires forall i :: 0 <= i < |users| ==> !AssignedTo(d, ToDecimal(users[i].id))
    ensures Hits(users, d) == 0
  {
    if users != [] {
      NoHits(users[1..], d);
    }
  }

  /** With unique ids (hence unique id strings), each device counts for at most one user. */
  lemma {:induction false} HitsAtMostOne(users: seq<UserRow>, d: DeviceRow)
    requires UserIdsDistinct(users)
    ensures Hits(users, d) <= 1
  {
    if users != [] {
      var t := users[1..];
      TailDistinct(users);
      HitsAtMostOne(t, d);
      if AssignedTo(d, ToDecimal(users[0].id)) {
        forall i | 0 <= i < |t| ensures !AssignedTo(d, ToDecimal(t[i].id)) {
          assert users[0].id != users[i + 1].id;
          DecimalInjective(t[i].id, users[0].id);
        }
        NoHits(t, d);
      }
    }
  }

  /** Adding a device at the end adds its hits to the total. */
  lemma {:induction false} TotalStep(devices: seq<DeviceRow>, d: DeviceRow, users: seq<UserRow>)
    ensures CountsTotal(devices + [d], users) == CountsTotal(devices, users) + Hits(users, d)
  {
    if users != [] {
      TotalStep(devices, d, users[1..]);
      assert (devices + [d])[..|devices|] == devices;
    }
  }

  /** No devices, no counts. */
  lemma {:induction false} TotalOfNone(users: seq<UserRow>)
    ensures CountsTotal([], users) == 0
  {
    if users != [] {
      TotalOfNone(users[1..]);
    }
  }

  /** The counts of all users add up to at most the number of devices. */
  lemma {:induction false} CountsAtMostDevices(devices: seq<DeviceRow>, users: seq<UserRow>)
    requires UserIdsDistinct(users)
    ensures CountsTotal(devices, users) <= |devices|
  {
    if devices == [] {
      TotalOfNone(users);
    } else {
      var ds, d := devices[..|devices| - 1], devices[|devices| - 1];
      assert devices == ds + [d];
      CountsAtMostDevices(ds, users);
      TotalStep(ds, d, users);
      HitsAtMostOne(users, d);
    }
  }
}
