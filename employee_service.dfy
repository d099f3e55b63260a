/**
  * `EmployeeService`: the checks the application runs before it reads or writes the
  * users table. Each operation refuses a missing id, a blank name or role and an
  * employee the lookup does not find, in that order, and otherwise hands the request
  * on to the employee repository with names and roles trimmed. The database is passed
  * to every operation.
  */
module EmployeeService {
  import opened Wrappers
  import opened Strings
  import opened FleetStore
  import opened EmployeeRepository

  // ---------------------------------------------------------------------------
  // Reads
  // ---------------------------------------------------------------------------

  /** `getAllEmployees`: the repository listing, one employee per user in table order. */
  method GetAllEmployees(db: Database) returns (r: seq<Employee>)
    ensures r == FindAll(db.users)
    ensures |r| == |db.users| && forall i :: 0 <= i < |r| ==> r[i].name == FullName(db.users[i])
  {
    r := FindAll(db.users);
  }

  /** `getEmployeeById`: an empty id is refused; otherwise the repository lookup. */
  method GetEmployeeById(db: Database, id: string) returns (r: Result<Option<Employee>, Error>)
    ensures id == "" ==> r == Err(EmployeeIdRequired)
    ensures id != "" ==> r == FindById(db.users, id)
    ensures r.Ok? && r.value.Some? ==> exists u :: u in db.users && ParseInt(id) == Some(u.id as int)
  {
    if id == "" {
      return Err(EmployeeIdRequired);
    }
    r := FindById(db.users, id);
  }

  /** `searchEmployeesByRole`: a blank query lists everyone, any other is trimmed and matched. */
  method SearchEmployeesByRole(db: Database, query: string) returns (r: seq<Employee>)
    ensures IsBlank(query) ==> r == FindAll(db.users)
    ensures !IsBlank(query) ==> r == FindByRole(db.users, Trim(query))
    ensures forall i :: 0 <= i < |r| ==> r[i] in FindAll(db.users) && (IsBlank(query) || RoleMatches(r[i], Trim(query)))
  {
    if IsBlank(query) {
      r := GetAllEmployees(db);
    } else {
      r := FindByRole(db.users, Trim(query));
    }
  }

  /** `getEmployeesWithDevicesCount`: each listed employee with the devices assigned under their id string. */
  method GetEmployeesWithDevicesCount(db: Database) returns (r: seq<EmployeeWithCount>)
    ensures |r| == |db.users|
    ensures forall i :: 0 <= i < |r| ==>
      r[i].employee == FindAll(db.users)[i] && r[i].devicesCount == AssignedCount(db.devices, ToDecimal(db.users[i].id))
  {
    r := FindWithDevicesCount(db);
  }

  // ---------------------------------------------------------------------------
  // Writes
  // ---------------------------------------------------------------------------

  /**
    * `createEmployee`: a blank name, then a blank role is refused; otherwise the
    * trimmed name is stored as the newest user and the trimmed role echoed back.
    */
  method CreateEmployee(db: Database, name: string, role: string) returns (r: Result<Employee, Error>)
    requires db.Valid()
    modifies db
    ensures db.Valid()
    ensures db.devices == old(db.devices)
    ensures r == Err(EmployeeNameRequired) <==> IsBlank(name)
    ensures r == Err(EmployeeRoleRequired) <==> !IsBlank(name) && IsBlank(role)
    ensures r.Ok? <==> !IsBlank(name) && !IsBlank(role)
    ensures r.Err? ==> db.users == old(db.users) && db.nextUserId == old(db.nextUserId)
    ensures r.Ok? ==>
      && db.users == [NewUser(old(db.nextUserId), Trim(name))] + old(db.users)
      && db.nextUserId == old(db.nextUserId) + 1
      && r.value == ToEmployee(db.users[0], Trim(role))
  {
    if IsBlank(name) {
      return Err(EmployeeNameRequired);
    }
    if IsBlank(role) {
      return Err(EmployeeRoleRequired);
    }
    var e := Create(db, Trim(name), Trim(role));
    r := Ok(e);
  }

  /** `data.x.trim()` for a field that was given. */
  function TrimGiven(s: Option<string>): (r: Option<string>)
    ensures r.Some? <==> s.Some?
    ensures s.Some? && !IsBlank(s.value) ==> Truthy(r) == r
  {
    if s.Some? then Some(Trim(s.value)) else None
  }

  /** A field of the data that was given but is blank. */
  predicate BlankGiven(field: Option<string>) {
    field.Some? && IsBlank(field.value)
  }

  /**
    * The first complaint `updateEmployee` has about its data: a given name that is
    * blank, then a given role that is blank.
    */
  function DataError(name: Option<string>, role: Option<string>): (r: Option<Error>)
    ensures r == Some(EmployeeNameEmpty) <==> BlankGiven(name)
    ensures r == Some(EmployeeRoleEmpty) <==> !BlankGiven(name) && BlankGiven(role)
    ensures r.None? <==> !BlankGiven(name) && !BlankGiven(role)
  {
    if BlankGiven(name) then Some(EmployeeNameEmpty)
    else if BlankGiven(role) then Some(EmployeeRoleEmpty)
    else None
  }

  /**
    * `updateEmployee`: an empty id is refused, then an employee the lookup does not find
    * (the lookup itself fails on an id `parseInt` cannot read), then the data's
    * complaints; otherwise a given name, trimmed, re-derives the user's name columns,
    * and the employee returned carries the trimmed role if one was given, else the
    * id-based one.
    */
  method UpdateEmployee(db: Database, id: string, name: Option<string>, role: Option<string>)
    returns (r: Result<Employee, Error>)
    requires db.Valid()
    modifies db
    ensures db.Valid()
    ensures db.devices == old(db.devices) && db.nextUserId == old(db.nextUserId)
    ensures r.Err? ==> db.users == old(db.users)
    ensures id == "" ==> r == Err(EmployeeIdRequired)
    ensures id != "" && ParseInt(id).None? ==> r == Err(InvalidIdentifier)
    ensures id != "" && FindById(old(db.users), id) == Ok(None) ==> r == Err(EmployeeNotFound)
    ensures id != "" && FindById(old(db.users), id).Ok? && FindById(old(db.users), id).value.Some? ==>
      (r.Ok? <==> DataError(name, role).None?) && (r.Err? ==> Some(r.error) == DataError(name, role))
    ensures r.Ok? ==>
      && ParseInt(id).Some? && FindUser(old(db.users), ParseInt(id).value).Some?
      && db.users == Rename(old(db.users), ParseInt(id).value, TrimGiven(name))
      && var u := FindUser(db.users, ParseInt(id).value).value;
         r.value == ToEmployee(u, if role.Some? then Trim(role.value) else IdRole(u.id))
  {
    if id == "" {
      return Err(EmployeeIdRequired);
    }
    var existing := FindById(db.users, id);
    if existing.Err? {
      return Err(existing.error);
    }
    if existing.value.None? {
      return Err(EmployeeNotFound);
    }
    assert FindUser(db.users, ParseInt(id).value).Some?;
    var complaint := DataError(name, role);
    if complaint.Some? {
      return Err(complaint.value);
    }
    r := Update(db, id, TrimGiven(name), TrimGiven(role));
  }

  /**
    * `deleteEmployee`: an empty id is refused, then an employee the lookup does not
    * find; otherwise the user goes. Devices referring to them keep the reference.
    */
  method DeleteEmployee(db: Database, id: string) returns (r: Result<(), Error>)
    requires db.Valid()
    modifies db
    ensures db.Valid()
    ensures db.devices == old(db.devices) && db.nextUserId == old(db.nextUserId)
    ensures r.Err? ==> db.users == old(db.users)
    ensures id == "" ==> r == Err(EmployeeIdRequired)
    ensures id != "" && ParseInt(id).None? ==> r == Err(InvalidIdentifier)
    ensures id != "" && FindById(old(db.users), id) == Ok(None) ==> r == Err(EmployeeNotFound)
    ensures r.Ok? <==> id != "" && FindById(old(db.users), id).Ok? && FindById(old(db.users), id).value.Some?
    ensures r.Ok? ==> db.users == RemoveUser(old(db.users), ParseInt(id).value)
  {
    if id == "" {
      return Err(EmployeeIdRequired);
    }
    var existing := FindById(db.users, id);
    if existing.Err? {
      return Err(existing.error);
    }
    if existing.value.None? {
      return Err(EmployeeNotFound);
    }
    assert FindUser(db.users, ParseInt(id).value).Some?;
    r := Delete(db, id);
  }

  // ---------------------------------------------------------------------------
  // What the writes do to the reads
  // ---------------------------------------------------------------------------

  /**
    * A created employee is found again under the decimal form of its new id, but with
    * the id-based role rather than the role it was created with.
    */
  lemma CreatedEmployeeFound(users: seq<UserRow>, next: UserId, name: string)
    requires forall u :: u in users ==> u.id < next
    ensures var row := NewUser(next, name);
      FindById([row] + users, ToDecimal(next)) == Ok(Some(ToEmployee(row, IdRole(next))))
  {
    var row := NewUser(next, name);
    ParseDecimal(next);
    assert FindUser([row] + users, next) == Some(row);
  }

  /** A created employee heads the listing, with the first role of the list. */
  lemma CreatedEmployeeListedFirst(users: seq<UserRow>, next: UserId, name: string)
    ensures var row := NewUser(next, name);
      FindAll([row] + users)[0] == ToEmployee(row, Roles[0])
  {
  }

  /** After a delete, looking the same id up finds no one. */
  lemma DeletedEmployeeGone(users: seq<UserRow>, id: string)
    requires ParseInt(id).Some?
    ensures FindById(RemoveUser(users, ParseInt(id).value), id) == Ok(None)
  {
  }
}
