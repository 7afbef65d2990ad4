/** Staff accounts: logging in, creating an account, reading one back with
    its password hidden, locking or unlocking it, and editing it. The MD5
    digest is a parameter: the model only relies on it being a function. */
module EmployeeService {
  import opened Common
  import opened AutoFill
  import opened Entities
  import opened Store

  datatype EmployeeLoginDTO = EmployeeLoginDTO(username: string, password: string)

  datatype EmployeeDTO = EmployeeDTO(id: int, username: string, name: string, phone: string, sex: string, idNumber: string)

  /** The initial password of every new account, before hashing. */
  const DEFAULT_PASSWORD: string := "123456"

  /** What a read-back shows in place of the stored digest. */
  const MASK: string := "******"

  /** `getByUsername`. */
  function EmployeesNamed(employees: seq<Employee>, username: string): seq<Employee> {
    Filter(employees, (e: Employee) => e.username == username)
  }

  /** `getById`. */
  function EmployeesWithId(employees: seq<Employee>, id: int): seq<Employee> {
    Filter(employees, (e: Employee) => e.id == id)
  }

  // ---------------------------------------------------------------------------
  // login

  /** The account with the username must exist, the digest of the password
      must match the stored one and the account must not be locked, checked
      in that order. A username held by more than one row makes the
      single-row query fail. */
  function Login(employees: seq<Employee>, dto: EmployeeLoginDTO, md5: string -> string): (r: Result<Employee>)
    ensures r.Ok? ==> && r.value in employees && r.value.username == dto.username
                      && r.value.password == md5(dto.password) && r.value.status != DISABLE
    ensures r == Err(AccountNotFound) <==> forall e :: e in employees ==> e.username != dto.username
  {
    var matches := EmployeesNamed(employees, dto.username);
    if |matches| == 0 then
      Err(AccountNotFound)
    else if |matches| > 1 then
      assert matches[0] in matches;
      Err(TooManyResults)
    else
      var e := matches[0];
      assert e in matches;
      if md5(dto.password) != e.password then Err(PasswordError)
      else if e.status == DISABLE then Err(AccountLocked)
      else Ok(e)
  }

  /** No two accounts share a username. */
  predicate UsernamesUnique(employees: seq<Employee>) {
    forall a, b :: 0 <= a < b < |employees| ==> employees[a].username != employees[b].username
  }

  /** When usernames are unique, every account logs in with the password
      whose digest is stored, unless it is locked; a wrong password is
      reported before a lock. */
  lemma LoginComplete(employees: seq<Employee>, i: int, password: string, md5: string -> string)
    requires UsernamesUnique(employees) && 0 <= i < |employees|
    ensures var e := employees[i];
      Login(employees, EmployeeLoginDTO(e.username, password), md5) ==
        if md5(password) != e.password then Err(PasswordError)
        else if e.status == DISABLE then Err(AccountLocked)
        else Ok(e)
  {
    OnlyRow(employees, i);
  }

  /** With unique usernames the lookup by a row's username selects just that row. */
  lemma {:induction false} OnlyRow(employees: seq<Employee>, i: int)
    requires UsernamesUnique(employees) && 0 <= i < |employees|
    ensures EmployeesNamed(employees, employees[i].username) == [employees[i]]
  {
    var name := employees[i].username;
    var rest := employees[1..];
    assert employees == [employees[0]] + rest;
    FilterConcat([employees[0]], rest, (x: Employee) => x.username == name);
    if i == 0 {
      forall x | x in rest ensures x.username != name {
        var j :| 0 <= j < |rest| && rest[j] == x;
        assert employees[j + 1] == x;
      }
      FilterNone(rest, (x: Employee) => x.username == name);
    } else {
      assert employees[0].username != employees[i].username;
      assert UsernamesUnique(rest) by {
        forall a, b | 0 <= a < b < |rest| ensures rest[a].username != rest[b].username {
          assert rest[a] == employees[a + 1] && rest[b] == employees[b + 1];
        }
      }
      assert rest[i - 1] == employees[i];
      OnlyRow(rest, i - 1);
    }
  }

  // ---------------------------------------------------------------------------
  // save

  /** The audit an insert writes explicitly, before the fill runs. */
  function CreatedAudit(now: int, currentId: int): Audit {
    Audit(Some(now), Some(currentId), Some(now), Some(currentId))
  }

  /** The row a new account stores: the request's fields, the generated key,
      enabled, the digest of the default password, and the audit fields after
      the insert fill. */
  function NewEmployee(dto: EmployeeDTO, id: int, now: int, currentId: int, md5: string -> string): Employee {
    Employee(id, dto.name, dto.username, md5(DEFAULT_PASSWORD), dto.phone, dto.sex, dto.idNumber, ENABLE,
             Stamp(INSERT, CreatedAudit(now, currentId), now, currentId))
  }

  method Save(db: Database, dto: EmployeeDTO, now: int, currentId: int, md5: string -> string)
    modifies db`employees, db`nextEmployeeId
    ensures db.employees == old(db.employees) + [NewEmployee(dto, old(db.nextEmployeeId), now, currentId, md5)]
    ensures db.nextEmployeeId == old(db.nextEmployeeId) + 1
  {
    var id := db.nextEmployeeId;
    db.employees := db.employees + [NewEmployee(dto, id, now, currentId, md5)];
    db.nextEmployeeId := id + 1;
  }

  /** The audit fields the service writes by hand are the ones the insert
      fill writes anyway. */
  lemma SaveAuditAgreesWithFill(now: int, currentId: int)
    ensures Autofill(INSERT, [Argument(CreatedAudit(now, currentId), ENTITY_SETTERS)], now, currentId)
         == Ok([Argument(CreatedAudit(now, currentId), ENTITY_SETTERS)])
  {
    EntityFill(INSERT, CreatedAudit(now, currentId), now, currentId);
  }

  /** A new account with a username nobody holds logs in with the default
      password and returns the stored row. */
  lemma SavedEmployeeCanLogin(employees: seq<Employee>, dto: EmployeeDTO, id: int, now: int, currentId: int, md5: string -> string)
    requires forall x :: x in employees ==> x.username != dto.username
    ensures Login(employees + [NewEmployee(dto, id, now, currentId, md5)], EmployeeLoginDTO(dto.username, DEFAULT_PASSWORD), md5)
         == Ok(NewEmployee(dto, id, now, currentId, md5))
  {
    var e := NewEmployee(dto, id, now, currentId, md5);
    var p := (x: Employee) => x.username == dto.username;
    FilterConcat(employees, [e], p);
    FilterNone(employees, p);
    assert Filter([e], p) == [e];
  }

  // ---------------------------------------------------------------------------
  // getById

  /** The row with the key, its password replaced by the mask; a missing row
      is a null dereference. */
  function GetById(employees: seq<Employee>, id: int): (r: Result<Employee>)
    ensures r.Ok? <==> |EmployeesWithId(employees, id)| == 1
    ensures r == Err(NullReference) <==> forall e :: e in employees ==> e.id != id
    ensures r.Ok? ==>
      && r.value.id == id && r.value.password == MASK
      && exists e :: e in employees && e.id == id && r.value == e.(password := MASK)
  {
    var matches := EmployeesWithId(employees, id);
    if |matches| == 0 then Err(NullReference)
    else if |matches| > 1 then
      assert matches[0] in matches;
      Err(TooManyResults)
    else
      assert matches[0] in matches;
      Ok(matches[0].(password := MASK))
  }

  // ---------------------------------------------------------------------------
  // startOrStop and update

  /** The write of a lock or unlock: the status and the update stamp, which
      the update fill writes again with the same values. */
  function StatusPatch(id: int, status: int, now: int, currentId: int): EmployeePatch {
    EmployeePatch(id, None, None, None, None, None, Some(status),
                  Stamp(UPDATE, Audit(None, None, Some(now), Some(currentId)), now, currentId))
  }

  method StartOrStop(db: Database, status: int, id: int, now: int, currentId: int)
    modifies db`employees
    ensures db.employees == UpdateEmployee(old(db.employees), StatusPatch(id, status, now, currentId))
  {
    db.employees := UpdateEmployee(db.employees, StatusPatch(id, status, now, currentId));
  }

  /** The write of an edit: every submitted field and the update stamp; the
      password is not among them. */
  function EditPatch(dto: EmployeeDTO, now: int, currentId: int): EmployeePatch {
    EmployeePatch(dto.id, Some(dto.name), Some(dto.username), Some(dto.phone), Some(dto.sex), Some(dto.idNumber), None,
                  Stamp(UPDATE, Audit(None, None, Some(now), Some(currentId)), now, currentId))
  }

  method Update(db: Database, dto: EmployeeDTO, now: int, currentId: int)
    modifies db`employees
    ensures db.employees == UpdateEmployee(old(db.employees), EditPatch(dto, now, currentId))
  {
    db.employees := UpdateEmployee(db.employees, EditPatch(dto, now, currentId));
  }

  /** Locking or unlocking writes only the status and the last-update stamp
      of the account with the key, and touches no other account. */
  lemma StatusChangeOnlyStatus(employees: seq<Employee>, status: int, id: int, now: int, currentId: int)
    ensures var after := UpdateEmployee(employees, StatusPatch(id, status, now, currentId));
      forall i :: 0 <= i < |employees| ==>
        after[i] == if employees[i].id == id
          then employees[i].(status := status, audit := employees[i].audit.(updateTime := Some(now), updateUser := Some(currentId)))
          else employees[i]
  {
  }

  /** A locked account cannot log in, whatever password is given. */
  lemma LockedCannotLogin(employees: seq<Employee>, id: int, now: int, currentId: int, dto: EmployeeLoginDTO, md5: string -> string)
    ensures var r := Login(UpdateEmployee(employees, StatusPatch(id, DISABLE, now, currentId)), dto, md5);
      r.Ok? ==> r.value.id != id
  {
    var after := UpdateEmployee(employees, StatusPatch(id, DISABLE, now, currentId));
    forall e | e in after && e.id == id ensures e.status == DISABLE {
      var i :| 0 <= i < |after| && after[i] == e;
      assert employees[i].id == id;
    }
  }

  /** An edit keeps every account's password and status, so the password an
      account logs in with is the same before and after. */
  lemma EditKeepsPassword(employees: seq<Employee>, dto: EmployeeDTO, now: int, currentId: int)
    ensures var after := UpdateEmployee(employees, EditPatch(dto, now, currentId));
      forall i :: 0 <= i < |employees| ==>
        && after[i].id == employees[i].id
        && after[i].password == employees[i].password
        && after[i].status == employees[i].status
        && after[i].audit.createTime == employees[i].audit.createTime
  {
  }
}
