/** The audit-field rule applied before every mapper call annotated with an
    operation type: the first argument of the call gets its create/update
    timestamps and actor ids written. The reflective lookup of the four
    setters is modelled by the set of setters the argument's class declares. */
module AutoFill {
  import opened Common

  datatype OperationType = INSERT | UPDATE

  /** The four audit columns every catalog and staff entity carries. */
  datatype Audit = Audit(createTime: Option<int>, createUser: Option<int>,
                         updateTime: Option<int>, updateUser: Option<int>)

  const NO_AUDIT: Audit := Audit(None, None, None, None)

  datatype Setter = SetCreateTime | SetCreateUser | SetUpdateTime | SetUpdateUser

  /** An intercepted argument: its audit fields and the setters its class declares. */
  datatype Argument = Argument(audit: Audit, setters: set<Setter>)

  const INSERT_SETTERS: set<Setter> := {SetCreateTime, SetCreateUser, SetUpdateTime, SetUpdateUser}
  const UPDATE_SETTERS: set<Setter> := {SetUpdateTime, SetUpdateUser}

  function Required(op: OperationType): set<Setter> {
    if op == INSERT then INSERT_SETTERS else UPDATE_SETTERS
  }

  /** The fields written once every required setter was found: both update
      fields always, both create fields for INSERT only. */
  function Stamp(op: OperationType, a: Audit, now: int, currentId: int): (r: Audit)
    ensures r.updateTime == Some(now) && r.updateUser == Some(currentId)
    ensures op == INSERT ==> r.createTime == Some(now) && r.createUser == Some(currentId)
    ensures op == UPDATE ==> r.createTime == a.createTime && r.createUser == a.createUser
  {
    match op
    case INSERT => Audit(Some(now), Some(currentId), Some(now), Some(currentId))
    case UPDATE => a.(updateTime := Some(now), updateUser := Some(currentId))
  }

  /** Fills one entity. All setters are looked up before any is invoked, so a
      missing one leaves every field as it was; the failure is rethrown for
      INSERT and swallowed for UPDATE. */
  function FillEntity(op: OperationType, e: Argument, now: int, currentId: int): (r: Result<Argument>)
    ensures r.Ok? ==> r.value.setters == e.setters
    ensures r.Ok? && !(Required(op) <= e.setters) ==> r.value == e
    ensures r.Err? <==> op == INSERT && !(INSERT_SETTERS <= e.setters)
  {
    if Required(op) <= e.setters then Ok(e.(audit := Stamp(op, e.audit, now, currentId)))
    else if op == INSERT then Err(MissingSetter)
    else Ok(e)
  }

  /** The advice: a no-op without arguments, otherwise only the first argument is filled. */
  function Autofill(op: OperationType, args: seq<Argument>, now: int, currentId: int): (r: Result<seq<Argument>>)
    ensures |args| == 0 ==> r == Ok(args)
    ensures r.Ok? ==> |r.value| == |args| && (|args| > 0 ==> r.value[1..] == args[1..])
    ensures r.Ok? && |args| > 0 ==> r.value[0].setters == args[0].setters
    ensures op == UPDATE ==> r.Ok?
  {
    if |args| == 0 then Ok(args)
    else match FillEntity(op, args[0], now, currentId)
      case Ok(e) => Ok([e] + args[1..])
      case Err(err) => Err(err)
  }

  /** INSERT sets all four fields to the current time and actor, or fails
      with nothing written when a setter is missing. */
  lemma InsertFillsFour(args: seq<Argument>, now: int, currentId: int)
    requires |args| > 0
    ensures var r := Autofill(INSERT, args, now, currentId);
      && (r.Ok? <==> INSERT_SETTERS <= args[0].setters)
      && (r.Ok? ==> r.value[0].audit == Audit(Some(now), Some(currentId), Some(now), Some(currentId)))
  {
  }

  /** UPDATE sets only the two update fields and leaves the create fields
      untouched; a class without the setters is left entirely unchanged. */
  lemma UpdateFillsTwo(args: seq<Argument>, now: int, currentId: int)
    requires |args| > 0
    ensures var r := Autofill(UPDATE, args, now, currentId);
      && r.Ok?
      && r.value[0].audit.createTime == args[0].audit.createTime
      && r.value[0].audit.createUser == args[0].audit.createUser
      && (UPDATE_SETTERS <= args[0].setters ==>
            r.value[0].audit.updateTime == Some(now) && r.value[0].audit.updateUser == Some(currentId))
      && (!(UPDATE_SETTERS <= args[0].setters) ==> r.value == args)
  {
  }

  /** Filling twice with the same clock and actor is the same as filling once. */
  lemma {:induction false} AutofillIdempotent(op: OperationType, args: seq<Argument>, now: int, currentId: int)
    requires Autofill(op, args, now, currentId).Ok?
    ensures Autofill(op, Autofill(op, args, now, currentId).value, now, currentId)
         == Autofill(op, args, now, currentId)
  {
    if |args| > 0 {
      var filled := Autofill(op, args, now, currentId).value;
      assert [filled[0]] + filled[1..] == filled;
    }
  }

  /** The setters every audited entity class declares: dishes, set-meals and employees. */
  const ENTITY_SETTERS: set<Setter> := INSERT_SETTERS

  /** For an audited entity the advice is exactly `Stamp`, for either operation. */
  lemma EntityFill(op: OperationType, a: Audit, now: int, currentId: int)
    ensures Autofill(op, [Argument(a, ENTITY_SETTERS)], now, currentId)
         == Ok([Argument(Stamp(op, a, now, currentId), ENTITY_SETTERS)])
  {
    var args := [Argument(a, ENTITY_SETTERS)];
    assert Required(op) <= ENTITY_SETTERS;
    assert [Argument(Stamp(op, a, now, currentId), ENTITY_SETTERS)] + args[1..] == [Argument(Stamp(op, a, now, currentId), ENTITY_SETTERS)];
  }
}
