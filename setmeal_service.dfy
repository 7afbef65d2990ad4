/** The merchant's set-meal operations: creating a set-meal with its dish
    links, deleting a batch of set-meals, editing a set-meal and replacing its
    links, and switching a set-meal on or off sale, which refuses to put it on
    sale while one of its dishes is off sale. */
module SetmealService {
  import opened Common
  import opened AutoFill
  import opened Entities
  import opened Store

  datatype SetmealDTO = SetmealDTO(
    id: int,
    categoryId: int,
    name: string,
    price: int,
    status: int,
    description: string,
    image: string,
    setmealDishes: Option<seq<SetmealDish>>)

  /** The submitted links, each given the set-meal's key. */
  function TiedLinks(ls: seq<SetmealDish>, setmealId: int): (r: seq<SetmealDish>)
    ensures |r| == |ls|
    ensures forall i :: 0 <= i < |ls| ==> r[i] == ls[i].(setmealId := setmealId)
  {
    if ls == [] then [] else [ls[0].(setmealId := setmealId)] + TiedLinks(ls[1..], setmealId)
  }

  /** Sets the set-meal key on every submitted link, as the source's loop does. */
  method TieLinks(ls: seq<SetmealDish>, setmealId: int) returns (rows: seq<SetmealDish>)
    ensures rows == TiedLinks(ls, setmealId)
  {
    rows := [];
    for k := 0 to |ls|
      invariant |rows| == k
      invariant forall i :: 0 <= i < k ==> rows[i] == ls[i].(setmealId := setmealId)
    {
      rows := rows + [ls[k].(setmealId := setmealId)];
    }
  }

  // ---------------------------------------------------------------------------
  // saveWithDish

  /** The row an insert stores: the request's fields and the generated key.
      The set-meal mapper carries no audit fill in this model. */
  function NewSetmeal(dto: SetmealDTO, id: int): Setmeal {
    Setmeal(id, dto.categoryId, dto.name, dto.price, dto.status, dto.description, dto.image, NO_AUDIT)
  }

  /** Inserts the set-meal, then its links under the new key. A request
      without a link list fails on the null list after the insert, and the
      transaction rolls the insert back. */
  method SaveWithDish(db: Database, dto: SetmealDTO) returns (r: Outcome)
    modifies db`setmeals, db`setmealDishes, db`nextSetmealId
    ensures r.Fail? <==> dto.setmealDishes.None?
    ensures r.Fail? ==> r.error == NullReference && unchanged(db)
    ensures r.Pass? ==> var id := old(db.nextSetmealId);
      && db.setmeals == old(db.setmeals) + [NewSetmeal(dto, id)]
      && db.setmealDishes == old(db.setmealDishes) + TiedLinks(dto.setmealDishes.value, id)
      && db.nextSetmealId == id + 1
  {
    if dto.setmealDishes.None? {
      return Fail(NullReference);
    }
    var setmealId := db.nextSetmealId;
    db.setmeals := db.setmeals + [NewSetmeal(dto, setmealId)];
    db.nextSetmealId := setmealId + 1;
    var rows := TieLinks(dto.setmealDishes.value, setmealId);
    db.setmealDishes := db.setmealDishes + rows;
    r := Pass;
  }

  /** A saved set-meal reads back with exactly the submitted links, in
      order, and every other set-meal keeps its own links. */
  lemma SavedSetmealReadsBack(links: seq<SetmealDish>, nextSetmealId: int, ls: seq<SetmealDish>, other: int)
    requires forall l :: l in links ==> l.setmealId < nextSetmealId
    requires other != nextSetmealId
    ensures LinksOf(links + TiedLinks(ls, nextSetmealId), nextSetmealId) == TiedLinks(ls, nextSetmealId)
    ensures LinksOf(links + TiedLinks(ls, nextSetmealId), other) == LinksOf(links, other)
  {
    var added := TiedLinks(ls, nextSetmealId);
    FilterConcat(links, added, (l: SetmealDish) => l.setmealId == nextSetmealId);
    FilterNone(links, (l: SetmealDish) => l.setmealId == nextSetmealId);
    FilterAll(added, (l: SetmealDish) => l.setmealId == nextSetmealId);
    FilterConcat(links, added, (l: SetmealDish) => l.setmealId == other);
    FilterNone(added, (l: SetmealDish) => l.setmealId == other);
  }

  // ---------------------------------------------------------------------------
  // deleteByIds

  /** The first loop: every id must name a set-meal (a missing one is a null
      dereference) that is not on sale, checked in list order. */
  function DeleteCheck(setmeals: seq<Setmeal>, ids: seq<int>): (r: Outcome)
    ensures r == Pass <==> forall k :: 0 <= k < |ids| ==>
      FindSetmeal(setmeals, ids[k]).Some? && FindSetmeal(setmeals, ids[k]).value.status != ENABLE
    ensures r.Fail? ==> r.error == NullReference || r.error == SetmealOnSale
  {
    if ids == [] then Pass
    else match FindSetmeal(setmeals, ids[0])
      case None => Fail(NullReference)
      case Some(s) => if s.status == ENABLE then Fail(SetmealOnSale) else DeleteCheck(setmeals, ids[1..])
  }

  function RemoveSetmeals(setmeals: seq<Setmeal>, ids: seq<int>): seq<Setmeal> {
    Filter(setmeals, (s: Setmeal) => s.id !in ids)
  }

  function RemoveLinks(links: seq<SetmealDish>, ids: seq<int>): seq<SetmealDish> {
    Filter(links, (l: SetmealDish) => l.setmealId !in ids)
  }

  lemma RemoveOneMore(setmeals: seq<Setmeal>, links: seq<SetmealDish>, ids: seq<int>, k: int)
    requires 0 <= k < |ids|
    ensures DeleteSetmealById(RemoveSetmeals(setmeals, ids[..k]), ids[k]) == RemoveSetmeals(setmeals, ids[..k + 1])
    ensures DeleteLinksOf(RemoveLinks(links, ids[..k]), ids[k]) == RemoveLinks(links, ids[..k + 1])
  {
    assert ids[..k + 1] == ids[..k] + [ids[k]];
    FilterBoth(setmeals, (s: Setmeal) => s.id !in ids[..k], (s: Setmeal) => s.id != ids[k],
               (s: Setmeal) => s.id !in ids[..k + 1]);
    FilterBoth(links, (l: SetmealDish) => l.setmealId !in ids[..k], (l: SetmealDish) => l.setmealId != ids[k],
               (l: SetmealDish) => l.setmealId !in ids[..k + 1]);
  }

  /** Checks the whole batch, then deletes each set-meal and its links. */
  method DeleteByIds(db: Database, ids: seq<int>) returns (r: Outcome)
    modifies db`setmeals, db`setmealDishes
    ensures r == DeleteCheck(old(db.setmeals), ids)
    ensures r.Fail? ==> unchanged(db)
    ensures r.Pass? ==>
      && db.setmeals == RemoveSetmeals(old(db.setmeals), ids)
      && db.setmealDishes == RemoveLinks(old(db.setmealDishes), ids)
  {
    for k := 0 to |ids|
      invariant DeleteCheck(db.setmeals, ids) == DeleteCheck(db.setmeals, ids[k..])
    {
      assert ids[k..][1..] == ids[k + 1..];
      var setmeal := FindSetmeal(db.setmeals, ids[k]);
      if setmeal.None? {
        return Fail(NullReference);
      }
      if setmeal.value.status == ENABLE {
        return Fail(SetmealOnSale);
      }
    }
    assert ids[..0] == [];
    FilterAll(db.setmeals, (s: Setmeal) => s.id !in ids[..0]);
    FilterAll(db.setmealDishes, (l: SetmealDish) => l.setmealId !in ids[..0]);
    for k := 0 to |ids|
      invariant db.setmeals == RemoveSetmeals(old(db.setmeals), ids[..k])
      invariant db.setmealDishes == RemoveLinks(old(db.setmealDishes), ids[..k])
    {
      RemoveOneMore(old(db.setmeals), old(db.setmealDishes), ids, k);
      db.setmeals := DeleteSetmealById(db.setmeals, ids[k]);
      db.setmealDishes := DeleteLinksOf(db.setmealDishes, ids[k]);
    }
    assert ids[..|ids|] == ids;
    r := Pass;
  }

  /** After a deletion none of the set-meals or their links is left, and
      every other set-meal and link is. */
  lemma DeletedSetmealsAreGone(setmeals: seq<Setmeal>, links: seq<SetmealDish>, ids: seq<int>)
    ensures forall s :: s in RemoveSetmeals(setmeals, ids) <==> s in setmeals && s.id !in ids
    ensures forall l :: l in RemoveLinks(links, ids) <==> l in links && l.setmealId !in ids
    ensures forall k :: 0 <= k < |ids| ==>
      FindSetmeal(RemoveSetmeals(setmeals, ids), ids[k]).None? && LinksOf(RemoveLinks(links, ids), ids[k]) == []
  {
    forall k | 0 <= k < |ids|
      ensures FindSetmeal(RemoveSetmeals(setmeals, ids), ids[k]).None? && LinksOf(RemoveLinks(links, ids), ids[k]) == []
    {
      FilterNone(RemoveSetmeals(setmeals, ids), (s: Setmeal) => s.id == ids[k]);
      FilterNone(RemoveLinks(links, ids), (l: SetmealDish) => l.setmealId == ids[k]);
    }
  }

  /** One set-meal on sale blocks the whole batch, as long as every id up to
      it names a set-meal. */
  lemma {:induction false} OnSaleBlocksDeletion(setmeals: seq<Setmeal>, ids: seq<int>, k: int)
    requires 0 <= k < |ids|
    requires forall j :: 0 <= j <= k ==> FindSetmeal(setmeals, ids[j]).Some?
    requires FindSetmeal(setmeals, ids[k]).value.status == ENABLE
    ensures DeleteCheck(setmeals, ids) == Fail(SetmealOnSale)
  {
    var s0 := FindSetmeal(setmeals, ids[0]);
    assert s0.Some?;
    if s0.value.status != ENABLE {
      assert k > 0;
      var rest := ids[1..];
      forall j | 0 <= j <= k - 1 ensures FindSetmeal(setmeals, rest[j]).Some? {
        assert rest[j] == ids[j + 1];
      }
      assert rest[k - 1] == ids[k];
      OnSaleBlocksDeletion(setmeals, rest, k - 1);
    }
  }

  // ---------------------------------------------------------------------------
  // update

  /** The write of an edit: every submitted field. */
  function EditPatch(dto: SetmealDTO): SetmealPatch {
    SetmealPatch(dto.id, Some(dto.categoryId), Some(dto.name), Some(dto.price), Some(dto.status),
                 Some(dto.description), Some(dto.image), NO_AUDIT)
  }

  /** Writes the submitted fields and replaces the set-meal's links with the
      submitted ones. A request without a link list fails on the null list
      before anything is written. */
  method Update(db: Database, dto: SetmealDTO) returns (r: Outcome)
    modifies db`setmeals, db`setmealDishes
    ensures r.Fail? <==> dto.setmealDishes.None?
    ensures r.Fail? ==> r.error == NullReference && unchanged(db)
    ensures r.Pass? ==>
      && db.setmeals == UpdateSetmeal(old(db.setmeals), EditPatch(dto))
      && db.setmealDishes == DeleteLinksOf(old(db.setmealDishes), dto.id) + TiedLinks(dto.setmealDishes.value, dto.id)
  {
    if dto.setmealDishes.None? {
      return Fail(NullReference);
    }
    var rows := TieLinks(dto.setmealDishes.value, dto.id);
    db.setmeals := UpdateSetmeal(db.setmeals, EditPatch(dto));
    db.setmealDishes := DeleteLinksOf(db.setmealDishes, dto.id);
    db.setmealDishes := db.setmealDishes + rows;
    r := Pass;
  }

  /** After an edit the set-meal has exactly the submitted links, and every
      other set-meal keeps its own. */
  lemma EditReplacesLinks(links: seq<SetmealDish>, ls: seq<SetmealDish>, id: int, other: int)
    requires other != id
    ensures LinksOf(DeleteLinksOf(links, id) + TiedLinks(ls, id), id) == TiedLinks(ls, id)
    ensures LinksOf(DeleteLinksOf(links, id) + TiedLinks(ls, id), other) == LinksOf(links, other)
  {
    var kept := DeleteLinksOf(links, id);
    var added := TiedLinks(ls, id);
    FilterConcat(kept, added, (l: SetmealDish) => l.setmealId == id);
    FilterNone(kept, (l: SetmealDish) => l.setmealId == id);
    FilterAll(added, (l: SetmealDish) => l.setmealId == id);
    FilterConcat(kept, added, (l: SetmealDish) => l.setmealId == other);
    FilterNone(added, (l: SetmealDish) => l.setmealId == other);
    FilterFilter(links, (l: SetmealDish) => l.setmealId != id, (l: SetmealDish) => l.setmealId == other);
  }

  /** An edit keeps the set-meal's key and audit fields and writes every
      submitted field. */
  lemma EditWritesFields(s: Setmeal, dto: SetmealDTO)
    requires s.id == dto.id
    ensures var e := ApplySetmealPatch(s, EditPatch(dto));
      && e.id == s.id && e.audit == s.audit
      && e == NewSetmeal(dto, s.id).(audit := s.audit)
  {
  }

  // ---------------------------------------------------------------------------
  // startOrStop

  function StatusPatch(id: int, status: int): SetmealPatch {
    SetmealPatch(id, None, None, None, Some(status), None, None, NO_AUDIT)
  }

  /** Putting a set-meal on sale is refused while one of its dishes is off
      sale; any other status change passes. */
  function EnableGuard(dishes: seq<Dish>, links: seq<SetmealDish>, status: int, id: int): (r: Outcome)
    ensures r.Fail? ==> r.error == SetmealEnableFailed
    ensures r.Fail? <==> status == ENABLE && exists d :: d in DishesOfSetmeal(dishes, links, id) && d.status == DISABLE
  {
    if status == ENABLE && exists d :: d in DishesOfSetmeal(dishes, links, id) && d.status == DISABLE
    then Fail(SetmealEnableFailed)
    else Pass
  }

  method StartOrStop(db: Database, status: int, id: int) returns (r: Outcome)
    modifies db`setmeals
    ensures r == EnableGuard(db.dishes, db.setmealDishes, status, id)
    ensures r.Fail? ==> unchanged(db)
    ensures r.Pass? ==> db.setmeals == UpdateSetmeal(old(db.setmeals), StatusPatch(id, status))
  {
    if status == ENABLE {
      var dishList := DishesOfSetmeal(db.dishes, db.setmealDishes, id);
      for k := 0 to |dishList|
        invariant forall j :: 0 <= j < k ==> dishList[j].status != DISABLE
      {
        if DISABLE == dishList[k].status {
          return Fail(SetmealEnableFailed);
        }
      }
    }
    db.setmeals := UpdateSetmeal(db.setmeals, StatusPatch(id, status));
    r := Pass;
  }

  /** A set-meal is refused going on sale exactly when one of its links names
      a dish that is off sale; a set-meal that goes on sale has no linked dish
      off sale. */
  lemma EnableGuardIff(dishes: seq<Dish>, links: seq<SetmealDish>, id: int)
    ensures EnableGuard(dishes, links, ENABLE, id).Fail? <==>
      exists d, l :: d in dishes && l in links && l.setmealId == id && l.dishId == d.id && d.status == DISABLE
    ensures EnableGuard(dishes, links, ENABLE, id).Pass? ==>
      forall d, l :: d in dishes && l in links && l.setmealId == id && l.dishId == d.id ==> d.status != DISABLE
  {
    var joined := DishesOfSetmeal(dishes, links, id);
    forall d, l | d in dishes && l in links && l.setmealId == id && l.dishId == d.id
      ensures d in joined
    {
    }
  }
}
