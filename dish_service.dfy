/** The merchant's dish operations: creating a dish with its flavors,
    deleting a batch of dishes, editing a dish and replacing its flavors, and
    switching a dish on or off sale, which takes every set-meal containing it
    off sale too. */
module DishService {
  import opened Common
  import opened AutoFill
  import opened Entities
  import opened Store

  /** A flavor as submitted, before it is tied to a dish. */
  datatype FlavorDTO = FlavorDTO(name: string, value: string)

  datatype DishDTO = DishDTO(
    id: int,
    name: string,
    categoryId: int,
    price: int,
    image: string,
    description: string,
    status: int,
    flavors: Option<seq<FlavorDTO>>)

  /** The submitted flavors tied to `dishId`. */
  function FlavorRows(fs: seq<FlavorDTO>, dishId: int): (r: seq<DishFlavor>)
    ensures |r| == |fs|
    ensures forall i :: 0 <= i < |fs| ==> r[i] == DishFlavor(dishId, fs[i].name, fs[i].value)
  {
    if fs == [] then [] else [DishFlavor(dishId, fs[0].name, fs[0].value)] + FlavorRows(fs[1..], dishId)
  }

  /** What `insertBatch` receives: nothing when the list is absent or empty. */
  function SubmittedFlavors(dto: DishDTO, dishId: int): seq<DishFlavor> {
    if dto.flavors.Some? then FlavorRows(dto.flavors.value, dishId) else []
  }

  /** Ties each submitted flavor to the dish, as the source's per-flavor loop does. */
  method TieFlavors(fs: seq<FlavorDTO>, dishId: int) returns (rows: seq<DishFlavor>)
    ensures rows == FlavorRows(fs, dishId)
  {
    rows := [];
    for k := 0 to |fs|
      invariant |rows| == k
      invariant forall i :: 0 <= i < k ==> rows[i] == DishFlavor(dishId, fs[i].name, fs[i].value)
    {
      rows := rows + [DishFlavor(dishId, fs[k].name, fs[k].value)];
    }
  }

  // ---------------------------------------------------------------------------
  // saveWithFlavor

  /** The dish row an insert stores: the request's fields, the generated key
      and all four audit fields filled. */
  function NewDish(dto: DishDTO, id: int, now: int, currentId: int): Dish {
    Dish(id, dto.name, dto.categoryId, dto.price, dto.image, dto.description, dto.status,
         Stamp(INSERT, NO_AUDIT, now, currentId))
  }

  method SaveWithFlavor(db: Database, dto: DishDTO, now: int, currentId: int)
    modifies db`dishes, db`flavors, db`nextDishId
    ensures var id := old(db.nextDishId);
      && db.dishes == old(db.dishes) + [NewDish(dto, id, now, currentId)]
      && db.flavors == old(db.flavors) + SubmittedFlavors(dto, id)
      && db.nextDishId == id + 1
  {
    var dishId := db.nextDishId;
    db.dishes := db.dishes + [NewDish(dto, dishId, now, currentId)];
    db.nextDishId := dishId + 1;
    if dto.flavors.Some? && |dto.flavors.value| > 0 {
      var rows := TieFlavors(dto.flavors.value, dishId);
      db.flavors := db.flavors + rows;
    }
  }

  /** A saved dish reads back with exactly the submitted flavors, in order,
      all tied to its new key, and is stamped as created and updated by the
      caller at `now`. */
  lemma SavedDishReadsBack(flavors: seq<DishFlavor>, nextDishId: int, dto: DishDTO, now: int, currentId: int)
    requires forall f :: f in flavors ==> f.dishId < nextDishId
    ensures FlavorsOf(flavors + SubmittedFlavors(dto, nextDishId), nextDishId) == SubmittedFlavors(dto, nextDishId)
    ensures NewDish(dto, nextDishId, now, currentId).audit == Audit(Some(now), Some(currentId), Some(now), Some(currentId))
  {
    var p := (f: DishFlavor) => f.dishId == nextDishId;
    FilterConcat(flavors, SubmittedFlavors(dto, nextDishId), p);
    FilterNone(flavors, p);
    FilterAll(SubmittedFlavors(dto, nextDishId), p);
  }

  // ---------------------------------------------------------------------------
  // deleteBatch

  /** The first loop: every id must name a dish (a missing one is a null
      dereference) that is not on sale, checked in list order. */
  function DeleteCheck(dishes: seq<Dish>, ids: seq<int>): (r: Outcome)
    ensures r == Pass <==> forall k :: 0 <= k < |ids| ==>
      FindDish(dishes, ids[k]).Some? && FindDish(dishes, ids[k]).value.status != ENABLE
    ensures r.Fail? ==> r.error == NullReference || r.error == DishOnSale
  {
    if ids == [] then Pass
    else match FindDish(dishes, ids[0])
      case None => Fail(NullReference)
      case Some(d) => if d.status == ENABLE then Fail(DishOnSale) else DeleteCheck(dishes, ids[1..])
  }

  /** The verdict of a batch deletion: the per-dish check, then the set-meal links. */
  function DeleteBatchOutcome(dishes: seq<Dish>, links: seq<SetmealDish>, ids: seq<int>): Outcome {
    var c := DeleteCheck(dishes, ids);
    if c.Fail? then c
    else if SetmealIdsOfDishes(links, ids) != [] then Fail(DishBeRelatedBySetmeal)
    else Pass
  }

  function RemoveDishes(dishes: seq<Dish>, ids: seq<int>): seq<Dish> {
    Filter(dishes, (d: Dish) => d.id !in ids)
  }

  function RemoveFlavors(flavors: seq<DishFlavor>, ids: seq<int>): seq<DishFlavor> {
    Filter(flavors, (f: DishFlavor) => f.dishId !in ids)
  }

  lemma RemoveOneMore(dishes: seq<Dish>, flavors: seq<DishFlavor>, ids: seq<int>, k: int)
    requires 0 <= k < |ids|
    ensures DeleteDishById(RemoveDishes(dishes, ids[..k]), ids[k]) == RemoveDishes(dishes, ids[..k + 1])
    ensures DeleteFlavorsOf(RemoveFlavors(flavors, ids[..k]), ids[k]) == RemoveFlavors(flavors, ids[..k + 1])
  {
    assert ids[..k + 1] == ids[..k] + [ids[k]];
    FilterBoth(dishes, (d: Dish) => d.id !in ids[..k], (d: Dish) => d.id != ids[k], (d: Dish) => d.id !in ids[..k + 1]);
    FilterBoth(flavors, (f: DishFlavor) => f.dishId !in ids[..k], (f: DishFlavor) => f.dishId != ids[k],
               (f: DishFlavor) => f.dishId !in ids[..k + 1]);
  }

  method DeleteBatch(db: Database, ids: seq<int>) returns (r: Outcome)
    modifies db`dishes, db`flavors
    ensures r == DeleteBatchOutcome(old(db.dishes), db.setmealDishes, ids)
    ensures r.Fail? ==> unchanged(db)
    ensures r.Pass? ==> db.dishes == RemoveDishes(old(db.dishes), ids) && db.flavors == RemoveFlavors(old(db.flavors), ids)
  {
    for k := 0 to |ids|
      invariant DeleteCheck(db.dishes, ids) == DeleteCheck(db.dishes, ids[k..])
    {
      assert ids[k..][1..] == ids[k + 1..];
      var dish := FindDish(db.dishes, ids[k]);
      if dish.None? {
        return Fail(NullReference);
      }
      if dish.value.status == ENABLE {
        return Fail(DishOnSale);
      }
    }
    var setMealIds := SetmealIdsOfDishes(db.setmealDishes, ids);
    if |setMealIds| > 0 {
      return Fail(DishBeRelatedBySetmeal);
    }
    assert ids[..0] == [];
    FilterAll(db.dishes, (d: Dish) => d.id !in ids[..0]);
    FilterAll(db.flavors, (f: DishFlavor) => f.dishId !in ids[..0]);
    for k := 0 to |ids|
      invariant db.dishes == RemoveDishes(old(db.dishes), ids[..k])
      invariant db.flavors == RemoveFlavors(old(db.flavors), ids[..k])
    {
      RemoveOneMore(old(db.dishes), old(db.flavors), ids, k);
      db.dishes := DeleteDishById(db.dishes, ids[k]);
      db.flavors := DeleteFlavorsOf(db.flavors, ids[k]);
    }
    assert ids[..|ids|] == ids;
    r := Pass;
  }

  /** A batch is deleted exactly when every id names a dish, none is on sale
      and no set-meal contains any of them. */
  lemma DeleteBatchPassIff(dishes: seq<Dish>, links: seq<SetmealDish>, ids: seq<int>)
    ensures DeleteBatchOutcome(dishes, links, ids) == Pass <==>
      && (forall k :: 0 <= k < |ids| ==> FindDish(dishes, ids[k]).Some? && FindDish(dishes, ids[k]).value.status != ENABLE)
      && (forall l :: l in links ==> l.dishId !in ids)
  {
    var s := SetmealIdsOfDishes(links, ids);
    if s != [] {
      assert s[0] in s;
    }
    forall l | l in links && l.dishId in ids ensures s != [] {
      assert l.setmealId in s;
    }
  }

  /** One dish on sale blocks the whole batch, before the links are looked at,
      as long as every id up to it names a dish. */
  lemma {:induction false} OnSaleBlocksBatch(dishes: seq<Dish>, links: seq<SetmealDish>, ids: seq<int>, k: int)
    requires 0 <= k < |ids|
    requires forall j :: 0 <= j <= k ==> FindDish(dishes, ids[j]).Some?
    requires FindDish(dishes, ids[k]).value.status == ENABLE
    ensures DeleteBatchOutcome(dishes, links, ids) == Fail(DishOnSale)
  {
    OnSaleFailsCheck(dishes, ids, k);
  }

  lemma {:induction false} OnSaleFailsCheck(dishes: seq<Dish>, ids: seq<int>, k: int)
    requires 0 <= k < |ids|
    requires forall j :: 0 <= j <= k ==> FindDish(dishes, ids[j]).Some?
    requires FindDish(dishes, ids[k]).value.status == ENABLE
    ensures DeleteCheck(dishes, ids) == Fail(DishOnSale)
  {
    var d0 := FindDish(dishes, ids[0]);
    assert d0.Some?;
    if d0.value.status != ENABLE {
      assert k > 0;
      var rest := ids[1..];
      forall j | 0 <= j <= k - 1 ensures FindDish(dishes, rest[j]).Some? {
        assert rest[j] == ids[j + 1];
      }
      assert rest[k - 1] == ids[k];
      OnSaleFailsCheck(dishes, rest, k - 1);
    }
  }

  /** After a deletion none of the dishes or their flavors is left, and every
      other dish and flavor is. */
  lemma DeletedDishesAreGone(dishes: seq<Dish>, flavors: seq<DishFlavor>, ids: seq<int>)
    ensures forall d :: d in RemoveDishes(dishes, ids) <==> d in dishes && d.id !in ids
    ensures forall f :: f in RemoveFlavors(flavors, ids) <==> f in flavors && f.dishId !in ids
    ensures forall k :: 0 <= k < |ids| ==> FindDish(RemoveDishes(dishes, ids), ids[k]).None?
  {
    forall k | 0 <= k < |ids| ensures FindDish(RemoveDishes(dishes, ids), ids[k]).None? {
      FilterNone(RemoveDishes(dishes, ids), (d: Dish) => d.id == ids[k]);
    }
  }

  // ---------------------------------------------------------------------------
  // updateWithFlavor

  /** The write of an edit: every submitted field, and the two update audit fields. */
  function EditPatch(dto: DishDTO, now: int, currentId: int): DishPatch {
    DishPatch(dto.id, Some(dto.name), Some(dto.categoryId), Some(dto.price), Some(dto.image),
              Some(dto.description), Some(dto.status), Stamp(UPDATE, NO_AUDIT, now, currentId))
  }

  method UpdateWithFlavor(db: Database, dto: DishDTO, now: int, currentId: int)
    modifies db`dishes, db`flavors
    ensures db.dishes == UpdateDish(old(db.dishes), EditPatch(dto, now, currentId))
    ensures db.flavors == DeleteFlavorsOf(old(db.flavors), dto.id) + SubmittedFlavors(dto, dto.id)
  {
    db.dishes := UpdateDish(db.dishes, EditPatch(dto, now, currentId));
    db.flavors := DeleteFlavorsOf(db.flavors, dto.id);
    if dto.flavors.Some? && |dto.flavors.value| > 0 {
      var rows := TieFlavors(dto.flavors.value, dto.id);
      db.flavors := db.flavors + rows;
    }
  }

  /** After an edit the dish has exactly the submitted flavors, and every
      other dish keeps its own. */
  lemma EditReplacesFlavors(flavors: seq<DishFlavor>, dto: DishDTO, other: int)
    requires other != dto.id
    ensures FlavorsOf(DeleteFlavorsOf(flavors, dto.id) + SubmittedFlavors(dto, dto.id), dto.id) == SubmittedFlavors(dto, dto.id)
    ensures FlavorsOf(DeleteFlavorsOf(flavors, dto.id) + SubmittedFlavors(dto, dto.id), other) == FlavorsOf(flavors, other)
  {
    var kept := DeleteFlavorsOf(flavors, dto.id);
    var added := SubmittedFlavors(dto, dto.id);
    FilterConcat(kept, added, (f: DishFlavor) => f.dishId == dto.id);
    FilterNone(kept, (f: DishFlavor) => f.dishId == dto.id);
    FilterAll(added, (f: DishFlavor) => f.dishId == dto.id);
    FilterConcat(kept, added, (f: DishFlavor) => f.dishId == other);
    FilterNone(added, (f: DishFlavor) => f.dishId == other);
    FilterFilter(flavors, (f: DishFlavor) => f.dishId != dto.id, (f: DishFlavor) => f.dishId == other);
  }

  /** An edit keeps the dish's creation stamp and its key, and records the
      caller and `now` as its last update. */
  lemma EditKeepsCreation(d: Dish, dto: DishDTO, now: int, currentId: int)
    requires d.id == dto.id
    ensures var e := ApplyDishPatch(d, EditPatch(dto, now, currentId));
      && e.id == d.id
      && e.audit == d.audit.(updateTime := Some(now), updateUser := Some(currentId))
      && e.name == dto.name && e.price == dto.price && e.status == dto.status
  {
  }

  // ---------------------------------------------------------------------------
  // startOrStop

  function StatusPatch(id: int, status: int, now: int, currentId: int): DishPatch {
    DishPatch(id, None, None, None, None, None, Some(status), Stamp(UPDATE, NO_AUDIT, now, currentId))
  }

  /** The write of the cascade on one set-meal. */
  function SetmealOffSale(id: int, now: int, currentId: int): SetmealPatch {
    SetmealPatch(id, None, None, None, Some(DISABLE), None, None, Stamp(UPDATE, NO_AUDIT, now, currentId))
  }

  /** The set-meals after the cascade over the set-meal keys `ids`. */
  function OffSale(setmeals: seq<Setmeal>, ids: seq<int>, now: int, currentId: int): (r: seq<Setmeal>)
    ensures |r| == |setmeals|
    ensures forall i :: 0 <= i < |setmeals| ==>
      r[i] == if setmeals[i].id in ids then ApplySetmealPatch(setmeals[i], SetmealOffSale(setmeals[i].id, now, currentId)) else setmeals[i]
  {
    seq(|setmeals|, i requires 0 <= i < |setmeals| =>
      if setmeals[i].id in ids then ApplySetmealPatch(setmeals[i], SetmealOffSale(setmeals[i].id, now, currentId)) else setmeals[i])
  }

  lemma OffSaleStep(setmeals: seq<Setmeal>, cur: seq<Setmeal>, ids: seq<int>, k: int, now: int, currentId: int)
    requires 0 <= k < |ids| && cur == OffSale(setmeals, ids[..k], now, currentId)
    ensures UpdateSetmeal(cur, SetmealOffSale(ids[k], now, currentId)) == OffSale(setmeals, ids[..k + 1], now, currentId)
  {
    assert ids[..k + 1] == ids[..k] + [ids[k]];
  }

  /** Sets the dish's status; taking it off sale also takes off sale every
      set-meal with a link to it. */
  method StartOrStop(db: Database, status: int, id: int, now: int, currentId: int)
    modifies db`dishes, db`setmeals
    ensures db.dishes == UpdateDish(old(db.dishes), StatusPatch(id, status, now, currentId))
    ensures db.setmeals == if status == DISABLE
      then OffSale(old(db.setmeals), SetmealIdsOfDishes(db.setmealDishes, [id]), now, currentId)
      else old(db.setmeals)
  {
    db.dishes := UpdateDish(db.dishes, StatusPatch(id, status, now, currentId));
    if status == DISABLE {
      var setmealIds := SetmealIdsOfDishes(db.setmealDishes, [id]);
      if |setmealIds| > 0 {
        assert setmealIds[..0] == [];
        for k := 0 to |setmealIds|
          invariant db.setmeals == OffSale(old(db.setmeals), setmealIds[..k], now, currentId)
          invariant db.dishes == UpdateDish(old(db.dishes), StatusPatch(id, status, now, currentId))
        {
          OffSaleStep(old(db.setmeals), db.setmeals, setmealIds, k, now, currentId);
          db.setmeals := UpdateSetmeal(db.setmeals, SetmealOffSale(setmealIds[k], now, currentId));
        }
        assert setmealIds[..|setmealIds|] == setmealIds;
      } else {
        assert db.setmeals == OffSale(old(db.setmeals), setmealIds, now, currentId);
      }
    }
  }

  /** Taking a dish off sale leaves no set-meal containing it on sale, and
      touches no set-meal that does not contain it. */
  lemma OffSaleCascade(setmeals: seq<Setmeal>, links: seq<SetmealDish>, dishId: int, now: int, currentId: int)
    ensures var after := OffSale(setmeals, SetmealIdsOfDishes(links, [dishId]), now, currentId);
      forall i :: 0 <= i < |setmeals| ==>
        && ((exists l :: l in links && l.dishId == dishId && l.setmealId == setmeals[i].id) ==> after[i].status == DISABLE)
        && (!(exists l :: l in links && l.dishId == dishId && l.setmealId == setmeals[i].id) ==> after[i] == setmeals[i])
  {
  }
}
