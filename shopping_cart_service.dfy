/** The customer's shopping cart: adding an item (merging with a row already
    there), listing, emptying, and taking one portion away. */
module ShoppingCartService {
  import opened Common
  import opened Entities
  import opened Store

  /** The request body: which dish (with which flavor) or which set-meal. */
  datatype ShoppingCartDTO = ShoppingCartDTO(dishId: Option<int>, setmealId: Option<int>, dishFlavor: Option<string>)

  /** The example object of `add`: the caller and the item as given. */
  function AddProbe(userId: int, dto: ShoppingCartDTO): CartProbe {
    CartProbe(None, Some(userId), dto.dishId, dto.setmealId, dto.dishFlavor)
  }

  /** The snapshot of a dish or set-meal a new row takes its name, image and price from. */
  datatype Snapshot = Snapshot(name: string, image: string, amount: int)

  /** The item looked up for a new row: the dish when a dish id is given,
      otherwise the set-meal; a missing row is a null dereference. */
  function LookupItem(dishes: seq<Dish>, setmeals: seq<Setmeal>, dto: ShoppingCartDTO): (r: Result<Snapshot>)
    ensures dto.dishId.Some? ==> (r.Ok? <==> FindDish(dishes, dto.dishId.value).Some?)
    ensures dto.dishId.None? ==> (r.Ok? <==> dto.setmealId.Some? && FindSetmeal(setmeals, dto.setmealId.value).Some?)
    ensures r.Ok? && dto.dishId.Some? ==>
      var d := FindDish(dishes, dto.dishId.value).value; r.value == Snapshot(d.name, d.image, d.price)
    ensures r.Ok? && dto.dishId.None? ==>
      var m := FindSetmeal(setmeals, dto.setmealId.value).value; r.value == Snapshot(m.name, m.image, m.price)
    ensures r.Err? ==> r.error == NullReference
  {
    if dto.dishId.Some? then
      match FindDish(dishes, dto.dishId.value)
      case None => Err(NullReference)
      case Some(d) => Ok(Snapshot(d.name, d.image, d.price))
    else if dto.setmealId.None? then Err(NullReference)
    else
      match FindSetmeal(setmeals, dto.setmealId.value)
      case None => Err(NullReference)
      case Some(m) => Ok(Snapshot(m.name, m.image, m.price))
  }

  /** A new cart row of one portion; the table gives it its key. */
  function NewCartRow(userId: int, dto: ShoppingCartDTO, item: Snapshot, now: int): CartRow {
    CartRow(0, item.name, item.image, userId, dto.dishId, dto.setmealId, dto.dishFlavor, 1, item.amount, now)
  }

  /** When the caller already has a row for the item, its first such row gets
      one more portion; otherwise a row of one portion is inserted with the
      dish's or set-meal's name, image and price. */
  method Add(db: Database, userId: int, dto: ShoppingCartDTO, now: int) returns (r: Outcome)
    requires db.CartValid()
    modifies db`cart, db`nextCartId
    ensures db.CartValid()
    ensures var matches := CartList(old(db.cart), AddProbe(userId, dto));
      && (matches != [] ==>
            && r == Pass
            && db.cart == SetCartNumber(old(db.cart), matches[0].id, matches[0].number + 1)
            && db.nextCartId == old(db.nextCartId))
      && (matches == [] && LookupItem(db.dishes, db.setmeals, dto).Err? ==>
            r == Fail(NullReference) && unchanged(db))
      && (matches == [] && LookupItem(db.dishes, db.setmeals, dto).Ok? ==>
            && r == Pass
            && db.cart == InsertCartRows(old(db.cart), [NewCartRow(userId, dto, LookupItem(db.dishes, db.setmeals, dto).value, now)], old(db.nextCartId))
            && db.nextCartId == old(db.nextCartId) + 1)
  {
    var shoppingCartList := CartList(db.cart, AddProbe(userId, dto));
    if |shoppingCartList| > 0 {
      var shoppingCart := shoppingCartList[0];
      assert shoppingCart in db.cart;
      SetCartNumberValid(db.cart, db.nextCartId, shoppingCart.id, shoppingCart.number + 1);
      db.cart := SetCartNumber(db.cart, shoppingCart.id, shoppingCart.number + 1);
      return Pass;
    }
    var item := LookupItem(db.dishes, db.setmeals, dto);
    if item.Err? {
      return Fail(item.error);
    }
    var row := NewCartRow(userId, dto, item.value, now);
    InsertCartRowsValid(db.cart, [row], db.nextCartId);
    db.cart := InsertCartRows(db.cart, [row], db.nextCartId);
    db.nextCartId := db.nextCartId + 1;
    r := Pass;
  }

  /** Adding an item the caller already has raises that row's portions by one
      and changes no other row. */
  lemma AddIncrementsOneRow(cart: seq<CartRow>, nextId: int, userId: int, dto: ShoppingCartDTO)
    requires CartTableValid(cart, nextId)
    requires CartList(cart, AddProbe(userId, dto)) != []
    ensures var m := CartList(cart, AddProbe(userId, dto))[0];
      exists i :: 0 <= i < |cart| && cart[i] == m && SetCartNumber(cart, m.id, m.number + 1) == cart[i := m.(number := m.number + 1)]
  {
    var m := CartList(cart, AddProbe(userId, dto))[0];
    assert m in cart;
    var i :| 0 <= i < |cart| && cart[i] == m;
    var after := SetCartNumber(cart, m.id, m.number + 1);
    forall j | 0 <= j < |cart| ensures after[j] == cart[i := m.(number := m.number + 1)][j] {
      if j != i {
        if j < i {
          assert cart[j].id != cart[i].id;
        } else {
          assert cart[i].id != cart[j].id;
        }
      }
    }
  }

  /** The caller's cart, in table order. */
  method ShowShoppingCart(db: Database, userId: int) returns (rows: seq<CartRow>)
    ensures forall c :: c in rows <==> c in db.cart && c.userId == userId
    ensures |rows| <= |db.cart|
    ensures rows == CartList(db.cart, UserProbe(userId))
  {
    rows := CartList(db.cart, UserProbe(userId));
  }

  /** Deletes every row of the caller. */
  method CleanShoppingCart(db: Database, userId: int)
    requires db.CartValid()
    modifies db`cart
    ensures db.CartValid()
    ensures db.cart == DeleteCartOfUser(old(db.cart), userId)
  {
    DeleteCartValid(db.cart, db.nextCartId, (c: CartRow) => c.userId != userId);
    db.cart := DeleteCartOfUser(db.cart, userId);
  }

  /** Emptying the cart removes exactly the caller's rows and keeps the order of the rest. */
  lemma CleanRemovesExactlyCallersRows(cart: seq<CartRow>, userId: int)
    ensures forall c :: c in DeleteCartOfUser(cart, userId) <==> c in cart && c.userId != userId
    ensures CartList(DeleteCartOfUser(cart, userId), UserProbe(userId)) == []
  {
    FilterNone(DeleteCartOfUser(cart, userId), (r: CartRow) => Matches(UserProbe(userId), r));
  }

  // ---------------------------------------------------------------------------
  // subShoppingCart

  /** The example object of `subShoppingCart` as written: the caller's user id
      is put in the key field, and no user is named. */
  function SubProbe(userId: int, dto: ShoppingCartDTO): CartProbe {
    CartProbe(Some(userId), None, dto.dishId, dto.setmealId, dto.dishFlavor)
  }

  /** The example object evidently intended: the caller's rows for the item. */
  function IntendedSubProbe(userId: int, dto: ShoppingCartDTO): CartProbe {
    AddProbe(userId, dto)
  }

  /** The cart after taking one portion away from the first row the probe
      selects: decremented when it holds more than one, deleted otherwise. */
  function AfterSub(cart: seq<CartRow>, probe: CartProbe): seq<CartRow> {
    var found := CartList(cart, probe);
    if found == [] then cart
    else if found[0].number > 1 then SetCartNumber(cart, found[0].id, found[0].number - 1)
    else DeleteCartById(cart, found[0].id)
  }

  /** Takes one portion away from the first row the probe selects. */
  method TakeOnePortion(db: Database, probe: CartProbe)
    requires db.CartValid()
    modifies db`cart
    ensures db.CartValid()
    ensures db.cart == AfterSub(old(db.cart), probe)
  {
    var shoppingCartList := CartList(db.cart, probe);
    if |shoppingCartList| > 0 {
      var shoppingCart := shoppingCartList[0];
      if shoppingCart.number > 1 {
        SetCartNumberValid(db.cart, db.nextCartId, shoppingCart.id, shoppingCart.number - 1);
        db.cart := SetCartNumber(db.cart, shoppingCart.id, shoppingCart.number - 1);
      } else {
        DeleteCartValid(db.cart, db.nextCartId, (c: CartRow) => c.id != shoppingCart.id);
        db.cart := DeleteCartById(db.cart, shoppingCart.id);
      }
    }
  }

  /** `subShoppingCart` as written: the probe names the caller in the key field. */
  method SubShoppingCart(db: Database, userId: int, dto: ShoppingCartDTO)
    requires db.CartValid()
    modifies db`cart
    ensures db.CartValid()
    ensures db.cart == AfterSub(old(db.cart), SubProbe(userId, dto))
  {
    TakeOnePortion(db, SubProbe(userId, dto));
  }

  /** `subShoppingCart` as evidently intended: the probe names the caller as the owner. */
  method IntendedSubShoppingCart(db: Database, userId: int, dto: ShoppingCartDTO)
    requires db.CartValid()
    modifies db`cart
    ensures db.CartValid()
    ensures db.cart == AfterSub(old(db.cart), IntendedSubProbe(userId, dto))
  {
    TakeOnePortion(db, IntendedSubProbe(userId, dto));
  }

  /** As written, the probe selects by row key: only a row whose key equals
      the caller's user id can be touched, whoever it belongs to. */
  lemma SubAsWrittenSelectsByKey(cart: seq<CartRow>, userId: int, dto: ShoppingCartDTO)
    ensures forall c :: c in CartList(cart, SubProbe(userId, dto)) ==> c.id == userId
  {
  }

  /** Customer 7 holds two portions of dish 5 in row 3; customer 9 holds one
      portion of dish 5 in row 7. Customer 7 taking a portion away deletes
      customer 9's row and leaves customer 7's row as it was. */
  lemma SubAsWrittenHitsAnotherCustomer()
    ensures AfterSub([MINE, THEIRS], SubProbe(7, DISH_5)) == [MINE]
  {
    CartListCons(MINE, [THEIRS], SubProbe(7, DISH_5));
    CartListCons(THEIRS, [], SubProbe(7, DISH_5));
    assert [MINE, THEIRS] == [MINE] + [THEIRS] && [THEIRS] == [THEIRS] + [];
    assert CartList([MINE, THEIRS], SubProbe(7, DISH_5)) == [THEIRS];
    DeleteCartByIdCons(MINE, [THEIRS], 7);
    DeleteCartByIdCons(THEIRS, [], 7);
  }

  /** The same request with the intended probe takes the portion from customer 7's own row. */
  lemma SubIntendedOnSameCart()
    ensures AfterSub([MINE, THEIRS], IntendedSubProbe(7, DISH_5)) == [MINE.(number := 1), THEIRS]
  {
    CartListCons(MINE, [THEIRS], IntendedSubProbe(7, DISH_5));
    CartListCons(THEIRS, [], IntendedSubProbe(7, DISH_5));
    assert [MINE, THEIRS] == [MINE] + [THEIRS] && [THEIRS] == [THEIRS] + [];
    assert CartList([MINE, THEIRS], IntendedSubProbe(7, DISH_5)) == [MINE];
    var after := SetCartNumber([MINE, THEIRS], 3, 1);
    assert after[0] == MINE.(number := 1) && after[1] == THEIRS;
  }

  const MINE: CartRow := CartRow(3, "dish", "", 7, Some(5), None, None, 2, 100, 0)
  const THEIRS: CartRow := CartRow(7, "dish", "", 9, Some(5), None, None, 1, 100, 0)
  const DISH_5: ShoppingCartDTO := ShoppingCartDTO(Some(5), None, None)

  /** With the intended probe, taking a portion away never changes another
      customer's cart. */
  lemma SubIntendedTouchesOnlyCaller(cart: seq<CartRow>, nextId: int, userId: int, dto: ShoppingCartDTO, other: int)
    requires CartTableValid(cart, nextId) && other != userId
    ensures CartList(AfterSub(cart, IntendedSubProbe(userId, dto)), UserProbe(other)) == CartList(cart, UserProbe(other))
  {
    var found := CartList(cart, IntendedSubProbe(userId, dto));
    if found != [] {
      var m := found[0];
      assert m in cart;
      if m.number > 1 {
        DecrementKeepsOthers(cart, nextId, m, other);
      } else {
        forall x | x in cart && Matches(UserProbe(other), x) ensures x.id != m.id {
          if x.id == m.id {
            SameCartRow(cart, x, m);
          }
        }
        FilterFilter(cart, (r: CartRow) => r.id != m.id, (r: CartRow) => Matches(UserProbe(other), r));
      }
    }
  }

  /** The only row with the key of a row of the caller is that row, so
      re-numbering it leaves every other customer's rows alone. */
  lemma DecrementKeepsOthers(cart: seq<CartRow>, nextId: int, m: CartRow, other: int)
    requires CartTableValid(cart, nextId) && m in cart && m.userId != other
    ensures CartList(SetCartNumber(cart, m.id, m.number - 1), UserProbe(other)) == CartList(cart, UserProbe(other))
  {
    var after := SetCartNumber(cart, m.id, m.number - 1);
    var q := (r: CartRow) => Matches(UserProbe(other), r);
    forall j | 0 <= j < |cart| && cart[j].id == m.id ensures cart[j] == m {
      assert cart[j] in cart;
      SameCartRow(cart, cart[j], m);
    }
    FilterAgree(cart, after, q);
  }

  /** With the intended probe the caller's first matching row loses one
      portion, or disappears when it held only one. */
  lemma SubIntendedDecrements(cart: seq<CartRow>, nextId: int, userId: int, dto: ShoppingCartDTO)
    requires CartTableValid(cart, nextId)
    requires CartList(cart, IntendedSubProbe(userId, dto)) != []
    ensures var m := CartList(cart, IntendedSubProbe(userId, dto))[0];
      var after := AfterSub(cart, IntendedSubProbe(userId, dto));
      && m.userId == userId
      && m !in after
      && (m.number > 1 ==> m.(number := m.number - 1) in after)
      && |after| == (if m.number > 1 then |cart| else |cart| - 1)
  {
    var m := CartList(cart, IntendedSubProbe(userId, dto))[0];
    assert m in cart;
    var i :| 0 <= i < |cart| && cart[i] == m;
    forall j | 0 <= j < |cart| && cart[j].id == m.id ensures cart[j] == m {
      assert cart[j] in cart;
      SameCartRow(cart, cart[j], m);
    }
    if m.number > 1 {
      var after := SetCartNumber(cart, m.id, m.number - 1);
      assert after[i] == m.(number := m.number - 1);
    } else {
      DeleteOneKey(cart, i);
    }
  }
}
