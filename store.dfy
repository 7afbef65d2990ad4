/** The persistence layer: every table as an in-memory sequence of rows, in
    the order a plain `SELECT` returns them, and the mapper statements the
    services issue, each as a function on those sequences. */
module Store {
  import opened Common
  import opened AutoFill
  import opened Entities

  // ---------------------------------------------------------------------------
  // Selection with a WHERE clause.

  function Filter<T(!new)>(s: seq<T>, p: T -> bool): (r: seq<T>)
    ensures |r| <= |s|
    ensures forall x :: x in r <==> x in s && p(x)
  {
    if s == [] then [] else (if p(s[0]) then [s[0]] else []) + Filter(s[1..], p)
  }

  lemma {:induction false} FilterConcat<T(!new)>(a: seq<T>, b: seq<T>, p: T -> bool)
    ensures Filter(a + b, p) == Filter(a, p) + Filter(b, p)
  {
    if a == [] {
      assert a + b == b;
    } else {
      assert (a + b)[1..] == a[1..] + b;
      FilterConcat(a[1..], b, p);
    }
  }

  /** Selecting twice is selecting once with both conditions. */
  lemma {:induction false} FilterBoth<T(!new)>(s: seq<T>, p: T -> bool, q: T -> bool, r: T -> bool)
    requires forall x :: x in s ==> (r(x) <==> p(x) && q(x))
    ensures Filter(Filter(s, p), q) == Filter(s, r)
  {
    if s != [] {
      var h := if p(s[0]) then [s[0]] else [];
      assert Filter(s, p) == h + Filter(s[1..], p);
      FilterConcat(h, Filter(s[1..], p), q);
      assert forall x :: x in s[1..] ==> x in s;
      FilterBoth(s[1..], p, q, r);
    }
  }

  /** Selecting with a condition that implies an earlier one ignores the earlier one. */
  lemma {:induction false} FilterFilter<T(!new)>(s: seq<T>, p: T -> bool, q: T -> bool)
    requires forall x :: x in s && q(x) ==> p(x)
    ensures Filter(Filter(s, p), q) == Filter(s, q)
  {
    if s != [] {
      var h := if p(s[0]) then [s[0]] else [];
      assert Filter(s, p) == h + Filter(s[1..], p);
      FilterConcat(h, Filter(s[1..], p), q);
      assert forall x :: x in s[1..] ==> x in s;
      FilterFilter(s[1..], p, q);
    }
  }

  /** Two tables that agree on every position where either row is selected
      give the same selection. */
  lemma {:induction false} FilterAgree<T(!new)>(a: seq<T>, b: seq<T>, p: T -> bool)
    requires |a| == |b|
    requires forall i :: 0 <= i < |a| && (p(a[i]) || p(b[i])) ==> a[i] == b[i]
    ensures Filter(a, p) == Filter(b, p)
  {
    if a != [] {
      FilterAgree(a[1..], b[1..], p);
    }
  }

  /** A selection whose condition every row meets returns the whole table. */
  lemma {:induction false} FilterAll<T(!new)>(s: seq<T>, p: T -> bool)
    requires forall x :: x in s ==> p(x)
    ensures Filter(s, p) == s
  {
    if s != [] {
      assert forall x :: x in s[1..] ==> x in s;
      FilterAll(s[1..], p);
    }
  }

  /** A selection whose condition no row meets is empty. */
  lemma {:induction false} FilterNone<T(!new)>(s: seq<T>, p: T -> bool)
    requires forall x :: x in s ==> !p(x)
    ensures Filter(s, p) == []
  {
    if s != [] {
      assert forall x :: x in s[1..] ==> x in s;
      FilterNone(s[1..], p);
    }
  }

  /** Each selected row keeps its relative order: the selection of a prefix is a prefix. */
  lemma FilterSnoc<T(!new)>(s: seq<T>, x: T, p: T -> bool)
    ensures Filter(s + [x], p) == Filter(s, p) + (if p(x) then [x] else [])
  {
    FilterConcat(s, [x], p);
  }

  /** The first row meeting a condition. */
  function FindFirst<T(!new)>(s: seq<T>, p: T -> bool): (r: Option<T>)
    ensures r.Some? ==> r.value in s && p(r.value)
    ensures r.Some? ==> r.value == Filter(s, p)[0]
    ensures r.None? <==> Filter(s, p) == []
  {
    if s == [] then None
    else if p(s[0]) then Some(s[0])
    else FindFirst(s[1..], p)
  }

  /** A primary key: no two rows share a key. */
  predicate KeysUnique<T>(s: seq<T>, key: T -> int) {
    forall i, j :: 0 <= i < j < |s| ==> key(s[i]) != key(s[j])
  }

  /** Deleting rows never makes two remaining rows share a key. */
  lemma {:induction false} FilterKeysUnique<T(!new)>(s: seq<T>, p: T -> bool, key: T -> int)
    requires KeysUnique(s, key)
    ensures KeysUnique(Filter(s, p), key)
  {
    if s != [] {
      var rest := Filter(s[1..], p);
      assert KeysUnique(s[1..], key) by {
        forall i, j | 0 <= i < j < |s[1..]| ensures key(s[1..][i]) != key(s[1..][j]) {
          assert s[1..][i] == s[i + 1] && s[1..][j] == s[j + 1];
        }
      }
      FilterKeysUnique(s[1..], p, key);
      if p(s[0]) {
        var r := [s[0]] + rest;
        assert Filter(s, p) == r;
        forall x | x in rest ensures key(x) != key(s[0]) {
          assert x in s[1..];
          var j :| 0 <= j < |s[1..]| && s[1..][j] == x;
          assert s[j + 1] == x;
        }
        forall i, j | 0 <= i < j < |r| ensures key(r[i]) != key(r[j]) {
          assert r[j] == rest[j - 1];
          if i > 0 {
            assert r[i] == rest[i - 1];
          }
        }
      }
    }
  }

  // ---------------------------------------------------------------------------
  // orders

  predicate OrderIdsUnique(orders: seq<Order>) {
    KeysUnique(orders, (o: Order) => o.id)
  }

  /** The lifecycle facts every order row keeps: both codes in range, an order
      awaiting payment is unpaid, a paid order has a checkout time, and a
      cancelled order records when and why it was cancelled. */
  predicate OrderConsistent(o: Order) {
    && PENDING_PAYMENT <= o.status <= CANCELLED
    && UN_PAID <= o.payStatus <= REFUND
    && (o.status == PENDING_PAYMENT ==> o.payStatus == UN_PAID)
    && (o.payStatus == PAID ==> o.checkoutTime.Some?)
    && (o.status == CANCELLED ==> o.cancelTime.Some? && o.cancelReason.Some?)
  }

  /** `getById`: the order with that id, if any. */
  function FindOrderById(orders: seq<Order>, id: int): Option<Order> {
    FindFirst(orders, (o: Order) => o.id == id)
  }

  /** `getByStatusAndOrderTimeLT`: orders in `status` placed strictly before `time`. */
  function OrdersByStatusBefore(orders: seq<Order>, status: int, time: int): seq<Order> {
    Filter(orders, (o: Order) => o.status == status && o.orderTime < time)
  }

  /** `countStatus`. */
  function CountStatus(orders: seq<Order>, status: int): nat {
    |Filter(orders, (o: Order) => o.status == status)|
  }

  /** The argument of `update(Orders)`: dynamic SQL writes only the fields present. */
  datatype OrderPatch = OrderPatch(
    id: int,
    status: Option<int>,
    payStatus: Option<int>,
    checkoutTime: Option<Option<int>>,
    cancelReason: Option<Option<string>>,
    cancelTime: Option<Option<int>>)

  function ApplyOrderPatch(o: Order, p: OrderPatch): Order {
    o.(status := p.status.GetOr(o.status),
       payStatus := p.payStatus.GetOr(o.payStatus),
       checkoutTime := p.checkoutTime.GetOr(o.checkoutTime),
       cancelReason := p.cancelReason.GetOr(o.cancelReason),
       cancelTime := p.cancelTime.GetOr(o.cancelTime))
  }

  /** `update ... where id = #{id}`. */
  function UpdateOrder(orders: seq<Order>, p: OrderPatch): (r: seq<Order>)
    ensures |r| == |orders|
    ensures forall i :: 0 <= i < |r| ==> r[i] == if orders[i].id == p.id then ApplyOrderPatch(orders[i], p) else orders[i]
  {
    seq(|orders|, i requires 0 <= i < |orders| =>
      if orders[i].id == p.id then ApplyOrderPatch(orders[i], p) else orders[i])
  }

  /** Two rows of a table with unique keys that share a key are the same row. */
  lemma SameOrderId(orders: seq<Order>, a: Order, b: Order)
    requires OrderIdsUnique(orders) && a in orders && b in orders && a.id == b.id
    ensures a == b
  {
    var i :| 0 <= i < |orders| && orders[i] == a;
    var j :| 0 <= j < |orders| && orders[j] == b;
  }

  /** The integrity of the order tables: unique keys below the counter,
      consistent orders, and line items of handed-out keys with at least one
      portion each. */
  predicate OrderTablesValid(orders: seq<Order>, details: seq<OrderDetail>, nextId: int) {
    && OrderIdsUnique(orders)
    && (forall o :: o in orders ==> o.id < nextId && OrderConsistent(o))
    && (forall d :: d in details ==> d.orderId < nextId && d.number >= 1)
  }

  /** Appending an order under the next key, with its line items, keeps the tables valid. */
  lemma AppendOrderValid(orders: seq<Order>, details: seq<OrderDetail>, nextId: int, o: Order, added: seq<OrderDetail>)
    requires OrderTablesValid(orders, details, nextId)
    requires o.id == nextId && OrderConsistent(o)
    requires forall d :: d in added ==> d.orderId <= nextId && d.number >= 1
    ensures OrderTablesValid(orders + [o], details + added, nextId + 1)
  {
    var s := orders + [o];
    forall i, j | 0 <= i < j < |s| ensures s[i].id != s[j].id {
      assert s[i] in orders;
      if j < |orders| {
        assert s[j] == orders[j];
        assert orders[i].id != orders[j].id;
      }
    }
  }

  /** An update whose effect on every row it touches is consistent keeps the tables valid. */
  lemma UpdateOrderValid(orders: seq<Order>, details: seq<OrderDetail>, nextId: int, p: OrderPatch)
    requires OrderTablesValid(orders, details, nextId)
    requires forall o :: o in orders && o.id == p.id ==> OrderConsistent(ApplyOrderPatch(o, p))
    ensures OrderTablesValid(UpdateOrder(orders, p), details, nextId)
  {
    var s := UpdateOrder(orders, p);
    assert forall i :: 0 <= i < |s| ==> s[i].id == orders[i].id && orders[i] in orders;
    forall x | x in s ensures x.id < nextId && OrderConsistent(x) {
      var i :| 0 <= i < |s| && s[i] == x;
      assert orders[i] in orders;
    }
  }

  // ---------------------------------------------------------------------------
  // order_detail

  /** `getByOrderId`: the line items of one order, in insertion order. */
  function DetailsOf(details: seq<OrderDetail>, orderId: int): seq<OrderDetail> {
    Filter(details, (d: OrderDetail) => d.orderId == orderId)
  }

  // ---------------------------------------------------------------------------
  // address_book

  function FindAddressBook(books: seq<AddressBook>, id: int): Option<AddressBook> {
    FindFirst(books, (b: AddressBook) => b.id == id)
  }

  // ---------------------------------------------------------------------------
  // shopping_cart

  predicate CartIdsUnique(cart: seq<CartRow>) {
    KeysUnique(cart, (r: CartRow) => r.id)
  }

  /** The integrity of the cart table: unique keys below the counter and at
      least one portion in every row. */
  predicate CartTableValid(cart: seq<CartRow>, nextId: int) {
    && CartIdsUnique(cart)
    && (forall r :: r in cart ==> r.id < nextId && r.number >= 1)
  }

  lemma DeleteCartValid(cart: seq<CartRow>, nextId: int, p: CartRow -> bool)
    requires CartTableValid(cart, nextId)
    ensures CartTableValid(Filter(cart, p), nextId)
  {
    FilterKeysUnique(cart, p, (r: CartRow) => r.id);
  }

  /** `insert` / `insertBatch`: the rows are appended and the table hands out
      consecutive keys from `firstId`; whatever key a row carried is ignored. */
  function InsertCartRows(cart: seq<CartRow>, rows: seq<CartRow>, firstId: int): (r: seq<CartRow>)
    ensures |r| == |cart| + |rows|
    ensures r[..|cart|] == cart
    ensures forall i :: 0 <= i < |rows| ==> r[|cart| + i] == rows[i].(id := firstId + i)
  {
    cart + seq(|rows|, i requires 0 <= i < |rows| => rows[i].(id := firstId + i))
  }

  /** The example object passed to `list`: every
      field that is set becomes an equality in the WHERE clause. */
  datatype CartProbe = CartProbe(
    id: Option<int>,
    userId: Option<int>,
    dishId: Option<int>,
    setmealId: Option<int>,
    dishFlavor: Option<string>)

  predicate Matches(p: CartProbe, r: CartRow) {
    && (p.id.Some? ==> r.id == p.id.value)
    && (p.userId.Some? ==> r.userId == p.userId.value)
    && (p.dishId.Some? ==> r.dishId == p.dishId)
    && (p.setmealId.Some? ==> r.setmealId == p.setmealId)
    && (p.dishFlavor.Some? ==> r.dishFlavor == p.dishFlavor)
  }

  function UserProbe(userId: int): CartProbe {
    CartProbe(None, Some(userId), None, None, None)
  }

  /** `list(shoppingCart)`. */
  function CartList(cart: seq<CartRow>, p: CartProbe): seq<CartRow> {
    Filter(cart, (r: CartRow) => Matches(p, r))
  }

  lemma CartListCons(c: CartRow, rest: seq<CartRow>, p: CartProbe)
    ensures CartList([c] + rest, p) == (if Matches(p, c) then [c] else []) + CartList(rest, p)
  {
    assert ([c] + rest)[1..] == rest;
  }

  /** `deleteShoppingCart(shoppingCart)`: removes every row of the example's
      user, whatever else the example holds. */
  function DeleteCartOfUser(cart: seq<CartRow>, userId: int): seq<CartRow> {
    Filter(cart, (r: CartRow) => r.userId != userId)
  }

  lemma InsertCartRowsValid(cart: seq<CartRow>, rows: seq<CartRow>, nextId: int)
    requires CartTableValid(cart, nextId)
    requires forall i :: 0 <= i < |rows| ==> rows[i].number >= 1
    ensures CartTableValid(InsertCartRows(cart, rows, nextId), nextId + |rows|)
  {
    var s := InsertCartRows(cart, rows, nextId);
    forall i | 0 <= i < |s| ensures InsertedRowBound(cart, rows, nextId, i) {
      InsertedRow(cart, rows, nextId, i);
    }
    forall i, j | 0 <= i < j < |s| ensures s[i].id != s[j].id {
      if j < |cart| {
        assert s[i] == cart[i] && s[j] == cart[j];
      } else {
        assert InsertedRowBound(cart, rows, nextId, i) && InsertedRowBound(cart, rows, nextId, j);
      }
    }
    assert CartIdsUnique(s);
    forall x | x in s ensures x.id < nextId + |rows| && x.number >= 1 {
      var i :| 0 <= i < |s| && s[i] == x;
      assert InsertedRowBound(cart, rows, nextId, i);
    }
  }

  /** Where the i-th row after an insert stands: an old row below the
      counter, or a new row with the i-th key handed out. */
  predicate InsertedRowBound(cart: seq<CartRow>, rows: seq<CartRow>, nextId: int, i: int)
    requires 0 <= i < |cart| + |rows|
  {
    var x := InsertCartRows(cart, rows, nextId)[i];
    if i < |cart| then x == cart[i] && x.id < nextId && x.number >= 1
    else x.id == nextId + (i - |cart|) && x.number == rows[i - |cart|].number
  }

  lemma InsertedRow(cart: seq<CartRow>, rows: seq<CartRow>, nextId: int, i: int)
    requires CartTableValid(cart, nextId)
    requires 0 <= i < |cart| + |rows|
    requires forall k :: 0 <= k < |rows| ==> rows[k].number >= 1
    ensures InsertedRowBound(cart, rows, nextId, i)
    ensures InsertCartRows(cart, rows, nextId)[i].number >= 1
  {
    var s := InsertCartRows(cart, rows, nextId);
    if i < |cart| {
      assert s[..|cart|][i] == s[i];
      assert cart[i] in cart;
    } else {
      assert s[|cart| + (i - |cart|)] == rows[i - |cart|].(id := nextId + (i - |cart|));
    }
  }

  /** `updateNumberById`. */
  function SetCartNumber(cart: seq<CartRow>, id: int, number: int): (r: seq<CartRow>)
    ensures |r| == |cart|
    ensures forall i :: 0 <= i < |r| ==> r[i] == if cart[i].id == id then cart[i].(number := number) else cart[i]
  {
    seq(|cart|, i requires 0 <= i < |cart| => if cart[i].id == id then cart[i].(number := number) else cart[i])
  }

  lemma SetCartNumberValid(cart: seq<CartRow>, nextId: int, id: int, number: int)
    requires CartTableValid(cart, nextId) && number >= 1
    ensures CartTableValid(SetCartNumber(cart, id, number), nextId)
  {
    var s := SetCartNumber(cart, id, number);
    forall x | x in s ensures x.id < nextId && x.number >= 1 {
      var i :| 0 <= i < |s| && s[i] == x;
      assert cart[i] in cart;
    }
  }

  /** `deleteById`. */
  function DeleteCartById(cart: seq<CartRow>, id: int): seq<CartRow> {
    Filter(cart, (r: CartRow) => r.id != id)
  }

  lemma DeleteCartByIdCons(c: CartRow, rest: seq<CartRow>, id: int)
    ensures DeleteCartById([c] + rest, id) == (if c.id != id then [c] else []) + DeleteCartById(rest, id)
  {
    assert ([c] + rest)[1..] == rest;
  }

  /** Two rows of a table with unique keys that share a key are the same row. */
  lemma SameCartRow(cart: seq<CartRow>, a: CartRow, b: CartRow)
    requires CartIdsUnique(cart) && a in cart && b in cart && a.id == b.id
    ensures a == b
  {
    var i :| 0 <= i < |cart| && cart[i] == a;
    var j :| 0 <= j < |cart| && cart[j] == b;
  }

  /** Deleting by the key of a row of a table with unique keys removes exactly one row. */
  lemma {:induction false} DeleteOneKey(cart: seq<CartRow>, i: int)
    requires CartIdsUnique(cart) && 0 <= i < |cart|
    ensures |DeleteCartById(cart, cart[i].id)| == |cart| - 1
  {
    var id := cart[i].id;
    var rest := cart[1..];
    assert cart == [cart[0]] + rest;
    DeleteCartByIdCons(cart[0], rest, id);
    if i == 0 {
      forall x | x in rest ensures x.id != id {
        var j :| 0 <= j < |rest| && rest[j] == x;
        assert cart[j + 1] == x;
      }
      FilterAll(rest, (r: CartRow) => r.id != id);
    } else {
      assert cart[0].id != cart[i].id;
      assert CartIdsUnique(rest) by {
        forall a, b | 0 <= a < b < |rest| ensures rest[a].id != rest[b].id {
          assert rest[a] == cart[a + 1] && rest[b] == cart[b + 1];
        }
      }
      assert rest[i - 1] == cart[i];
      DeleteOneKey(rest, i - 1);
    }
  }

  // ---------------------------------------------------------------------------
  // dish and dish_flavor

  function FindDish(dishes: seq<Dish>, id: int): Option<Dish> {
    FindFirst(dishes, (d: Dish) => d.id == id)
  }

  /** `deleteById`. */
  function DeleteDishById(dishes: seq<Dish>, id: int): seq<Dish> {
    Filter(dishes, (d: Dish) => d.id != id)
  }

  /** The argument of `DishMapper.update`: the fields present are written. */
  datatype DishPatch = DishPatch(
    id: int,
    name: Option<string>,
    categoryId: Option<int>,
    price: Option<int>,
    image: Option<string>,
    description: Option<string>,
    status: Option<int>,
    audit: Audit)

  function MergeAudit(stored: Audit, written: Audit): Audit {
    Audit(if written.createTime.Some? then written.createTime else stored.createTime,
          if written.createUser.Some? then written.createUser else stored.createUser,
          if written.updateTime.Some? then written.updateTime else stored.updateTime,
          if written.updateUser.Some? then written.updateUser else stored.updateUser)
  }

  function ApplyDishPatch(d: Dish, p: DishPatch): Dish {
    d.(name := p.name.GetOr(d.name),
       categoryId := p.categoryId.GetOr(d.categoryId),
       price := p.price.GetOr(d.price),
       image := p.image.GetOr(d.image),
       description := p.description.GetOr(d.description),
       status := p.status.GetOr(d.status),
       audit := MergeAudit(d.audit, p.audit))
  }

  function UpdateDish(dishes: seq<Dish>, p: DishPatch): (r: seq<Dish>)
    ensures |r| == |dishes|
    ensures forall i :: 0 <= i < |r| ==> r[i] == if dishes[i].id == p.id then ApplyDishPatch(dishes[i], p) else dishes[i]
  {
    seq(|dishes|, i requires 0 <= i < |dishes| =>
      if dishes[i].id == p.id then ApplyDishPatch(dishes[i], p) else dishes[i])
  }

  /** `list(dish)`: dishes of a category (any category when none is given) in a status. */
  function DishesByCategory(dishes: seq<Dish>, categoryId: Option<int>, status: int): seq<Dish> {
    Filter(dishes, (d: Dish) => (categoryId.Some? ==> d.categoryId == categoryId.value) && d.status == status)
  }

  /** The flavors of one dish. */
  function FlavorsOf(flavors: seq<DishFlavor>, dishId: int): seq<DishFlavor> {
    Filter(flavors, (f: DishFlavor) => f.dishId == dishId)
  }

  /** `deleteByDishId`. */
  function DeleteFlavorsOf(flavors: seq<DishFlavor>, dishId: int): seq<DishFlavor> {
    Filter(flavors, (f: DishFlavor) => f.dishId != dishId)
  }

  // ---------------------------------------------------------------------------
  // setmeal and setmeal_dish

  function FindSetmeal(setmeals: seq<Setmeal>, id: int): Option<Setmeal> {
    FindFirst(setmeals, (s: Setmeal) => s.id == id)
  }

  /** `deleteByIds(setmealId)`. */
  function DeleteSetmealById(setmeals: seq<Setmeal>, id: int): seq<Setmeal> {
    Filter(setmeals, (s: Setmeal) => s.id != id)
  }

  /** The argument of a set-meal `update`: the fields present are written. */
  datatype SetmealPatch = SetmealPatch(
    id: int,
    categoryId: Option<int>,
    name: Option<string>,
    price: Option<int>,
    status: Option<int>,
    description: Option<string>,
    image: Option<string>,
    audit: Audit)

  function ApplySetmealPatch(s: Setmeal, p: SetmealPatch): Setmeal {
    s.(categoryId := p.categoryId.GetOr(s.categoryId),
       name := p.name.GetOr(s.name),
       price := p.price.GetOr(s.price),
       status := p.status.GetOr(s.status),
       description := p.description.GetOr(s.description),
       image := p.image.GetOr(s.image),
       audit := MergeAudit(s.audit, p.audit))
  }

  function UpdateSetmeal(setmeals: seq<Setmeal>, p: SetmealPatch): (r: seq<Setmeal>)
    ensures |r| == |setmeals|
    ensures forall i :: 0 <= i < |r| ==> r[i] == if setmeals[i].id == p.id then ApplySetmealPatch(setmeals[i], p) else setmeals[i]
  {
    seq(|setmeals|, i requires 0 <= i < |setmeals| =>
      if setmeals[i].id == p.id then ApplySetmealPatch(setmeals[i], p) else setmeals[i])
  }

  /** `getSetMealIdByDishIds`: the set-meal of every link to one of the dishes, in link order. */
  function SetmealIdsOfDishes(links: seq<SetmealDish>, dishIds: seq<int>): (r: seq<int>)
    ensures |r| <= |links|
    ensures forall id :: id in r <==> exists l :: l in links && l.dishId in dishIds && l.setmealId == id
  {
    if links == [] then []
    else (if links[0].dishId in dishIds then [links[0].setmealId] else [])
         + SetmealIdsOfDishes(links[1..], dishIds)
  }

  /** `getBySetMealId` on setmeal_dish. */
  function LinksOf(links: seq<SetmealDish>, setmealId: int): seq<SetmealDish> {
    Filter(links, (l: SetmealDish) => l.setmealId == setmealId)
  }

  /** `deleteBySetMealId`. */
  function DeleteLinksOf(links: seq<SetmealDish>, setmealId: int): seq<SetmealDish> {
    Filter(links, (l: SetmealDish) => l.setmealId != setmealId)
  }

  /** `DishMapper.getBySetMealId`: the dishes joined to a set-meal through its links. */
  function DishesOfSetmeal(dishes: seq<Dish>, links: seq<SetmealDish>, setmealId: int): seq<Dish> {
    Filter(dishes, (d: Dish) => exists l :: l in links && l.setmealId == setmealId && l.dishId == d.id)
  }

  // ---------------------------------------------------------------------------
  // employee and user

  /** The argument of `EmployeeMapper.update`: the fields present are written. */
  datatype EmployeePatch = EmployeePatch(
    id: int,
    name: Option<string>,
    username: Option<string>,
    phone: Option<string>,
    sex: Option<string>,
    idNumber: Option<string>,
    status: Option<int>,
    audit: Audit)

  function ApplyEmployeePatch(e: Employee, p: EmployeePatch): Employee {
    e.(name := p.name.GetOr(e.name),
       username := p.username.GetOr(e.username),
       phone := p.phone.GetOr(e.phone),
       sex := p.sex.GetOr(e.sex),
       idNumber := p.idNumber.GetOr(e.idNumber),
       status := p.status.GetOr(e.status),
       audit := MergeAudit(e.audit, p.audit))
  }

  function UpdateEmployee(employees: seq<Employee>, p: EmployeePatch): (r: seq<Employee>)
    ensures |r| == |employees|
    ensures forall i :: 0 <= i < |r| ==> r[i] == if employees[i].id == p.id then ApplyEmployeePatch(employees[i], p) else employees[i]
  {
    seq(|employees|, i requires 0 <= i < |employees| =>
      if employees[i].id == p.id then ApplyEmployeePatch(employees[i], p) else employees[i])
  }

  // ---------------------------------------------------------------------------
  // The database.

  class Database {
    var addressBooks: seq<AddressBook>
    var orders: seq<Order>
    var orderDetails: seq<OrderDetail>
    var cart: seq<CartRow>
    var dishes: seq<Dish>
    var flavors: seq<DishFlavor>
    var setmeals: seq<Setmeal>
    var setmealDishes: seq<SetmealDish>
    var employees: seq<Employee>
    var users: seq<User>
    // Auto-increment counters of the tables whose generated keys are read back.
    var nextOrderId: int
    var nextCartId: int
    var nextDishId: int
    var nextSetmealId: int
    var nextEmployeeId: int

    /** The order tables keep their integrity. */
    ghost predicate OrdersValid()
      reads this
    {
      OrderTablesValid(orders, orderDetails, nextOrderId)
    }

    /** The cart table keeps its integrity. */
    ghost predicate CartValid()
      reads this
    {
      CartTableValid(cart, nextCartId)
    }

    constructor ()
      ensures OrdersValid() && CartValid()
      ensures addressBooks == [] && orders == [] && orderDetails == [] && cart == []
      ensures dishes == [] && flavors == [] && setmeals == [] && setmealDishes == []
      ensures employees == [] && users == []
    {
      addressBooks, orders, orderDetails, cart := [], [], [], [];
      dishes, flavors, setmeals, setmealDishes := [], [], [], [];
      employees, users := [], [];
      nextOrderId, nextCartId, nextDishId, nextSetmealId, nextEmployeeId := 1, 1, 1, 1, 1;
    }
  }
}
