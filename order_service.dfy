/** The customer and merchant order operations: placing an order from the
    cart, the payment callback, cancellation by the customer, re-ordering,
    the merchant's acceptance, the dashboard counts and the dish summary of
    an order. */
module OrderService {
  import opened Common
  import opened Entities
  import opened Store

  /** The request body of an order submission, as far as it is copied into the order. */
  datatype OrdersSubmitDTO = OrdersSubmitDTO(addressBookId: int, payMethod: int, remark: string, amount: int)

  datatype OrderSubmitVO = OrderSubmitVO(id: int, orderNumber: string, orderAmount: int, orderTime: int)

  datatype OrderStatisticsVO = OrderStatisticsVO(toBeConfirmed: nat, confirmed: nat, deliveryInProgress: nat)

  const USER_CANCEL_REASON: string := "用户取消"

  // ---------------------------------------------------------------------------
  // submitOrder

  /** The order row built from the request, the address book entry, the
      caller, the rendered clock and the current time. */
  function PlacedOrder(dto: OrdersSubmitDTO, book: AddressBook, userId: int, id: int, number: string, now: int): (o: Order)
    ensures OrderConsistent(o)
    ensures o.status == PENDING_PAYMENT && o.payStatus == UN_PAID
  {
    Order(id, number, PENDING_PAYMENT, userId, dto.addressBookId, now, None, dto.payMethod, UN_PAID,
          dto.amount, dto.remark, book.phone, book.detail, book.consignee, None, None)
  }

  /** A line item copied from a cart row. */
  function DetailOf(row: CartRow, orderId: int): OrderDetail {
    OrderDetail(row.name, row.image, orderId, row.dishId, row.setmealId, row.dishFlavor, row.number, row.amount)
  }

  function DetailsFromCart(rows: seq<CartRow>, orderId: int): (r: seq<OrderDetail>)
    ensures |r| == |rows|
    ensures forall i :: 0 <= i < |rows| ==> r[i] == DetailOf(rows[i], orderId)
  {
    if rows == [] then [] else [DetailOf(rows[0], orderId)] + DetailsFromCart(rows[1..], orderId)
  }

  /** Rejects a missing address book first, then an empty cart; otherwise
      inserts the order under the next key, one line item per cart row of the
      caller, and empties the caller's cart. */
  method SubmitOrder(db: Database, userId: int, dto: OrdersSubmitDTO, now: int, millis: int) returns (r: Result<OrderSubmitVO>)
    requires db.OrdersValid() && db.CartValid()
    modifies db`orders, db`orderDetails, db`cart, db`nextOrderId
    ensures db.OrdersValid() && db.CartValid()
    ensures FindAddressBook(db.addressBooks, dto.addressBookId).None? ==> r == Err(AddressBookIsNull)
    ensures FindAddressBook(db.addressBooks, dto.addressBookId).Some? && CartList(old(db.cart), UserProbe(userId)) == []
            ==> r == Err(ShoppingCartIsNull)
    ensures FindAddressBook(db.addressBooks, dto.addressBookId).Some? && CartList(old(db.cart), UserProbe(userId)) != []
            ==> r.Ok?
    ensures r.Err? ==> unchanged(db)
    ensures r.Ok? ==>
      (var id := old(db.nextOrderId);
       var number := IntToString(millis);
       var rows := CartList(old(db.cart), UserProbe(userId));
       && FindAddressBook(db.addressBooks, dto.addressBookId).Some?
       && rows != []
       && db.orders == old(db.orders) + [PlacedOrder(dto, FindAddressBook(db.addressBooks, dto.addressBookId).value, userId, id, number, now)]
       && db.orderDetails == old(db.orderDetails) + DetailsFromCart(rows, id)
       && db.cart == DeleteCartOfUser(old(db.cart), userId)
       && db.nextOrderId == id + 1
       && r.value == OrderSubmitVO(id, number, dto.amount, now))
  {
    var book := FindAddressBook(db.addressBooks, dto.addressBookId);
    if book.None? {
      return Err(AddressBookIsNull);
    }
    var rows := CartList(db.cart, UserProbe(userId));
    if |rows| == 0 {
      return Err(ShoppingCartIsNull);
    }
    // insert: the table hands out the next key.
    var order := PlacedOrder(dto, book.value, userId, db.nextOrderId, IntToString(millis), now);
    db.orders := db.orders + [order];
    db.nextOrderId := db.nextOrderId + 1;

    var details: seq<OrderDetail> := [];
    for k := 0 to |rows|
      invariant |details| == k
      invariant forall i :: 0 <= i < k ==> details[i] == DetailOf(rows[i], order.id)
    {
      details := details + [DetailOf(rows[k], order.id)];
    }
    assert details == DetailsFromCart(rows, order.id);
    db.orderDetails := db.orderDetails + details;

    // deleteShoppingCart(shoppingCarts.get(0)): the probe is the first row's user.
    assert rows[0] in rows;
    db.cart := DeleteCartOfUser(db.cart, rows[0].userId);
    DeleteCartValid(old(db.cart), db.nextCartId, (c: CartRow) => c.userId != userId);
    DetailsFromCartValid(rows, old(db.cart), db.nextCartId, order.id);
    AppendOrderValid(old(db.orders), old(db.orderDetails), order.id, order, details);
    r := Ok(OrderSubmitVO(order.id, order.number, order.amount, order.orderTime));
  }

  lemma DetailsFromCartValid(rows: seq<CartRow>, cart: seq<CartRow>, nextCartId: int, id: int)
    requires CartTableValid(cart, nextCartId)
    requires forall r :: r in rows ==> r in cart
    ensures forall d :: d in DetailsFromCart(rows, id) ==> d.orderId == id && d.number >= 1
  {
    var ds := DetailsFromCart(rows, id);
    forall d | d in ds ensures d.orderId == id && d.number >= 1 {
      var i :| 0 <= i < |ds| && ds[i] == d;
      assert rows[i] in rows;
    }
  }

  /** The line items a placed order reads back are exactly those copied from
      the cart, in cart order, whatever the table held before. */
  lemma {:induction false} SubmittedDetailsReadBack(before: seq<OrderDetail>, rows: seq<CartRow>, id: int)
    requires forall d :: d in before ==> d.orderId < id
    ensures DetailsOf(before + DetailsFromCart(rows, id), id) == DetailsFromCart(rows, id)
  {
    var p := (d: OrderDetail) => d.orderId == id;
    FilterConcat(before, DetailsFromCart(rows, id), p);
    FilterNone(before, p);
    FilterAll(DetailsFromCart(rows, id), p);
  }

  /** After a submission the caller's cart is empty and every other
      customer's cart is as it was. */
  lemma SubmitClearsOnlyCallersCart(cart: seq<CartRow>, userId: int, other: int)
    requires other != userId
    ensures CartList(DeleteCartOfUser(cart, userId), UserProbe(userId)) == []
    ensures CartList(DeleteCartOfUser(cart, userId), UserProbe(other)) == CartList(cart, UserProbe(other))
  {
    FilterNone(DeleteCartOfUser(cart, userId), (r: CartRow) => Matches(UserProbe(userId), r));
    FilterFilter(cart, (r: CartRow) => r.userId != userId, (r: CartRow) => Matches(UserProbe(other), r));
  }

  // ---------------------------------------------------------------------------
  // paySuccess

  function PaidPatch(id: int, now: int): OrderPatch {
    OrderPatch(id, Some(TO_BE_CONFIRMED), Some(PAID), Some(Some(now)), None, None)
  }

  /** The payment callback: the order with that number becomes to-be-confirmed
      and paid at `now`, whatever its status was. No such order is a null
      dereference; several are rejected by the single-row select. */
  method PaySuccess(db: Database, outTradeNo: string, now: int) returns (r: Outcome)
    requires db.OrdersValid()
    modifies db`orders
    ensures db.OrdersValid()
    ensures var matching := Filter(old(db.orders), (o: Order) => o.number == outTradeNo);
      && (|matching| == 0 ==> r == Fail(NullReference))
      && (|matching| > 1 ==> r == Fail(TooManyResults))
      && (|matching| == 1 ==> r == Pass && db.orders == UpdateOrder(old(db.orders), PaidPatch(matching[0].id, now)))
    ensures r.Fail? ==> unchanged(db)
  {
    var matching := Filter(db.orders, (o: Order) => o.number == outTradeNo);
    if |matching| == 0 {
      return Fail(NullReference);
    }
    if |matching| > 1 {
      return Fail(TooManyResults);
    }
    var ordersDB := matching[0];
    db.orders := UpdateOrder(db.orders, PaidPatch(ordersDB.id, now));
    r := Pass;
  }

  /** The payment callback takes any order, even a cancelled or completed
      one, to to-be-confirmed and paid; only those three fields change. */
  lemma PaidFromAnyStatus(o: Order, now: int)
    ensures var p := ApplyOrderPatch(o, PaidPatch(o.id, now));
      && p.status == TO_BE_CONFIRMED && p.payStatus == PAID && p.checkoutTime == Some(now)
      && p == o.(status := TO_BE_CONFIRMED, payStatus := PAID, checkoutTime := Some(now))
  {
  }

  // ---------------------------------------------------------------------------
  // userCancelById

  /** The write of a customer cancellation: cancelled now with the fixed
      reason, and refunded when the order had been paid and awaited acceptance. */
  function UserCancelPatch(o: Order, now: int): OrderPatch {
    OrderPatch(o.id, Some(CANCELLED), if o.status == TO_BE_CONFIRMED then Some(REFUND) else None,
               None, Some(Some(USER_CANCEL_REASON)), Some(Some(now)))
  }

  /** The guard of a customer cancellation. */
  function UserCancelCheck(found: Option<Order>): (r: Outcome)
    ensures found.None? ==> r == Fail(OrderNotFound)
    ensures found.Some? ==> (r == Pass <==> found.value.status <= TO_BE_CONFIRMED)
    ensures found.Some? && r.Fail? ==> r == Fail(OrderStatusError)
  {
    if found.None? then Fail(OrderNotFound)
    else if found.value.status > 2 then Fail(OrderStatusError)
    else Pass
  }

  method UserCancelById(db: Database, id: int, now: int) returns (r: Outcome)
    requires db.OrdersValid()
    modifies db`orders
    ensures db.OrdersValid()
    ensures r == UserCancelCheck(FindOrderById(old(db.orders), id))
    ensures r.Fail? ==> unchanged(db)
    ensures r.Pass? ==> db.orders == UpdateOrder(old(db.orders), UserCancelPatch(FindOrderById(old(db.orders), id).value, now))
  {
    var ordersDB := FindOrderById(db.orders, id);
    if ordersDB.None? {
      return Fail(OrderNotFound);
    }
    if ordersDB.value.status > 2 {
      return Fail(OrderStatusError);
    }
    db.orders := UpdateOrder(db.orders, UserCancelPatch(ordersDB.value, now));
    r := Pass;
  }

  /** A customer may cancel exactly the orders awaiting payment or acceptance;
      the accepted, travelling, completed and cancelled ones are refused. A
      cancelled order is refunded exactly when it had been awaiting acceptance,
      and keeps its pay status otherwise. */
  lemma UserCancelEffect(o: Order, now: int)
    requires OrderConsistent(o)
    ensures UserCancelCheck(Some(o)) == Pass <==> o.status in {PENDING_PAYMENT, TO_BE_CONFIRMED}
    ensures o.status in {CONFIRMED, DELIVERY_IN_PROGRESS, COMPLETED, CANCELLED}
            ==> UserCancelCheck(Some(o)) == Fail(OrderStatusError)
    ensures UserCancelCheck(Some(o)) == Pass ==>
      var c := ApplyOrderPatch(o, UserCancelPatch(o, now));
      && c.status == CANCELLED && c.cancelReason == Some(USER_CANCEL_REASON) && c.cancelTime == Some(now)
      && (c.payStatus == REFUND <==> o.status == TO_BE_CONFIRMED)
      && (o.status == PENDING_PAYMENT ==> c.payStatus == UN_PAID)
  {
  }

  // ---------------------------------------------------------------------------
  // repetition

  /** A cart row copied from a line item for the caller; it has no key yet. */
  function CartRowOf(d: OrderDetail, userId: int, now: int): CartRow {
    CartRow(0, d.name, d.image, userId, d.dishId, d.setmealId, d.dishFlavor, d.number, d.amount, now)
  }

  function CartRowsFromDetails(ds: seq<OrderDetail>, userId: int, now: int): (r: seq<CartRow>)
    ensures |r| == |ds|
    ensures forall i :: 0 <= i < |ds| ==> r[i] == CartRowOf(ds[i], userId, now)
  {
    if ds == [] then [] else [CartRowOf(ds[0], userId, now)] + CartRowsFromDetails(ds[1..], userId, now)
  }

  /** Puts the line items of the order back into the caller's cart as new
      rows, next to whatever the cart already holds. */
  method Repetition(db: Database, userId: int, orderId: int, now: int)
    requires db.OrdersValid() && db.CartValid()
    modifies db`cart, db`nextCartId
    ensures db.OrdersValid() && db.CartValid()
    ensures var rows := CartRowsFromDetails(DetailsOf(db.orderDetails, orderId), userId, now);
      && db.cart == InsertCartRows(old(db.cart), rows, old(db.nextCartId))
      && db.nextCartId == old(db.nextCartId) + |rows|
  {
    var orderDetailList := DetailsOf(db.orderDetails, orderId);
    var shoppingCartList: seq<CartRow> := [];
    for k := 0 to |orderDetailList|
      invariant |shoppingCartList| == k
      invariant forall i :: 0 <= i < k ==> shoppingCartList[i] == CartRowOf(orderDetailList[i], userId, now)
    {
      shoppingCartList := shoppingCartList + [CartRowOf(orderDetailList[k], userId, now)];
    }
    assert shoppingCartList == CartRowsFromDetails(orderDetailList, userId, now);
    var first := db.nextCartId;
    db.cart := InsertCartRows(db.cart, shoppingCartList, first);
    db.nextCartId := first + |shoppingCartList|;

    forall i | 0 <= i < |shoppingCartList| ensures shoppingCartList[i].number >= 1 {
      assert orderDetailList[i] in db.orderDetails;
    }
    InsertCartRowsValid(old(db.cart), shoppingCartList, first);
  }

  /** Re-ordering grows the caller's cart by one row per line item of the
      order and leaves the rows already there, and every other customer's
      cart, as they were. */
  lemma {:induction false} RepetitionAddsToCallersCart(cart: seq<CartRow>, ds: seq<OrderDetail>, userId: int, now: int, first: int, other: int)
    requires other != userId
    ensures var after := InsertCartRows(cart, CartRowsFromDetails(ds, userId, now), first);
      && CartList(after, UserProbe(userId)) == CartList(cart, UserProbe(userId)) + InsertCartRows([], CartRowsFromDetails(ds, userId, now), first)
      && CartList(after, UserProbe(other)) == CartList(cart, UserProbe(other))
  {
    var rows := CartRowsFromDetails(ds, userId, now);
    var added := InsertCartRows([], rows, first);
    assert InsertCartRows(cart, rows, first) == cart + added;
    AddedRowsOwned(ds, userId, now, first);
    FilterConcat(cart, added, (r: CartRow) => Matches(UserProbe(userId), r));
    FilterConcat(cart, added, (r: CartRow) => Matches(UserProbe(other), r));
    FilterAll(added, (r: CartRow) => Matches(UserProbe(userId), r));
    FilterNone(added, (r: CartRow) => Matches(UserProbe(other), r));
  }

  /** Every row a re-order inserts belongs to the caller. */
  lemma AddedRowsOwned(ds: seq<OrderDetail>, userId: int, now: int, first: int)
    ensures forall r :: r in InsertCartRows([], CartRowsFromDetails(ds, userId, now), first) ==> r.userId == userId
  {
    var rows := CartRowsFromDetails(ds, userId, now);
    var added := InsertCartRows([], rows, first);
    forall r | r in added ensures r.userId == userId {
      var i :| 0 <= i < |added| && added[i] == r;
      assert added[0 + i] == rows[i].(id := first + i);
    }
  }

  // ---------------------------------------------------------------------------
  // confirmOrder

  /** The merchant accepts an order: its status becomes confirmed, whatever it was. */
  method ConfirmOrder(db: Database, id: int)
    requires db.OrdersValid()
    modifies db`orders
    ensures db.OrdersValid()
    ensures db.orders == UpdateOrder(old(db.orders), OrderPatch(id, Some(CONFIRMED), None, None, None, None))
  {
    db.orders := UpdateOrder(db.orders, OrderPatch(id, Some(CONFIRMED), None, None, None, None));
  }

  // ---------------------------------------------------------------------------
  // statistics

  lemma {:induction false} CountsBounded(orders: seq<Order>, a: int, b: int, c: int)
    requires a != b && b != c && a != c
    ensures CountStatus(orders, a) + CountStatus(orders, b) + CountStatus(orders, c) <= |orders|
  {
    if orders != [] {
      CountsBounded(orders[1..], a, b, c);
    }
  }

  /** The three dashboard counts: each is the number of orders in that
      status, and together they never exceed the number of orders. */
  function Statistics(orders: seq<Order>): (r: OrderStatisticsVO)
    ensures r.toBeConfirmed == |Filter(orders, (o: Order) => o.status == TO_BE_CONFIRMED)|
    ensures r.confirmed == |Filter(orders, (o: Order) => o.status == CONFIRMED)|
    ensures r.deliveryInProgress == |Filter(orders, (o: Order) => o.status == DELIVERY_IN_PROGRESS)|
    ensures r.toBeConfirmed + r.confirmed + r.deliveryInProgress <= |orders|
  {
    CountsBounded(orders, TO_BE_CONFIRMED, CONFIRMED, DELIVERY_IN_PROGRESS);
    OrderStatisticsVO(CountStatus(orders, TO_BE_CONFIRMED), CountStatus(orders, CONFIRMED),
                      CountStatus(orders, DELIVERY_IN_PROGRESS))
  }

  /** Placing an order adds to no dashboard count: it starts awaiting payment. */
  lemma SubmitLeavesStatisticsAlone(orders: seq<Order>, o: Order)
    requires o.status == PENDING_PAYMENT
    ensures Statistics(orders + [o]) == Statistics(orders)
  {
    FilterSnoc(orders, o, (x: Order) => x.status == TO_BE_CONFIRMED);
    FilterSnoc(orders, o, (x: Order) => x.status == CONFIRMED);
    FilterSnoc(orders, o, (x: Order) => x.status == DELIVERY_IN_PROGRESS);
  }

  // ---------------------------------------------------------------------------
  // getOrderDishesStr

  /** One entry of the summary: name, `*`, the number of portions, `;`. */
  function DishEntry(d: OrderDetail): (r: string)
    ensures |r| > |d.name| + 2
    ensures r[..|d.name|] == d.name && r[|d.name|] == '*' && r[|r| - 1] == ';'
    ensures IsIntText(r[|d.name| + 1..|r| - 1]) && ParseInt(r[|d.name| + 1..|r| - 1]) == d.number
  {
    var t := IntToString(d.number);
    IntToStringRoundTrip(d.number);
    var r := d.name + "*" + t + ";";
    assert r[|d.name| + 1..|r| - 1] == t;
    r
  }

  /** The entries of the line items one after another: empty exactly when
      there are none, and then ending in `;`. */
  function JoinEntries(ds: seq<OrderDetail>): (r: string)
    ensures r == "" <==> ds == []
    ensures ds != [] ==> r[|r| - 1] == ';'
  {
    if ds == [] then "" else DishEntry(ds[0]) + JoinEntries(ds[1..])
  }

  /** The dish summary of an order, from its line items in table order. When
      no name holds a `*` or `;` it reads back as those items' names and
      portions. */
  function OrderDishesStr(details: seq<OrderDetail>, orderId: int): (r: string)
    ensures r == "" <==> DetailsOf(details, orderId) == []
    ensures (forall d :: d in DetailsOf(details, orderId) ==> PlainName(d.name))
            ==> ParseEntries(r) == Some(Counts(DetailsOf(details, orderId)))
  {
    var ds := DetailsOf(details, orderId);
    if forall i :: 0 <= i < |ds| ==> PlainName(ds[i].name) then
      DishesStrRoundTrip(ds);
      JoinEntries(ds)
    else
      assert exists i :: 0 <= i < |ds| && !PlainName(ds[i].name);
      JoinEntries(ds)
  }

  /** A (name, portions) pair read back from a summary. */
  datatype DishCount = DishCount(name: string, number: int)

  function Counts(ds: seq<OrderDetail>): (r: seq<DishCount>)
    ensures |r| == |ds|
    ensures forall i :: 0 <= i < |ds| ==> r[i] == DishCount(ds[i].name, ds[i].number)
  {
    if ds == [] then [] else [DishCount(ds[0].name, ds[0].number)] + Counts(ds[1..])
  }

  /** Reads a summary back: up to the first `*` is a name, up to the next `;`
      a number of portions. */
  function ParseEntries(s: string): Option<seq<DishCount>>
    decreases |s|
  {
    if s == [] then Some([])
    else match IndexOf(s, '*')
      case None => None
      case Some(p) =>
        var rest := s[p + 1..];
        match IndexOf(rest, ';')
        case None => None
        case Some(q) =>
          var text := rest[..q];
          if !IsIntText(text) then None
          else match ParseEntries(rest[q + 1..])
            case None => None
            case Some(tail) => Some([DishCount(s[..p], ParseInt(text))] + tail)
  }

  predicate PlainName(name: string) {
    '*' !in name && ';' !in name
  }

  /** When no dish name holds a `*` or `;`, the summary determines every
      line item's name and number of portions, in order. */
  lemma {:induction false} DishesStrRoundTrip(ds: seq<OrderDetail>)
    requires forall i :: 0 <= i < |ds| ==> PlainName(ds[i].name)
    ensures ParseEntries(JoinEntries(ds)) == Some(Counts(ds))
  {
    if ds != [] {
      ParseOneEntry(ds[0], JoinEntries(ds[1..]));
      DishesStrRoundTrip(ds[1..]);
      assert Counts(ds) == [DishCount(ds[0].name, ds[0].number)] + Counts(ds[1..]);
    }
  }

  /** Reading an entry with a plain name gives its pair, and reading goes on
      with what follows the entry. */
  lemma ParseOneEntry(d: OrderDetail, tail: string)
    requires PlainName(d.name)
    ensures ParseEntries(DishEntry(d) + tail) ==
      match ParseEntries(tail)
      case None => None
      case Some(c) => Some([DishCount(d.name, d.number)] + c)
  {
    var t := IntToString(d.number);
    assert DishEntry(d) + tail == d.name + ['*'] + (t + [';'] + tail);
    ParsePlainEntry(d.name, t, tail);
    IntToStringRoundTrip(d.number);
  }

  /** The parse of `name*text;tail` for a name without `*` and a text
      without `;`. */
  lemma ParsePlainEntry(name: string, t: string, tail: string)
    requires '*' !in name && ';' !in t && IsIntText(t)
    ensures ParseEntries(name + ['*'] + (t + [';'] + tail)) ==
      match ParseEntries(tail)
      case None => None
      case Some(c) => Some([DishCount(name, ParseInt(t))] + c)
  {
    var s := name + ['*'] + (t + [';'] + tail);
    IndexOfAfter(name, '*', t + [';'] + tail);
    var rest := s[|name| + 1..];
    assert rest == t + [';'] + tail;
    IndexOfAfter(t, ';', tail);
    assert rest[..|t|] == t;
    assert rest[|t| + 1..] == tail;
    assert s[..|name|] == name;
  }

  /** The summary of a concatenation is the concatenation of the summaries. */
  lemma {:induction false} JoinEntriesConcat(a: seq<OrderDetail>, b: seq<OrderDetail>)
    ensures JoinEntries(a + b) == JoinEntries(a) + JoinEntries(b)
  {
    if a == [] {
      assert a + b == b;
    } else {
      assert (a + b)[1..] == a[1..] + b;
      JoinEntriesConcat(a[1..], b);
    }
  }
}
