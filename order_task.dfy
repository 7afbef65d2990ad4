/** The two scheduled sweeps over the orders table: cancelling orders left
    unpaid for more than fifteen minutes, and completing orders that have
    been out for delivery for more than an hour. */
module OrderTask {
  import opened Common
  import opened Entities
  import opened Store

  const PAY_TIMEOUT: int := 15 * NANOS_PER_MINUTE
  const DELIVERY_TIMEOUT: int := 60 * NANOS_PER_MINUTE
  const TIMEOUT_REASON: string := "订单超时, 自动取消"

  /** An order the sweep for `status` picks up: in that status and placed
      strictly before the cut-off. */
  predicate Overdue(o: Order, status: int, cutoff: int) {
    o.status == status && o.orderTime < cutoff
  }

  function TimeoutCancelled(o: Order, now: int): Order {
    o.(status := CANCELLED, cancelTime := Some(now), cancelReason := Some(TIMEOUT_REASON))
  }

  /** The table after the payment-timeout sweep at `now`. */
  function TimeoutSwept(orders: seq<Order>, now: int): (r: seq<Order>)
    ensures |r| == |orders|
    ensures forall i :: 0 <= i < |orders| ==>
      r[i] == if Overdue(orders[i], PENDING_PAYMENT, now - PAY_TIMEOUT) then TimeoutCancelled(orders[i], now) else orders[i]
  {
    if orders == [] then []
    else [if Overdue(orders[0], PENDING_PAYMENT, now - PAY_TIMEOUT) then TimeoutCancelled(orders[0], now) else orders[0]]
         + TimeoutSwept(orders[1..], now)
  }

  /** The table after the delivery sweep at `now`. */
  function DeliverySwept(orders: seq<Order>, now: int): (r: seq<Order>)
    ensures |r| == |orders|
    ensures forall i :: 0 <= i < |orders| ==>
      r[i] == if Overdue(orders[i], DELIVERY_IN_PROGRESS, now - DELIVERY_TIMEOUT) then orders[i].(status := COMPLETED) else orders[i]
  {
    if orders == [] then []
    else [if Overdue(orders[0], DELIVERY_IN_PROGRESS, now - DELIVERY_TIMEOUT) then orders[0].(status := COMPLETED) else orders[0]]
         + DeliverySwept(orders[1..], now)
  }

  /** Whether one of the first `k` candidates has key `id`. */
  predicate Touched(list: seq<Order>, k: int, id: int) {
    exists j :: 0 <= j < k && j < |list| && list[j].id == id
  }

  lemma TouchedStep(list: seq<Order>, k: int)
    requires 0 <= k < |list|
    ensures forall id :: Touched(list, k + 1, id) <==> Touched(list, k, id) || list[k].id == id
  {
  }

  /** The write of the payment sweep for one candidate. */
  function TimeoutPatch(id: int, now: int): OrderPatch {
    OrderPatch(id, Some(CANCELLED), None, None, Some(Some(TIMEOUT_REASON)), Some(Some(now)))
  }

  /** The write of the delivery sweep for one candidate. */
  function CompletePatch(id: int): OrderPatch {
    OrderPatch(id, Some(COMPLETED), None, None, None, None)
  }

  /** The table after the first `k` candidates of the payment sweep were written. */
  predicate TimeoutPartial(before: seq<Order>, cur: seq<Order>, list: seq<Order>, k: int, now: int) {
    && |cur| == |before|
    && forall i :: 0 <= i < |cur| ==>
         cur[i] == if Touched(list, k, before[i].id) then TimeoutCancelled(before[i], now) else before[i]
  }

  predicate DeliveryPartial(before: seq<Order>, cur: seq<Order>, list: seq<Order>, k: int) {
    && |cur| == |before|
    && forall i :: 0 <= i < |cur| ==>
         cur[i] == if Touched(list, k, before[i].id) then before[i].(status := COMPLETED) else before[i]
  }

  lemma TimeoutStep(before: seq<Order>, cur: seq<Order>, list: seq<Order>, k: int, now: int)
    requires 0 <= k < |list| && TimeoutPartial(before, cur, list, k, now)
    ensures TimeoutPartial(before, UpdateOrder(cur, TimeoutPatch(list[k].id, now)), list, k + 1, now)
  {
    TouchedStep(list, k);
  }

  lemma DeliveryStep(before: seq<Order>, cur: seq<Order>, list: seq<Order>, k: int)
    requires 0 <= k < |list| && DeliveryPartial(before, cur, list, k)
    ensures DeliveryPartial(before, UpdateOrder(cur, CompletePatch(list[k].id)), list, k + 1)
  {
    TouchedStep(list, k);
  }

  /** A candidate of the select has the key of exactly the rows it was read from. */
  lemma CandidateKeys(orders: seq<Order>, status: int, cutoff: int, i: int)
    requires OrderIdsUnique(orders) && 0 <= i < |orders|
    ensures var list := OrdersByStatusBefore(orders, status, cutoff);
      Touched(list, |list|, orders[i].id) <==> Overdue(orders[i], status, cutoff)
  {
    var list := OrdersByStatusBefore(orders, status, cutoff);
    if Overdue(orders[i], status, cutoff) {
      assert orders[i] in orders;
      assert orders[i] in list;
    } else if j :| 0 <= j < |list| && list[j].id == orders[i].id {
      assert list[j] in list;
      assert orders[i] in orders;
      SameOrderId(orders, list[j], orders[i]);
    }
  }

  lemma TimeoutComplete(before: seq<Order>, cur: seq<Order>, list: seq<Order>, now: int)
    requires OrderIdsUnique(before)
    requires list == OrdersByStatusBefore(before, PENDING_PAYMENT, now - PAY_TIMEOUT)
    requires TimeoutPartial(before, cur, list, |list|, now) || (list == [] && cur == before)
    ensures cur == TimeoutSwept(before, now)
  {
    forall i | 0 <= i < |cur| ensures cur[i] == TimeoutSwept(before, now)[i] {
      CandidateKeys(before, PENDING_PAYMENT, now - PAY_TIMEOUT, i);
    }
  }

  lemma DeliveryComplete(before: seq<Order>, cur: seq<Order>, list: seq<Order>, now: int)
    requires OrderIdsUnique(before)
    requires list == OrdersByStatusBefore(before, DELIVERY_IN_PROGRESS, now - DELIVERY_TIMEOUT)
    requires DeliveryPartial(before, cur, list, |list|) || (list == [] && cur == before)
    ensures cur == DeliverySwept(before, now)
  {
    forall i | 0 <= i < |cur| ensures cur[i] == DeliverySwept(before, now)[i] {
      CandidateKeys(before, DELIVERY_IN_PROGRESS, now - DELIVERY_TIMEOUT, i);
    }
  }

  /** Every minute: each order awaiting payment that was placed more than
      fifteen minutes before `now` is cancelled with the timeout reason. */
  method ProcessTimeoutOrder(db: Database, now: int)
    requires db.OrdersValid()
    modifies db`orders
    ensures db.OrdersValid()
    ensures db.orders == TimeoutSwept(old(db.orders), now)
  {
    var time := now - PAY_TIMEOUT;
    var ordersList := OrdersByStatusBefore(db.orders, PENDING_PAYMENT, time);
    if |ordersList| > 0 {
      for k := 0 to |ordersList|
        invariant TimeoutPartial(old(db.orders), db.orders, ordersList, k, now)
        invariant db.OrdersValid()
      {
        var orders := ordersList[k];
        UpdateOrderValid(db.orders, db.orderDetails, db.nextOrderId, TimeoutPatch(orders.id, now));
        TimeoutStep(old(db.orders), db.orders, ordersList, k, now);
        db.orders := UpdateOrder(db.orders, TimeoutPatch(orders.id, now));
      }
    }
    TimeoutComplete(old(db.orders), db.orders, ordersList, now);
  }

  /** Every day at one o'clock: each order out for delivery that was placed
      more than an hour before `now` is completed. */
  method ProcessDeliveryOrder(db: Database, now: int)
    requires db.OrdersValid()
    modifies db`orders
    ensures db.OrdersValid()
    ensures db.orders == DeliverySwept(old(db.orders), now)
  {
    var time := now - DELIVERY_TIMEOUT;
    var ordersList := OrdersByStatusBefore(db.orders, DELIVERY_IN_PROGRESS, time);
    if |ordersList| > 0 {
      for k := 0 to |ordersList|
        invariant DeliveryPartial(old(db.orders), db.orders, ordersList, k)
        invariant db.OrdersValid()
      {
        var orders := ordersList[k];
        UpdateOrderValid(db.orders, db.orderDetails, db.nextOrderId, CompletePatch(orders.id));
        DeliveryStep(old(db.orders), db.orders, ordersList, k);
        db.orders := UpdateOrder(db.orders, CompletePatch(orders.id));
      }
    }
    DeliveryComplete(old(db.orders), db.orders, ordersList, now);
  }

  // ---------------------------------------------------------------------------
  // Properties of the sweeps.

  /** Sweeping twice at the same instant is sweeping once. */
  lemma TimeoutSweepIdempotent(orders: seq<Order>, now: int)
    ensures TimeoutSwept(TimeoutSwept(orders, now), now) == TimeoutSwept(orders, now)
  {
  }

  lemma DeliverySweepIdempotent(orders: seq<Order>, now: int)
    ensures DeliverySwept(DeliverySwept(orders, now), now) == DeliverySwept(orders, now)
  {
  }

  /** After the payment sweep no order awaiting payment is overdue, and an
      order placed exactly fifteen minutes before is still awaiting payment. */
  lemma TimeoutSweepClearsOverdue(orders: seq<Order>, now: int)
    ensures OrdersByStatusBefore(TimeoutSwept(orders, now), PENDING_PAYMENT, now - PAY_TIMEOUT) == []
    ensures forall i :: 0 <= i < |orders| && orders[i].orderTime >= now - PAY_TIMEOUT ==> TimeoutSwept(orders, now)[i] == orders[i]
  {
    var swept := TimeoutSwept(orders, now);
    forall x | x in swept ensures !(x.status == PENDING_PAYMENT && x.orderTime < now - PAY_TIMEOUT) {
      var i :| 0 <= i < |swept| && swept[i] == x;
    }
    FilterNone(swept, (o: Order) => o.status == PENDING_PAYMENT && o.orderTime < now - PAY_TIMEOUT);
  }

  lemma DeliverySweepClearsOverdue(orders: seq<Order>, now: int)
    ensures OrdersByStatusBefore(DeliverySwept(orders, now), DELIVERY_IN_PROGRESS, now - DELIVERY_TIMEOUT) == []
    ensures forall i :: 0 <= i < |orders| && orders[i].orderTime >= now - DELIVERY_TIMEOUT ==> DeliverySwept(orders, now)[i] == orders[i]
  {
    var swept := DeliverySwept(orders, now);
    forall x | x in swept ensures !(x.status == DELIVERY_IN_PROGRESS && x.orderTime < now - DELIVERY_TIMEOUT) {
      var i :| 0 <= i < |swept| && swept[i] == x;
    }
    FilterNone(swept, (o: Order) => o.status == DELIVERY_IN_PROGRESS && o.orderTime < now - DELIVERY_TIMEOUT);
  }

  /** A timed-out order is cancelled without touching its pay status, so on a
      consistent table it stays unpaid; nothing else about any order changes. */
  lemma TimeoutSweepKeepsPayment(orders: seq<Order>, now: int, i: int)
    requires 0 <= i < |orders| && OrderConsistent(orders[i])
    ensures var o := TimeoutSwept(orders, now)[i];
      && o.payStatus == orders[i].payStatus
      && (Overdue(orders[i], PENDING_PAYMENT, now - PAY_TIMEOUT) ==>
            o.status == CANCELLED && o.payStatus == UN_PAID && o.cancelReason == Some(TIMEOUT_REASON) && o.cancelTime == Some(now))
      && o.(status := orders[i].status, cancelReason := orders[i].cancelReason, cancelTime := orders[i].cancelTime) == orders[i]
  {
  }

  /** The cancelled count grows by exactly the number of overdue orders, and
      the count awaiting payment shrinks by as many. */
  lemma {:induction false} TimeoutSweepCounts(orders: seq<Order>, now: int)
    ensures CountStatus(TimeoutSwept(orders, now), CANCELLED)
         == CountStatus(orders, CANCELLED) + |OrdersByStatusBefore(orders, PENDING_PAYMENT, now - PAY_TIMEOUT)|
    ensures CountStatus(TimeoutSwept(orders, now), PENDING_PAYMENT)
         == CountStatus(orders, PENDING_PAYMENT) - |OrdersByStatusBefore(orders, PENDING_PAYMENT, now - PAY_TIMEOUT)|
  {
    if orders != [] {
      var swept := TimeoutSwept(orders, now);
      assert swept[1..] == TimeoutSwept(orders[1..], now);
      TimeoutSweepCounts(orders[1..], now);
    }
  }

  lemma {:induction false} DeliverySweepCounts(orders: seq<Order>, now: int)
    ensures CountStatus(DeliverySwept(orders, now), COMPLETED)
         == CountStatus(orders, COMPLETED) + |OrdersByStatusBefore(orders, DELIVERY_IN_PROGRESS, now - DELIVERY_TIMEOUT)|
    ensures CountStatus(DeliverySwept(orders, now), DELIVERY_IN_PROGRESS)
         == CountStatus(orders, DELIVERY_IN_PROGRESS) - |OrdersByStatusBefore(orders, DELIVERY_IN_PROGRESS, now - DELIVERY_TIMEOUT)|
  {
    if orders != [] {
      var swept := DeliverySwept(orders, now);
      assert swept[1..] == DeliverySwept(orders[1..], now);
      DeliverySweepCounts(orders[1..], now);
    }
  }

  /** With nothing overdue a sweep writes nothing. */
  lemma {:induction false} SweepWithoutCandidates(orders: seq<Order>, now: int)
    ensures OrdersByStatusBefore(orders, PENDING_PAYMENT, now - PAY_TIMEOUT) == [] ==> TimeoutSwept(orders, now) == orders
    ensures OrdersByStatusBefore(orders, DELIVERY_IN_PROGRESS, now - DELIVERY_TIMEOUT) == [] ==> DeliverySwept(orders, now) == orders
  {
    forall i | 0 <= i < |orders| ensures orders[i] in orders {
    }
  }
}
