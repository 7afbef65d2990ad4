/** The merchant's reports over a range of calendar days: the list of days
    from the first to the last, the per-day counts of new and of all users,
    the per-day counts of all and of completed orders with their totals, and
    the two comma-joined columns of the ten best sellers. Days are epoch-day
    numbers; a day spans the nanoseconds from its first to its last instant. */
module ReportService {
  import opened Common
  import opened Entities
  import opened Store

  // The range a calendar date can take.
  const MIN_EPOCH_DAY: int := -365_243_219_162
  const MAX_EPOCH_DAY: int := 365_241_780_471

  type Day = d: int | MIN_EPOCH_DAY <= d <= MAX_EPOCH_DAY

  /** The first and the last instant of a day. */
  function DayStart(d: int): int { d * NANOS_PER_DAY }
  function DayEnd(d: int): int { d * NANOS_PER_DAY + NANOS_PER_DAY - 1 }

  /** The days from `begin` to `end`, both included. */
  predicate IsDayRange(days: seq<int>, begin: int, end: int) {
    |days| == end - begin + 1 && forall i :: 0 <= i < |days| ==> days[i] == begin + i
  }

  // ---------------------------------------------------------------------------
  // The date list.

  /** Starts from `begin` and steps one day at a time until `end` is
      reached. When `end` comes before `begin` the walk passes the last
      representable date, and the step fails. */
  method DateList(begin: Day, end: Day) returns (r: Result<seq<int>>)
    ensures r.Ok? <==> begin <= end
    ensures r.Ok? ==> IsDayRange(r.value, begin, end)
    ensures r.Err? ==> r.error == DateOutOfRange
  {
    var days := [begin as int];
    var cur: int := begin;
    while cur != end
      invariant begin <= cur <= MAX_EPOCH_DAY
      invariant begin <= end ==> cur <= end
      invariant IsDayRange(days, begin, cur)
      decreases if cur <= end then end - cur else MAX_EPOCH_DAY - cur
    {
      if cur == MAX_EPOCH_DAY {
        return Err(DateOutOfRange);
      }
      cur := cur + 1;
      days := days + [cur];
    }
    r := Ok(days);
  }

  // ---------------------------------------------------------------------------
  // User statistics.

  /** Users created strictly before `endTime`. */
  function TotalUsers(users: seq<User>, endTime: int): nat {
    |Filter(users, (u: User) => u.createTime < endTime)|
  }

  /** Users created strictly between `beginTime` and `endTime`. */
  function NewUsers(users: seq<User>, beginTime: int, endTime: int): nat {
    |Filter(users, (u: User) => beginTime < u.createTime < endTime)|
  }

  datatype UserReportVO = UserReportVO(dateList: seq<int>, newUserList: seq<nat>, totalUserList: seq<nat>)

  /** For every day of the range: how many users joined within it, and how
      many had joined by its end. */
  method GetUserStatistics(db: Database, begin: Day, end: Day) returns (r: Result<UserReportVO>)
    ensures r.Ok? <==> begin <= end
    ensures r.Ok? ==>
      && IsDayRange(r.value.dateList, begin, end)
      && |r.value.newUserList| == |r.value.totalUserList| == |r.value.dateList|
      && (forall i :: 0 <= i < |r.value.dateList| ==>
            && r.value.newUserList[i] == NewUsers(db.users, DayStart(begin + i), DayEnd(begin + i))
            && r.value.totalUserList[i] == TotalUsers(db.users, DayEnd(begin + i)))
  {
    var dates := DateList(begin, end);
    if dates.Err? {
      return Err(dates.error);
    }
    var dataList := dates.value;
    var newUserList: seq<nat> := [];
    var totalUserList: seq<nat> := [];
    for k := 0 to |dataList|
      invariant |newUserList| == |totalUserList| == k
      invariant forall i :: 0 <= i < k ==>
        && newUserList[i] == NewUsers(db.users, DayStart(begin + i), DayEnd(begin + i))
        && totalUserList[i] == TotalUsers(db.users, DayEnd(begin + i))
    {
      var date := dataList[k];
      var totalUser := TotalUsers(db.users, DayEnd(date));
      var newUser := NewUsers(db.users, DayStart(date), DayEnd(date));
      newUserList := newUserList + [newUser];
      totalUserList := totalUserList + [totalUser];
    }
    r := Ok(UserReportVO(dataList, newUserList, totalUserList));
  }

  /** A selection with a weaker condition selects at least as many rows. */
  lemma {:induction false} FilterWeaker<T(!new)>(s: seq<T>, p: T -> bool, q: T -> bool)
    requires forall x :: x in s && p(x) ==> q(x)
    ensures |Filter(s, p)| <= |Filter(s, q)|
  {
    if s != [] {
      assert forall x :: x in s[1..] ==> x in s;
      FilterWeaker(s[1..], p, q);
    }
  }

  /** The users new on a day are among the users counted by its end. */
  lemma NewUsersWithinTotal(users: seq<User>, d: int)
    ensures NewUsers(users, DayStart(d), DayEnd(d)) <= TotalUsers(users, DayEnd(d))
  {
    FilterWeaker(users, (u: User) => DayStart(d) < u.createTime < DayEnd(d), (u: User) => u.createTime < DayEnd(d));
  }

  /** The running total never decreases from one day to a later one. */
  lemma TotalUsersGrows(users: seq<User>, d: int, e: int)
    requires d <= e
    ensures TotalUsers(users, DayEnd(d)) <= TotalUsers(users, DayEnd(e))
  {
    assert DayEnd(d) <= DayEnd(e);
    FilterWeaker(users, (u: User) => u.createTime < DayEnd(d), (u: User) => u.createTime < DayEnd(e));
  }

  // ---------------------------------------------------------------------------
  // Order statistics.

  /** Orders placed strictly between the two instants, in the status when one is given. */
  function CountOrders(orders: seq<Order>, beginTime: int, endTime: int, status: Option<int>): nat {
    |Filter(orders, (o: Order) => beginTime < o.orderTime < endTime && (status.Some? ==> o.status == status.value))|
  }

  /** The orders placed on day `d`. */
  function DayOrderCount(orders: seq<Order>, d: int): nat {
    CountOrders(orders, DayStart(d), DayEnd(d), None)
  }

  /** The completed orders placed on day `d`. */
  function DayValidCount(orders: seq<Order>, d: int): nat {
    CountOrders(orders, DayStart(d), DayEnd(d), Some(COMPLETED))
  }

  /** The order counts of the `n` days from `begin`. */
  function DayOrderCounts(orders: seq<Order>, begin: int, n: nat): (r: seq<nat>)
    ensures |r| == n && forall i :: 0 <= i < n ==> r[i] == DayOrderCount(orders, begin + i)
  {
    if n == 0 then [] else DayOrderCounts(orders, begin, n - 1) + [DayOrderCount(orders, begin + n - 1)]
  }

  /** The completed-order counts of the `n` days from `begin`. */
  function DayValidCounts(orders: seq<Order>, begin: int, n: nat): (r: seq<nat>)
    ensures |r| == n && forall i :: 0 <= i < n ==> r[i] == DayValidCount(orders, begin + i)
  {
    if n == 0 then [] else DayValidCounts(orders, begin, n - 1) + [DayValidCount(orders, begin + n - 1)]
  }

  function Sum(s: seq<nat>): nat {
    if s == [] then 0 else Sum(s[..|s| - 1]) + s[|s| - 1]
  }

  lemma SumSnoc(s: seq<nat>, x: nat)
    ensures Sum(s + [x]) == Sum(s) + x
  {
    assert (s + [x])[..|s|] == s;
  }

  datatype OrderReportVO = OrderReportVO(
    dateList: seq<int>,
    orderCountList: seq<nat>,
    validOrderCountList: seq<nat>,
    totalOrderCount: nat,
    validOrderCount: nat)

  /** For every day of the range: how many orders were placed in it and how
      many of those are completed, with the totals over the range. */
  method GetOrdersStatistics(db: Database, begin: Day, end: Day) returns (r: Result<OrderReportVO>)
    ensures r.Ok? <==> begin <= end
    ensures r.Ok? ==>
      && IsDayRange(r.value.dateList, begin, end)
      && |r.value.orderCountList| == |r.value.validOrderCountList| == |r.value.dateList|
      && (forall i :: 0 <= i < |r.value.dateList| ==>
            && r.value.orderCountList[i] == DayOrderCount(db.orders, begin + i)
            && r.value.validOrderCountList[i] == DayValidCount(db.orders, begin + i))
      && r.value.totalOrderCount == Sum(r.value.orderCountList)
      && r.value.validOrderCount == Sum(r.value.validOrderCountList)
      && r.value.validOrderCount <= r.value.totalOrderCount
  {
    var dates := DateList(begin, end);
    if dates.Err? {
      return Err(dates.error);
    }
    var dataList := dates.value;
    var totalOrders: nat := 0;
    var validOrders: nat := 0;
    var orderCountList: seq<nat> := [];
    var validOrderCountList: seq<nat> := [];
    for k := 0 to |dataList|
      invariant orderCountList == DayOrderCounts(db.orders, begin, k)
      invariant validOrderCountList == DayValidCounts(db.orders, begin, k)
      invariant totalOrders == Sum(orderCountList) && validOrders == Sum(validOrderCountList)
      invariant validOrders <= totalOrders
    {
      var date := dataList[k];
      var todayTotalOrder := DayOrderCount(db.orders, date);
      var todayValidOrder := DayValidCount(db.orders, date);
      totalOrders := totalOrders + todayTotalOrder;
      validOrders := validOrders + todayValidOrder;
      assert date == begin + k;
      ValidWithinDay(db.orders, DayStart(date), DayEnd(date));
      SumSnoc(orderCountList, todayTotalOrder);
      SumSnoc(validOrderCountList, todayValidOrder);
      assert DayOrderCounts(db.orders, begin, k + 1) == orderCountList + [todayTotalOrder];
      assert DayValidCounts(db.orders, begin, k + 1) == validOrderCountList + [todayValidOrder];
      orderCountList := orderCountList + [todayTotalOrder];
      validOrderCountList := validOrderCountList + [todayValidOrder];
    }
    r := Ok(OrderReportVO(dataList, orderCountList, validOrderCountList, totalOrders, validOrders));
  }

  /** Completed orders of a day are among the day's orders. */
  lemma ValidWithinDay(orders: seq<Order>, beginTime: int, endTime: int)
    ensures CountOrders(orders, beginTime, endTime, Some(COMPLETED)) <= CountOrders(orders, beginTime, endTime, None)
  {
    var completed: Option<int> := Some(COMPLETED);
    var any: Option<int> := None;
    FilterWeaker(orders, (o: Order) => beginTime < o.orderTime < endTime && (completed.Some? ==> o.status == completed.value),
                 (o: Order) => beginTime < o.orderTime < endTime && (any.Some? ==> o.status == any.value));
  }

  lemma {:induction false} SumPointwise(a: seq<nat>, b: seq<nat>)
    requires |a| == |b| && forall i :: 0 <= i < |a| ==> a[i] <= b[i]
    ensures Sum(a) <= Sum(b)
  {
    if a != [] {
      SumPointwise(a[..|a| - 1], b[..|b| - 1]);
    }
  }

  /** Over the whole range, completed orders never outnumber all orders. */
  lemma ValidWithinTotal(orders: seq<Order>, begin: int, end: int, counts: seq<nat>, valid: seq<nat>)
    requires |counts| == |valid|
    requires forall i :: 0 <= i < |counts| ==>
      && counts[i] == DayOrderCount(orders, begin + i)
      && valid[i] == DayValidCount(orders, begin + i)
    ensures Sum(valid) <= Sum(counts)
  {
    forall i | 0 <= i < |counts| ensures valid[i] <= counts[i] {
      ValidWithinDay(orders, DayStart(begin + i), DayEnd(begin + i));
    }
    SumPointwise(valid, counts);
  }

  // ---------------------------------------------------------------------------
  // Top ten.

  /** One row of the best-seller query: a dish or set-meal name and the number sold. */
  datatype GoodsSalesDTO = GoodsSalesDTO(name: string, number: int)

  datatype SalesTop10ReportVO = SalesTop10ReportVO(nameList: string, numberList: string)

  /** The strings joined with `,` between neighbours. */
  function Join(xs: seq<string>): string {
    if |xs| == 0 then "" else if |xs| == 1 then xs[0] else xs[0] + "," + Join(xs[1..])
  }

  /** The pieces of a string between its commas. */
  function Split(s: string): (r: seq<string>)
    ensures |r| > 0
    decreases |s|
  {
    match IndexOf(s, ',')
    case None => [s]
    case Some(i) => [s[..i]] + Split(s[i + 1..])
  }

  /** Splitting a join of comma-free strings gives the strings back. */
  lemma {:induction false} SplitJoin(xs: seq<string>)
    requires |xs| > 0
    requires forall i :: 0 <= i < |xs| ==> ',' !in xs[i]
    ensures Split(Join(xs)) == xs
  {
    if |xs| == 1 {
      assert Join(xs) == xs[0];
    } else {
      var rest := Join(xs[1..]);
      var s := xs[0] + [','] + rest;
      assert Join(xs) == s;
      IndexOfAfter(xs[0], ',', rest);
      assert s[..|xs[0]|] == xs[0];
      assert s[|xs[0]| + 1..] == rest;
      assert Split(s) == [xs[0]] + Split(rest);
      assert forall i :: 0 <= i < |xs[1..]| ==> xs[1..][i] == xs[i + 1];
      SplitJoin(xs[1..]);
      assert xs == [xs[0]] + xs[1..];
    }
  }

  function Names(goods: seq<GoodsSalesDTO>): (r: seq<string>)
    ensures |r| == |goods| && forall i :: 0 <= i < |goods| ==> r[i] == goods[i].name
  {
    seq(|goods|, i requires 0 <= i < |goods| => goods[i].name)
  }

  function Numbers(goods: seq<GoodsSalesDTO>): (r: seq<string>)
    ensures |r| == |goods| && forall i :: 0 <= i < |goods| ==> r[i] == IntToString(goods[i].number)
  {
    seq(|goods|, i requires 0 <= i < |goods| => IntToString(goods[i].number))
  }

  /** The two columns of the best-seller list: its names and its numbers,
      each joined with commas. The ranked list itself is the query's answer.
      An empty ranking gives two empty columns, and any other ranking a
      non-empty number column. */
  function GetTop10Statistics(goods: seq<GoodsSalesDTO>): (r: SalesTop10ReportVO)
    ensures r.numberList == "" <==> goods == []
    ensures goods == [] ==> r.nameList == ""
  {
    if goods != [] then
      IntToStringChars(goods[0].number);
      var numbers := Numbers(goods);
      assert |Join(numbers)| >= |numbers[0]|;
      SalesTop10ReportVO(Join(Names(goods)), Join(numbers))
    else
      SalesTop10ReportVO(Join(Names(goods)), Join(Numbers(goods)))
  }

  /** The i-th name and the i-th number of the two columns belong to the same
      row, as long as no name contains a comma. */
  lemma Top10ColumnsCorrespond(goods: seq<GoodsSalesDTO>)
    requires |goods| > 0
    requires forall i :: 0 <= i < |goods| ==> ',' !in goods[i].name
    ensures var vo := GetTop10Statistics(goods);
      && |Split(vo.nameList)| == |Split(vo.numberList)| == |goods|
      && forall i :: 0 <= i < |goods| ==>
           && Split(vo.nameList)[i] == goods[i].name
           && IsIntText(Split(vo.numberList)[i])
           && ParseInt(Split(vo.numberList)[i]) == goods[i].number
  {
    var numbers := Numbers(goods);
    forall i | 0 <= i < |goods| ensures ',' !in numbers[i] && IsIntText(numbers[i]) {
      IntToStringIsIntText(goods[i].number);
    }
    SplitJoin(Names(goods));
    SplitJoin(numbers);
    forall i | 0 <= i < |goods| ensures ParseInt(numbers[i]) == goods[i].number {
      IntToStringRoundTrip(goods[i].number);
    }
  }
}
