/** The analytics rollups. Each report works on the analytics rows fetched
    for it, every row carrying its orders: the sales report sums totals and
    builds a per-day order histogram, the product report sums item counts
    and keeps the five best sellers, and the user report splits the rows by
    whether they have orders. */
module Analytics {
  import opened Common

  /** The `YYYY-MM-DD` part of an order's creation timestamp. */
  type DateKey = string

  /** An order as the rollups see it: its total, the day it was created and
      how many item rows it has. */
  datatype SaleOrder = SaleOrder(totalAmount: int, day: DateKey, itemCount: nat)

  /** A fetched analytics row with its orders. */
  datatype Row = Row(id: Id, orders: seq<SaleOrder>)

  /** One key of the `ordersByDate` object and its value. The object's keys
      are date strings, so they keep their first-insertion order. */
  datatype DateCount = DateCount(day: DateKey, count: int)

  datatype Sales = Sales(totalSales: nat, totalRevenue: int, ordersByDate: seq<DateCount>)

  datatype ProductStats = ProductStats(totalProducts: nat, totalProductsSold: int, topSellingProducts: seq<Row>)

  datatype UserStats = UserStats(totalUsers: nat, activeUsers: seq<Row>, inactiveUsers: seq<Row>, newUsers: seq<Row>)

  /** How many rows `topSellingProducts` keeps. */
  const TopCount: nat := 5

  // ---------------------------------------------------------------------
  // Sums

  /** `s.reduce((acc, x) => acc + f(x), 0)`, folding from the left. */
  function SumBy<T>(s: seq<T>, f: T -> int): int {
    if s == [] then 0 else SumBy(s[..|s| - 1], f) + f(s[|s| - 1])
  }

  lemma {:induction false} SumByConcat<T>(a: seq<T>, b: seq<T>, f: T -> int)
    ensures SumBy(a + b, f) == SumBy(a, f) + SumBy(b, f)
  {
    if b == [] {
      assert a + b == a;
    } else {
      var c := a + b;
      assert c[..|c| - 1] == a + b[..|b| - 1];
      SumByConcat(a, b[..|b| - 1], f);
    }
  }

  /** Replacing one element changes the sum by the difference. */
  lemma {:induction false} SumByUpdate<T>(s: seq<T>, i: nat, x: T, f: T -> int)
    requires i < |s|
    ensures SumBy(s[i := x], f) == SumBy(s, f) - f(s[i]) + f(x)
  {
    var t := s[i := x];
    if i == |s| - 1 {
      assert t[..|t| - 1] == s[..|s| - 1];
    } else {
      assert t[..|t| - 1] == s[..|s| - 1][i := x];
      SumByUpdate(s[..|s| - 1], i, x, f);
    }
  }

  /** Every order of every row, row by row. */
  function Flatten(rows: seq<Row>): seq<SaleOrder> {
    if rows == [] then [] else Flatten(rows[..|rows| - 1]) + rows[|rows| - 1].orders
  }

  /** The per-row inner `reduce` over a row's orders. */
  function RowSum(f: SaleOrder -> int): Row -> int {
    (r: Row) => SumBy(r.orders, f)
  }

  /** Summing per row and then over the rows is summing over all orders. */
  lemma {:induction false} SumOverFlatten(rows: seq<Row>, f: SaleOrder -> int)
    ensures SumBy(rows, RowSum(f)) == SumBy(Flatten(rows), f)
  {
    if rows != [] {
      var init := rows[..|rows| - 1];
      SumOverFlatten(init, f);
      SumByConcat(Flatten(init), rows[|rows| - 1].orders, f);
    }
  }

  function OrderTotal(o: SaleOrder): int { o.totalAmount }

  function ItemCount(o: SaleOrder): int { o.itemCount }

  /** `order.orderItems.length` summed over a row's orders: the sort key of
      `topSellingProducts`. */
  function RowSold(r: Row): int { SumBy(r.orders, ItemCount) }

  // ---------------------------------------------------------------------
  // The `ordersByDate` histogram

  function DayOf(c: DateCount): Id { c.day }

  /** `acc[date]`, with a missing key read as zero. */
  function CountOf(acc: seq<DateCount>, day: DateKey): int {
    match IndexOf(acc, DayOf, day)
    case None => 0
    case Some(i) => acc[i].count
  }

  /** `if (!acc[date]) acc[date] = 0; acc[date] += n`. */
  function Bump(acc: seq<DateCount>, day: DateKey, n: int): seq<DateCount> {
    match IndexOf(acc, DayOf, day)
    case None => acc + [DateCount(day, n)]
    case Some(i) => acc[i := DateCount(day, acc[i].count + n)]
  }

  function CountField(c: DateCount): int { c.count }

  /** The sum of the histogram's values. */
  function Total(acc: seq<DateCount>): int { SumBy(acc, CountField) }

  /** A bump keeps each key unique. */
  lemma BumpUnique(acc: seq<DateCount>, day: DateKey, n: int)
    requires UniqueKeys(acc, DayOf)
    ensures UniqueKeys(Bump(acc, day, n), DayOf)
  {
    match IndexOf(acc, DayOf, day)
    case None =>
      AppendKeepsUnique(acc, DayOf, DateCount(day, n));
    case Some(i) =>
      UpdateKeepsUnique(acc, DayOf, i, DateCount(day, acc[i].count + n));
  }

  /** A bump adds `n` to the value of `day` and leaves the other values. */
  lemma BumpCount(acc: seq<DateCount>, day: DateKey, n: int, e: DateKey)
    requires UniqueKeys(acc, DayOf)
    ensures CountOf(Bump(acc, day, n), e) == CountOf(acc, e) + (if e == day then n else 0)
  {
    var b := Bump(acc, day, n);
    BumpUnique(acc, day, n);
    var found := IndexOf(acc, DayOf, day);
    var other := IndexOf(acc, DayOf, e);
    if e == day {
      if found.None? {
        UniqueIndex(b, DayOf, day, |acc|);
      } else {
        UniqueIndex(b, DayOf, day, found.value);
      }
    } else if other.Some? {
      UniqueIndex(b, DayOf, e, other.value);
    } else {
      assert Absent(b, DayOf, e);
    }
  }

  /** The keys after a bump are the keys before it and `day`. */
  lemma BumpKeys(acc: seq<DateCount>, day: DateKey, n: int, e: DateKey)
    ensures !Absent(Bump(acc, day, n), DayOf, e) <==> !Absent(acc, DayOf, e) || e == day
  {
    var b := Bump(acc, day, n);
    match IndexOf(acc, DayOf, day)
    case None =>
      assert b[|acc|].day == day;
      assert forall k :: 0 <= k < |acc| ==> b[k] == acc[k];
    case Some(i) =>
      assert forall k :: 0 <= k < |acc| ==> b[k].day == acc[k].day;
  }

  /** A bump adds `n` to the sum of the values. */
  lemma BumpTotal(acc: seq<DateCount>, day: DateKey, n: int)
    ensures Total(Bump(acc, day, n)) == Total(acc) + n
  {
    match IndexOf(acc, DayOf, day)
    case None =>
      SumByConcat(acc, [DateCount(day, n)], CountField);
      assert [DateCount(day, n)][..0] == [];
    case Some(i) =>
      SumByUpdate(acc, i, DateCount(day, acc[i].count + n), CountField);
  }

  predicate AllHaveOrders(rows: seq<Row>) {
    forall k :: 0 <= k < |rows| ==> rows[k].orders != []
  }

  /** The day key a row contributes to: the day of its first order. */
  function FirstDay(r: Row): DateKey
    requires r.orders != []
  {
    r.orders[0].day
  }

  /** The histogram the `reduce` builds: each row adds its order count to
      the day of its first order. */
  function Histogram(rows: seq<Row>): seq<DateCount>
    requires AllHaveOrders(rows)
  {
    if rows == [] then []
    else
      var last := rows[|rows| - 1];
      Bump(Histogram(rows[..|rows| - 1]), FirstDay(last), |last.orders|)
  }

  function OnDay(day: DateKey): Row -> bool {
    (r: Row) => r.orders != [] && r.orders[0].day == day
  }

  function OrderCount(r: Row): int { |r.orders| }

  /** Each day appears once as a key. */
  lemma {:induction false} HistogramUnique(rows: seq<Row>)
    requires AllHaveOrders(rows)
    ensures UniqueKeys(Histogram(rows), DayOf)
  {
    if rows != [] {
      var init := rows[..|rows| - 1];
      var last := rows[|rows| - 1];
      HistogramUnique(init);
      BumpUnique(Histogram(init), FirstDay(last), |last.orders|);
    }
  }

  /** The values add up to the number of orders. */
  lemma {:induction false} HistogramTotal(rows: seq<Row>)
    requires AllHaveOrders(rows)
    ensures Total(Histogram(rows)) == |Flatten(rows)|
  {
    if rows != [] {
      var init := rows[..|rows| - 1];
      var last := rows[|rows| - 1];
      HistogramTotal(init);
      BumpTotal(Histogram(init), FirstDay(last), |last.orders|);
    }
  }

  /** The keys are exactly the days of the rows' first orders. */
  lemma {:induction false} HistogramKeys(rows: seq<Row>, day: DateKey)
    requires AllHaveOrders(rows)
    ensures !Absent(Histogram(rows), DayOf, day) <==> exists k :: 0 <= k < |rows| && FirstDay(rows[k]) == day
  {
    if rows != [] {
      var init := rows[..|rows| - 1];
      var last := rows[|rows| - 1];
      HistogramKeys(init, day);
      BumpKeys(Histogram(init), FirstDay(last), |last.orders|, day);
      if exists k :: 0 <= k < |rows| && FirstDay(rows[k]) == day {
        var k :| 0 <= k < |rows| && FirstDay(rows[k]) == day;
        if k < |init| {
          assert FirstDay(init[k]) == day;
        }
      }
      if exists k :: 0 <= k < |init| && FirstDay(init[k]) == day {
        var k :| 0 <= k < |init| && FirstDay(init[k]) == day;
        assert FirstDay(rows[k]) == day;
      }
    }
  }

  /** Summing a filter over a table adds the last row's value to the sum over
      the rows before it exactly when that row passes the filter. */
  lemma SumFilterSnoc<T>(s: seq<T>, p: T -> bool, f: T -> int)
    requires s != []
    ensures SumBy(Filter(s, p), f) ==
            SumBy(Filter(s[..|s| - 1], p), f) + (if p(s[|s| - 1]) then f(s[|s| - 1]) else 0)
  {
    var last := s[|s| - 1];
    FilterSnoc(s, p);
    var tail: seq<T> := if p(last) then [last] else [];
    SumByConcat(Filter(s[..|s| - 1], p), tail, f);
    if p(last) {
      assert tail[..0] == [];
    }
  }

  /** The value of a day is the number of orders in the rows whose first
      order falls on that day. */
  lemma {:induction false} HistogramCount(rows: seq<Row>, day: DateKey)
    requires AllHaveOrders(rows)
    ensures CountOf(Histogram(rows), day) == SumBy(Filter(rows, OnDay(day)), OrderCount)
  {
    if rows != [] {
      var init := rows[..|rows| - 1];
      var last := rows[|rows| - 1];
      HistogramCount(init, day);
      HistogramUnique(init);
      BumpCount(Histogram(init), FirstDay(last), |last.orders|, day);
      SumFilterSnoc(rows, OnDay(day), OrderCount);
    }
  }

  /** One more row adds its order count to the day of its first order. */
  lemma HistogramStep(rows: seq<Row>, i: nat)
    requires i < |rows| && AllHaveOrders(rows[..i]) && rows[i].orders != []
    ensures AllHaveOrders(rows[..i + 1])
    ensures Histogram(rows[..i + 1]) == Bump(Histogram(rows[..i]), rows[i].orders[0].day, |rows[i].orders|)
  {
    var next := rows[..i + 1];
    assert next[..i] == rows[..i];
    assert forall k :: 0 <= k < i ==> next[k] == rows[..i][k];
  }

  /** `acc[date] = (acc[date] || 0) + n` on the association list: the day's
      value grows by `n`, every other day keeps its value, the day is listed
      afterwards and no other day is added; with one entry per day before,
      there is one entry per day after. */
  method AddToDay(acc: seq<DateCount>, day: DateKey, n: int) returns (r: seq<DateCount>)
    ensures r == Bump(acc, day, n)
    ensures UniqueKeys(acc, DayOf) ==> UniqueKeys(r, DayOf)
    ensures UniqueKeys(acc, DayOf) ==>
      forall e :: CountOf(r, e) == CountOf(acc, e) + (if e == day then n else 0)
    ensures forall e :: !Absent(r, DayOf, e) <==> !Absent(acc, DayOf, e) || e == day
  {
    var j := IndexOf(acc, DayOf, day);
    if j.None? {
      r := acc + [DateCount(day, 0 + n)];
    } else {
      r := acc[j.value := DateCount(day, acc[j.value].count + n)];
    }
    if UniqueKeys(acc, DayOf) {
      BumpUnique(acc, day, n);
      forall e ensures CountOf(r, e) == CountOf(acc, e) + (if e == day then n else 0) {
        BumpCount(acc, day, n, e);
      }
    }
    forall e ensures !Absent(r, DayOf, e) <==> !Absent(acc, DayOf, e) || e == day {
      BumpKeys(acc, day, n, e);
    }
  }

  /** The `reduce` that builds `ordersByDate`, written as the loop it is. A
      row without orders makes `sale.orders[0]` undefined, and reading its
      `createdAt` throws; the result is then `None`. */
  method OrdersByDate(rows: seq<Row>) returns (r: Option<seq<DateCount>>)
    ensures r.None? <==> !AllHaveOrders(rows)
    ensures r.Some? ==> r.value == Histogram(rows)
  {
    var acc: seq<DateCount> := [];
    var i := 0;
    while i < |rows|
      invariant 0 <= i <= |rows|
      invariant AllHaveOrders(rows[..i])
      invariant acc == Histogram(rows[..i])
    {
      if rows[i].orders == [] {
        return None;
      }
      HistogramStep(rows, i);
      acc := AddToDay(acc, rows[i].orders[0].day, |rows[i].orders|);
      i := i + 1;
    }
    assert rows[..i] == rows;
    r := Some(acc);
  }

  // ---------------------------------------------------------------------
  // The three reports

  /** `getSales()`. The total is summed row by row and order by order; the
      contract states it as the sum over all the orders. */
  method GetSales(rows: seq<Row>) returns (r: Response<Sales>)
    ensures r.NotFound? <==> rows == []
    ensures r.NotFound? ==> r.message == "No sales found"
    ensures r.ServerError? <==> rows != [] && !AllHaveOrders(rows)
    ensures r.Ok? ==> r.status == 200 && r.message == "Sales fetched successfully"
    ensures r.Ok? ==> r.data.totalSales == |rows| && r.data.totalRevenue == SumBy(Flatten(rows), OrderTotal)
    ensures r.Ok? ==> AllHaveOrders(rows) && r.data.ordersByDate == Histogram(rows)
    ensures r.Ok? ==> UniqueKeys(r.data.ordersByDate, DayOf) && Total(r.data.ordersByDate) == |Flatten(rows)|
    ensures !r.BadRequest?
  {
    if |rows| == 0 {
      return NotFound("No sales found");
    }
    var totalRevenue := SumBy(rows, RowSum(OrderTotal));
    SumOverFlatten(rows, OrderTotal);
    var byDate := OrdersByDate(rows);
    if byDate.None? {
      return ServerError("Cannot read properties of undefined (reading 'createdAt')");
    }
    HistogramUnique(rows);
    HistogramTotal(rows);
    r := Ok(200, "Sales fetched successfully", Sales(|rows|, totalRevenue, byDate.value));
  }

  /** Exchanges `a[j - 1]` and `a[j]`. */
  method SwapDown<T>(a: array<T>, j: int)
    requires 0 < j < a.Length
    modifies a
    ensures a[..] == old(a[..])[j - 1 := old(a[j])][j := old(a[j - 1])]
    ensures multiset(a[..]) == multiset(old(a[..]))
  {
    a[j - 1], a[j] := a[j], a[j - 1];
  }

  /** `Array.prototype.sort` with a comparator putting larger keys first:
      an insertion sort by adjacent swaps, which like the built-in sort keeps
      rows with equal keys in their order. */
  method SortDescInPlace<T>(a: array<T>, key: T -> int)
    modifies a
    ensures SortedDesc(a[..], key)
    ensures multiset(a[..]) == multiset(old(a[..]))
  {
    var i := 0;
    while i < a.Length
      invariant 0 <= i <= a.Length
      invariant forall p, q :: 0 <= p < q < i ==> key(a[p]) >= key(a[q])
      invariant multiset(a[..]) == multiset(old(a[..]))
    {
      var j := i;
      while j > 0 && key(a[j - 1]) < key(a[j])
        invariant 0 <= j <= i
        invariant multiset(a[..]) == multiset(old(a[..]))
        invariant forall p, q :: 0 <= p < q <= i && p != j && q != j ==> key(a[p]) >= key(a[q])
        invariant forall q :: j < q <= i ==> key(a[j]) > key(a[q])
      {
        SwapDown(a, j);
        j := j - 1;
      }
      i := i + 1;
    }
  }

  /** The first `m` rows of a sorted list are sorted, and what is left out
      of them is the rest of the list. */
  lemma PrefixRest<T>(s: seq<T>, m: nat, key: T -> int)
    requires m <= |s| && SortedDesc(s, key)
    ensures SortedDesc(s[..m], key)
    ensures multiset(s[..m]) <= multiset(s)
    ensures multiset(s) - multiset(s[..m]) == multiset(s[m..])
  {
    assert s == s[..m] + s[m..];
  }

  /** The first `m` rows of a sorted list are a sub-multiset of it, and no
      row left out has a larger key than any row kept. */
  lemma PrefixIsTop<T>(s: seq<T>, m: nat, key: T -> int)
    requires m <= |s| && SortedDesc(s, key)
    ensures SortedDesc(s[..m], key)
    ensures multiset(s[..m]) <= multiset(s)
    ensures forall x :: x in multiset(s) - multiset(s[..m]) ==>
      forall k :: 0 <= k < m ==> key(x) <= key(s[k])
  {
    PrefixRest(s, m, key);
    forall x | x in multiset(s) - multiset(s[..m])
      ensures forall k :: 0 <= k < m ==> key(x) <= key(s[k])
    {
      assert x in multiset(s[m..]);
      var j :| 0 <= j < |s[m..]| && s[m..][j] == x;
      assert s[m + j] == x;
    }
  }

  /** `getProduct()`: the total is taken before the fetched array is sorted
      in place, and the report keeps the first five rows of the sorted array. */
  method GetProduct(rows: seq<Row>) returns (r: Response<ProductStats>)
    ensures r.Ok? || r == NotFound("No products found")
    ensures r.NotFound? <==> rows == []
    ensures r.Ok? ==> r.status == 200 && r.message == "Products fetched successfully"
    ensures r.Ok? ==> r.data.totalProducts == |rows|
    ensures r.Ok? ==> r.data.totalProductsSold == SumBy(Flatten(rows), ItemCount)
    ensures r.Ok? ==> |r.data.topSellingProducts| == Min(TopCount, |rows|)
    ensures r.Ok? ==> SortedDesc(r.data.topSellingProducts, RowSold)
    ensures r.Ok? ==> multiset(r.data.topSellingProducts) <= multiset(rows)
    ensures r.Ok? ==> forall x :: x in multiset(rows) - multiset(r.data.topSellingProducts) ==>
      forall k :: 0 <= k < |r.data.topSellingProducts| ==> RowSold(x) <= RowSold(r.data.topSellingProducts[k])
  {
    if |rows| == 0 {
      return NotFound("No products found");
    }
    var totalProductsSold := SumBy(rows, RowSum(ItemCount));
    SumOverFlatten(rows, ItemCount);
    var a := new Row[|rows|](k requires 0 <= k < |rows| => rows[k]);
    assert a[..] == rows;
    SortDescInPlace(a, RowSold);
    var m := Min(TopCount, a.Length);
    var sorted := a[..];
    PrefixIsTop(sorted, m, RowSold);
    var top := sorted[..m];
    r := Ok(200, "Products fetched successfully", ProductStats(|rows|, totalProductsSold, top));
  }

  function HasOrders(r: Row): bool { |r.orders| > 0 }

  function HasNoOrders(r: Row): bool { |r.orders| == 0 }

  /** `getUser()`: the rows with orders are active, those without are
      inactive, and the "new" users are the inactive ones again. */
  function GetUser(rows: seq<Row>): (r: Response<UserStats>)
    ensures r.Ok? || r == NotFound("No users found")
    ensures r.NotFound? <==> rows == []
    ensures r.Ok? ==> r.status == 200 && r.message == "Users fetched successfully"
    ensures r.Ok? ==> r.data.totalUsers == |rows|
    ensures r.Ok? ==> forall k :: 0 <= k < |r.data.activeUsers| ==>
      r.data.activeUsers[k] in rows && r.data.activeUsers[k].orders != []
    ensures r.Ok? ==> forall k :: 0 <= k < |r.data.inactiveUsers| ==>
      r.data.inactiveUsers[k] in rows && r.data.inactiveUsers[k].orders == []
    ensures r.Ok? ==> multiset(r.data.activeUsers) + multiset(r.data.inactiveUsers) == multiset(rows)
    ensures r.Ok? ==> |r.data.activeUsers| + |r.data.inactiveUsers| == r.data.totalUsers
    ensures r.Ok? ==> r.data.newUsers == r.data.inactiveUsers
  {
    if |rows| == 0 then NotFound("No users found")
    else
      var active := Filter(rows, HasOrders);
      var inactive := Filter(rows, HasNoOrders);
      FilterSplitCount(rows, HasOrders, HasNoOrders);
      FilterSplitMultiset(rows, HasOrders, HasNoOrders);
      Ok(200, "Users fetched successfully", UserStats(|rows|, active, inactive, inactive))
  }
}
