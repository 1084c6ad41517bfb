/** The summary metrics shown under the sales trend
    (dashboard_proyek_copy.py, lines 141-143), and how the daily table they
    are summed from relates to the filtered rows. */
module Summary {
  import opened Records
  import opened Ordering
  import opened Aggregations

  /** `daily_sales['total_orders'].sum()`. */
  function TotalOrders(daily: seq<DailyRow>): nat {
    if daily == [] then 0 else daily[0].totalOrders + TotalOrders(daily[1..])
  }

  /** `daily_sales['total_revenue'].sum()`. */
  function TotalRevenue(daily: seq<DailyRow>): int {
    if daily == [] then 0 else daily[0].totalRevenue + TotalRevenue(daily[1..])
  }

  datatype Metrics = Metrics(totalOrders: nat, totalRevenue: int, avgRevenuePerOrder: real)

  /** The average times the order count gives back the revenue. */
  ghost predicate AverageIsRevenuePerOrder(m: Metrics) {
    m.avgRevenuePerOrder * (m.totalOrders as real) == m.totalRevenue as real
  }

  /** The three metrics; the average is revenue per order, and 0 when there
      are no orders. */
  function MetricsOf(daily: seq<DailyRow>): (m: Metrics)
    ensures m.totalOrders == TotalOrders(daily) && m.totalRevenue == TotalRevenue(daily)
    ensures m.totalOrders > 0 ==> AverageIsRevenuePerOrder(m)
    ensures m.totalOrders == 0 ==> m.avgRevenuePerOrder == 0.0
  {
    var orders := TotalOrders(daily);
    var revenue := TotalRevenue(daily);
    Metrics(orders, revenue, if orders > 0 then (revenue as real) / (orders as real) else 0.0)
  }

  /** The sum over the keys `ks` of the `w` column summed over each key's
      group. */
  function GroupTotals<K(==)>(rows: seq<Row>, key: Row -> K, ks: seq<K>, w: Row -> int): int {
    if ks == [] then 0 else Total(GroupOf(rows, key, ks[0]), w) + GroupTotals(rows, key, ks[1..], w)
  }

  lemma {:induction false} GroupTotalsOfNoRows<K>(key: Row -> K, ks: seq<K>, w: Row -> int)
    ensures GroupTotals([], key, ks, w) == 0
  {
    if ks != [] {
      GroupTotalsOfNoRows(key, ks[1..], w);
    }
  }

  /** Adding a row to the table adds its weight to the group of its key, if
      that key is listed once. */
  lemma {:induction false} GroupTotalsCons<K>(r: Row, rows: seq<Row>, key: Row -> K, ks: seq<K>, w: Row -> int)
    requires NoDuplicates(ks)
    ensures GroupTotals([r] + rows, key, ks, w) ==
      GroupTotals(rows, key, ks, w) + (if key(r) in ks then w(r) else 0)
  {
    if ks != [] {
      var all := [r] + rows;
      assert all[0] == r && all[1..] == rows;
      GroupTotalsCons(r, rows, key, ks[1..], w);
      assert key(r) == ks[0] ==> key(r) !in ks[1..];
    }
  }

  /** Grouping partitions the rows: summed over all keys, the group totals
      of a column give the column's total. */
  lemma {:induction false} GroupTotalsPartition<K>(rows: seq<Row>, key: Row -> K, ks: seq<K>, w: Row -> int)
    requires NoDuplicates(ks)
    requires forall r :: r in rows ==> key(r) in ks
    ensures GroupTotals(rows, key, ks, w) == Total(rows, w)
  {
    if rows == [] {
      GroupTotalsOfNoRows(key, ks, w);
    } else {
      assert rows == [rows[0]] + rows[1..];
      GroupTotalsPartition(rows[1..], key, ks, w);
      GroupTotalsCons(rows[0], rows[1..], key, ks, w);
    }
  }

  /** The daily table `t` is made of the days `ks`, in that order. */
  ghost predicate TableOfDays(rows: seq<Row>, t: seq<DailyRow>, ks: seq<Date>) {
    |t| == |ks| && forall i :: 0 <= i < |t| ==> t[i] == DayOf(rows, ks[i])
  }

  lemma {:induction false} RevenueByDay(rows: seq<Row>, t: seq<DailyRow>, ks: seq<Date>)
    requires TableOfDays(rows, t, ks)
    ensures TotalRevenue(t) == GroupTotals(rows, DateKey, ks, Price)
  {
    if t != [] {
      RevenueByDay(rows, t[1..], ks[1..]);
    }
  }

  lemma {:induction false} OrdersByDayAtMostRows(rows: seq<Row>, t: seq<DailyRow>, ks: seq<Date>)
    requires TableOfDays(rows, t, ks)
    ensures TotalOrders(t) <= GroupTotals(rows, DateKey, ks, One)
  {
    if t != [] {
      OrdersByDayAtMostRows(rows, t[1..], ks[1..]);
      NuniqueBounds(GroupOf(rows, DateKey, ks[0]), OrderKey);
      TotalOfOnes(GroupOf(rows, DateKey, ks[0]));
    }
  }

  /** The orders placed on one of the days `ks`. */
  ghost function OrdersOn(rows: seq<Row>, ks: seq<Date>): set<string> {
    set r | r in rows && r.date in ks :: r.orderId
  }

  /** The orders of the days `ks` are those of the first day and those of
      the rest. */
  lemma OrdersOnSplit(rows: seq<Row>, ks: seq<Date>)
    requires ks != []
    ensures OrdersOn(rows, ks) == Values(GroupOf(rows, DateKey, ks[0]), OrderKey) + OrdersOn(rows, ks[1..])
  {
    var group := GroupOf(rows, DateKey, ks[0]);
    var first := Values(group, OrderKey);
    var rest := OrdersOn(rows, ks[1..]);
    forall o | o in OrdersOn(rows, ks) ensures o in first + rest {
      var r :| r in rows && r.date in ks && r.orderId == o;
      if DateKey(r) == ks[0] {
        assert r in group;
        assert OrderKey(r) in first;
      } else {
        assert r.date in ks[1..];
        assert o in rest;
      }
    }
    forall o | o in first ensures o in OrdersOn(rows, ks) {
      var r :| r in group && OrderKey(r) == o;
      assert r in rows && DateKey(r) == ks[0];
    }
  }

  lemma {:induction false} OrdersByDayAtLeastDistinct(rows: seq<Row>, t: seq<DailyRow>, ks: seq<Date>)
    requires TableOfDays(rows, t, ks)
    ensures |OrdersOn(rows, ks)| <= TotalOrders(t)
  {
    if t == [] {
      assert OrdersOn(rows, ks) == {};
    } else {
      OrdersByDayAtLeastDistinct(rows, t[1..], ks[1..]);
      var first := Values(GroupOf(rows, DateKey, ks[0]), OrderKey);
      var rest := OrdersOn(rows, ks[1..]);
      OrdersOnSplit(rows, ks);
      assert |first + rest| <= |first| + |rest|;
    }
  }

  /** The dates of the daily table, as a list of keys. */
  function DaysOf(t: seq<DailyRow>): (ks: seq<Date>)
    ensures |ks| == |t| && forall i :: 0 <= i < |t| ==> ks[i] == t[i].date
  {
    seq(|t|, i requires 0 <= i < |t| => t[i].date)
  }

  /** Summed over the daily table, revenue is the price sum of all rows, and
      the order count lies between the number of distinct orders (an order
      whose items fall on two days counts twice) and the number of rows. On a
      non-empty table there is at least one order, so the average's zero
      guard never applies to it. */
  lemma {:induction false} DailyTotals(rows: seq<Row>)
    ensures TotalRevenue(DailySales(rows)) == PriceSum(rows)
    ensures Nunique(rows, OrderKey) <= TotalOrders(DailySales(rows)) <= |rows|
    ensures rows != [] ==> TotalOrders(DailySales(rows)) >= 1
  {
    var t := DailySales(rows);
    var ks := DaysOf(t);
    assert TableOfDays(rows, t, ks);
    assert NoDuplicates(ks);
    assert forall r :: r in rows ==> DateKey(r) in ks by {
      forall r | r in rows ensures DateKey(r) in ks {
        assert DateKey(r) in Values(rows, DateKey);
        var i :| 0 <= i < |t| && t[i].date == DateKey(r);
        assert ks[i] == DateKey(r);
      }
    }
    RevenueByDay(rows, t, ks);
    GroupTotalsPartition(rows, DateKey, ks, Price);
    OrdersByDayAtMostRows(rows, t, ks);
    GroupTotalsPartition(rows, DateKey, ks, One);
    TotalOfOnes(rows);
    OrdersByDayAtLeastDistinct(rows, t, ks);
    assert OrdersOn(rows, ks) == Values(rows, OrderKey);
    if rows != [] {
      NuniqueBounds(rows, OrderKey);
    }
  }
}
