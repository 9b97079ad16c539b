/** `getGraphRevenue`: the revenue of a store's paid orders bucketed by calendar month into a fixed
    Jan..Dec series. The year of an order plays no part: every January lands in "Jan". */
module GraphRevenue {
  import opened Store
  import opened TotalRevenue

  datatype GraphEntry = GraphEntry(name: string, total: int)

  const MonthNames: seq<string> :=
    ["Jan", "Feb", "Mar", "Apr", "May", "Jun", "Jul", "Aug", "Sep", "Oct", "Nov", "Dec"]

  /** The revenue the orders of a list contribute to month m, accumulated in list order. */
  function MonthRevenue(os: seq<Order>, ps: seq<Product>, m: int): (r: int)
    requires Resolves(os, ps)
    ensures r >= 0
  {
    if os == [] then 0
    else
      var o := os[|os| - 1];
      MonthRevenue(os[..|os| - 1], ps, m) + (if o.createdAt.month == m then OrderRevenue(o.items, ps) else 0)
  }

  /** Prices are non-negative, so no bucket exceeds the revenue of all the orders. */
  lemma {:induction false} MonthAtMostRevenue(os: seq<Order>, ps: seq<Product>, m: int)
    requires Resolves(os, ps)
    ensures MonthRevenue(os, ps, m) <= RevenueOf(os, ps)
  {
    if os != [] {
      MonthAtMostRevenue(os[..|os| - 1], ps, m);
    }
  }

  /** The orders of a list created in month m, whatever their year. */
  function OrdersInMonth(os: seq<Order>, m: int): (r: seq<Order>)
    ensures forall o :: o in r <==> o in os && o.createdAt.month == m
  {
    if os == [] then []
    else
      var o := os[|os| - 1];
      assert os == os[..|os| - 1] + [o];
      OrdersInMonth(os[..|os| - 1], m) + (if o.createdAt.month == m then [o] else [])
  }

  /** A bucket holds exactly the revenue of the orders of its month. */
  lemma {:induction false} MonthRevenueIsRevenueOfMonth(os: seq<Order>, ps: seq<Product>, m: int)
    requires Resolves(os, ps)
    ensures Resolves(OrdersInMonth(os, m), ps)
    ensures MonthRevenue(os, ps, m) == RevenueOf(OrdersInMonth(os, m), ps)
  {
    if os != [] {
      var init, o := os[..|os| - 1], os[|os| - 1];
      MonthRevenueIsRevenueOfMonth(init, ps, m);
      if o.createdAt.month == m {
        var s := OrdersInMonth(init, m) + [o];
        assert s[..|s| - 1] == OrdersInMonth(init, m);
      } else {
        assert OrdersInMonth(os, m) == OrdersInMonth(init, m);
      }
    }
  }

  /** A month in which no order was created has total 0. */
  lemma {:induction false} EmptyMonthIsZero(os: seq<Order>, ps: seq<Product>, m: int)
    requires Resolves(os, ps)
    requires forall o :: o in os ==> o.createdAt.month != m
    ensures MonthRevenue(os, ps, m) == 0
  {
    if os != [] {
      assert os[|os| - 1] in os;
      assert forall o :: o in os[..|os| - 1] ==> o in os;
      EmptyMonthIsZero(os[..|os| - 1], ps, m);
    }
  }

  /** Rewriting one order without touching its line items keeps every item resolvable. */
  lemma ResolvesAfterUpdate(os: seq<Order>, ps: seq<Product>, i: nat, o: Order)
    requires Resolves(os, ps) && i < |os| && o.items == os[i].items
    ensures Resolves(os[i := o], ps)
  {
    assert os[i] in os;
    assert forall x :: x in os[i := o] ==> x in os || x == o;
  }

  /** Moving one order to another year changes no bucket. */
  lemma {:induction false} YearIsIgnored(os: seq<Order>, ps: seq<Product>, i: nat, year: int, m: int)
    requires Resolves(os, ps) && i < |os|
    ensures Resolves(os[i := os[i].(createdAt := Date(year, os[i].createdAt.month))], ps)
    ensures MonthRevenue(os[i := os[i].(createdAt := Date(year, os[i].createdAt.month))], ps, m)
         == MonthRevenue(os, ps, m)
  {
    var o' := os[i].(createdAt := Date(year, os[i].createdAt.month));
    var os' := os[i := o'];
    ResolvesAfterUpdate(os, ps, i, o');
    var init := os[..|os| - 1];
    assert Resolves(init, ps) by {
      assert forall x :: x in init ==> x in os;
    }
    if i < |os| - 1 {
      assert os'[..|os'| - 1] == init[i := o'] && os'[|os'| - 1] == os[|os| - 1];
      YearIsIgnored(init, ps, i, year, m);
    } else {
      assert os'[..|os'| - 1] == init;
    }
  }

  /** The sum of the first k buckets. */
  function MonthsSum(os: seq<Order>, ps: seq<Product>, k: nat): int
    requires Resolves(os, ps)
  {
    if k == 0 then 0 else MonthsSum(os, ps, k - 1) + MonthRevenue(os, ps, k - 1)
  }

  lemma {:induction false} MonthsSumAppend(os: seq<Order>, o: Order, ps: seq<Product>, k: nat)
    requires Resolves(os + [o], ps)
    ensures Resolves(os, ps)
    ensures MonthsSum(os + [o], ps, k)
         == MonthsSum(os, ps, k) + (if o.createdAt.month < k then OrderRevenue(o.items, ps) else 0)
  {
    assert (os + [o])[..|os|] == os && (os + [o])[|os|] == o;
    assert forall x :: x in os ==> x in os + [o];
    if k > 0 {
      MonthsSumAppend(os, o, ps, k - 1);
    }
  }

  /** Every order falls in exactly one of the twelve buckets, so the buckets add up to the sum
      over all orders. */
  lemma {:induction false} MonthsPartitionRevenue(os: seq<Order>, ps: seq<Product>)
    requires Resolves(os, ps)
    ensures MonthsSum(os, ps, 12) == RevenueOf(os, ps)
  {
    if os == [] {
      MonthsSumOfNoOrders(ps, 12);
    } else {
      var init, o := os[..|os| - 1], os[|os| - 1];
      assert os == init + [o];
      MonthsSumAppend(init, o, ps, 12);
      MonthsPartitionRevenue(init, ps);
    }
  }

  lemma {:induction false} MonthsSumOfNoOrders(ps: seq<Product>, k: nat)
    ensures MonthsSum([], ps, k) == 0
  {
    if k > 0 {
      MonthsSumOfNoOrders(ps, k - 1);
    }
  }

  function SumTotals(g: seq<GraphEntry>): int {
    if g == [] then 0 else SumTotals(g[..|g| - 1]) + g[|g| - 1].total
  }

  lemma {:induction false} SumTotalsIsMonthsSum(g: seq<GraphEntry>, os: seq<Order>, ps: seq<Product>, k: nat)
    requires Resolves(os, ps) && k <= |g|
    requires forall m :: 0 <= m < |g| ==> g[m].total == MonthRevenue(os, ps, m)
    ensures SumTotals(g[..k]) == MonthsSum(os, ps, k)
  {
    if k > 0 {
      assert g[..k][..k - 1] == g[..k - 1];
      SumTotalsIsMonthsSum(g, os, ps, k - 1);
    }
  }

  /** The total collected so far for a month: `monthlyRevenue[month] || 0`. */
  function Bucket(monthlyRevenue: map<int, int>, m: int): int {
    if m in monthlyRevenue then monthlyRevenue[m] else 0
  }

  lemma NonEmptyHasElement(s: set<int>)
    requires s != {}
    ensures exists x :: x in s
  {
    if forall x :: x !in s {
      assert false;
    }
  }

  /** The second half of `getGraphRevenue`: the twelve zero entries, then one assignment
      `graphData[month].total = monthlyRevenue[month]` per key of the dictionary. */
  method FillGraphData(monthlyRevenue: map<int, int>) returns (graph: seq<GraphEntry>)
    requires forall m :: m in monthlyRevenue ==> 0 <= m < 12
    ensures |graph| == 12
    ensures forall m :: 0 <= m < 12 ==> graph[m] == GraphEntry(MonthNames[m], Bucket(monthlyRevenue, m))
  {
    var graphData := new GraphEntry[12] [
      GraphEntry("Jan", 0), GraphEntry("Feb", 0), GraphEntry("Mar", 0), GraphEntry("Apr", 0),
      GraphEntry("May", 0), GraphEntry("Jun", 0), GraphEntry("Jul", 0), GraphEntry("Aug", 0),
      GraphEntry("Sep", 0), GraphEntry("Oct", 0), GraphEntry("Nov", 0), GraphEntry("Dec", 0)];
    var pending := monthlyRevenue.Keys;
    while pending != {}
      invariant pending <= monthlyRevenue.Keys
      invariant forall m :: 0 <= m < 12 ==> graphData[m].name == MonthNames[m]
      invariant forall m :: 0 <= m < 12 ==>
        graphData[m].total == if m in monthlyRevenue && m !in pending then monthlyRevenue[m] else 0
      decreases pending
    {
      NonEmptyHasElement(pending);
      var month :| month in pending;
      graphData[month] := graphData[month].(total := monthlyRevenue[month]);
      pending := pending - {month};
    }
    graph := graphData[..];
  }

  /** `getGraphRevenue(storeId)` over the given state: one dictionary pass over the paid orders,
      then one pass over the dictionary's keys filling a twelve-entry array. */
  method GetGraphRevenue(orders: seq<Order>, products: seq<Product>, storeId: string)
    returns (graph: seq<GraphEntry>)
    requires Resolves(orders, products)
    ensures |graph| == 12
    ensures forall m :: 0 <= m < 12 ==> graph[m].name == MonthNames[m]
    ensures forall m :: 0 <= m < 12 ==>
      graph[m].total == MonthRevenue(PaidOrders(orders, storeId), products, m)
    ensures SumTotals(graph) == GetTotalRevenue(orders, products, storeId)
  {
    var paidOrders := PaidOrders(orders, storeId);
    PaidOrdersResolve(orders, products, storeId);
    var monthlyRevenue: map<int, int> := map[];
    for i := 0 to |paidOrders|
      invariant forall m :: m in monthlyRevenue ==> 0 <= m < 12
      invariant forall m :: 0 <= m < 12 ==> Bucket(monthlyRevenue, m) == MonthRevenue(paidOrders[..i], products, m)
    {
      var order := paidOrders[i];
      assert order in orders;
      var month := order.createdAt.month;
      var revenueForOrder := 0;
      for j := 0 to |order.items|
        invariant revenueForOrder == OrderRevenue(order.items[..j], products)
      {
        assert order.items[..j + 1][..j] == order.items[..j];
        revenueForOrder := revenueForOrder + PriceOf(products, order.items[j]);
      }
      assert order.items[..|order.items|] == order.items;
      assert paidOrders[..i + 1][..i] == paidOrders[..i];
      monthlyRevenue := monthlyRevenue[month := Bucket(monthlyRevenue, month) + revenueForOrder];
    }
    assert paidOrders[..|paidOrders|] == paidOrders;

    graph := FillGraphData(monthlyRevenue);

    SumTotalsIsMonthsSum(graph, paidOrders, products, 12);
    assert graph[..12] == graph;
    MonthsPartitionRevenue(paidOrders, products);
  }
}
