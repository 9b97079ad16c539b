/** `getTotalRevenue`: the paid orders of a store, each summed over its line items' current prices,
    and those per-order sums summed again. Both levels are `reduce` calls with initial value 0, so
    both are written as left folds: the sum of a list is the sum of all but its last element, plus
    the last. */
module TotalRevenue {
  import opened Store

  /** The inner `reduce`: the sum of the line items' prices, one term per item. */
  function OrderRevenue(items: seq<string>, ps: seq<Product>): (r: int)
    requires Priced(items, ps)
    ensures r >= 0
    ensures |items| == 1 ==> r == PriceOf(ps, items[0])
  {
    if items == [] then 0
    else OrderRevenue(items[..|items| - 1], ps) + PriceOf(ps, items[|items| - 1])
  }

  /** Prices are non-negative, so an order's sum is at least the price of each of its items. */
  lemma {:induction false} ItemAtMostOrderRevenue(items: seq<string>, pid: string, ps: seq<Product>)
    requires Priced(items, ps) && pid in items
    ensures PriceOf(ps, pid) <= OrderRevenue(items, ps)
  {
    var init := items[..|items| - 1];
    if items[|items| - 1] != pid {
      assert items == init + [items[|items| - 1]];
      ItemAtMostOrderRevenue(init, pid, ps);
    }
  }

  /** The outer `reduce`: the sum over a list of orders of each order's revenue. */
  function RevenueOf(os: seq<Order>, ps: seq<Product>): (r: int)
    requires Resolves(os, ps)
    ensures r >= 0
  {
    if os == [] then 0
    else RevenueOf(os[..|os| - 1], ps) + OrderRevenue(os[|os| - 1].items, ps)
  }

  lemma PaidOrdersResolve(orders: seq<Order>, ps: seq<Product>, storeId: string)
    requires Resolves(orders, ps)
    ensures Resolves(PaidOrders(orders, storeId), ps)
  {
  }

  /** `getTotalRevenue(storeId)` over the given state. */
  function GetTotalRevenue(orders: seq<Order>, ps: seq<Product>, storeId: string): (r: int)
    requires Resolves(orders, ps)
    ensures r >= 0
  {
    PaidOrdersResolve(orders, ps, storeId);
    RevenueOf(PaidOrders(orders, storeId), ps)
  }

  lemma {:induction false} OrderRevenueAppend(a: seq<string>, b: seq<string>, ps: seq<Product>)
    requires Priced(a, ps) && Priced(b, ps)
    ensures Priced(a + b, ps)
    ensures OrderRevenue(a + b, ps) == OrderRevenue(a, ps) + OrderRevenue(b, ps)
  {
    if b == [] {
      assert a + b == a;
    } else {
      var b', x := b[..|b| - 1], b[|b| - 1];
      assert (a + b)[..|a + b| - 1] == a + b' && (a + b)[|a + b| - 1] == x;
      OrderRevenueAppend(a, b', ps);
    }
  }

  /** Line items are summed once per item: listing a product twice counts its price twice. */
  lemma DuplicatedItems(items: seq<string>, ps: seq<Product>)
    requires Priced(items, ps)
    ensures Priced(items + items, ps)
    ensures OrderRevenue(items + items, ps) == 2 * OrderRevenue(items, ps)
  {
    OrderRevenueAppend(items, items, ps);
  }

  lemma {:induction false} RevenueAppend(a: seq<Order>, b: seq<Order>, ps: seq<Product>)
    requires Resolves(a, ps) && Resolves(b, ps)
    ensures Resolves(a + b, ps)
    ensures RevenueOf(a + b, ps) == RevenueOf(a, ps) + RevenueOf(b, ps)
  {
    if b == [] {
      assert a + b == a;
    } else {
      var b', x := b[..|b| - 1], b[|b| - 1];
      assert (a + b)[..|a + b| - 1] == a + b' && (a + b)[|a + b| - 1] == x;
      RevenueAppend(a, b', ps);
    }
  }

  /** All line items of a list of orders, in order. */
  function Flatten(os: seq<Order>): seq<string> {
    if os == [] then [] else Flatten(os[..|os| - 1]) + os[|os| - 1].items
  }

  /** The nested reduce equals one flat sum over every line item of every order. */
  lemma {:induction false} RevenueIsFlatSum(os: seq<Order>, ps: seq<Product>)
    requires Resolves(os, ps)
    ensures Priced(Flatten(os), ps)
    ensures RevenueOf(os, ps) == OrderRevenue(Flatten(os), ps)
  {
    if os != [] {
      RevenueIsFlatSum(os[..|os| - 1], ps);
      OrderRevenueAppend(Flatten(os[..|os| - 1]), os[|os| - 1].items, ps);
    }
  }

  lemma TotalRevenueIsFlatSum(orders: seq<Order>, ps: seq<Product>, storeId: string)
    requires Resolves(orders, ps)
    ensures Priced(Flatten(PaidOrders(orders, storeId)), ps)
    ensures GetTotalRevenue(orders, ps, storeId) == OrderRevenue(Flatten(PaidOrders(orders, storeId)), ps)
  {
    RevenueIsFlatSum(PaidOrders(orders, storeId), ps);
  }

  /** Adding one order row changes the total by that order's revenue exactly when it is a paid
      order of the store, and not at all otherwise. */
  lemma TotalRevenueAppend(orders: seq<Order>, o: Order, ps: seq<Product>, storeId: string)
    requires Resolves(orders, ps) && Priced(o.items, ps)
    ensures Resolves(orders + [o], ps)
    ensures GetTotalRevenue(orders + [o], ps, storeId)
         == GetTotalRevenue(orders, ps, storeId) + (if IsPaidIn(o, storeId) then OrderRevenue(o.items, ps) else 0)
  {
    PaidOrdersAppend(orders, [o], storeId);
    assert PaidOrders([o], storeId) == if IsPaidIn(o, storeId) then [o] else [];
    PaidOrdersResolve(orders, ps, storeId);
    RevenueAppend(PaidOrders(orders, storeId), PaidOrders([o], storeId), ps);
    assert RevenueOf([o], ps) == OrderRevenue(o.items, ps) by {
      assert [o][..0] == [];
    }
  }

  /** With no paid order of the store the total is the initial value 0. */
  lemma NoPaidOrders(orders: seq<Order>, ps: seq<Product>, storeId: string)
    requires Resolves(orders, ps)
    requires forall o :: o in orders ==> !IsPaidIn(o, storeId)
    ensures GetTotalRevenue(orders, ps, storeId) == 0
  {
  }

  /** Removing the element at index j. */
  function RemoveAt<T>(s: seq<T>, j: nat): (r: seq<T>)
    requires j < |s|
    ensures multiset(r) == multiset(s) - multiset{s[j]}
    ensures forall x :: x in r ==> x in s
  {
    assert s == s[..j] + [s[j]] + s[j + 1..];
    s[..j] + s[j + 1..]
  }

  lemma RevenueRemoveAt(os: seq<Order>, j: nat, ps: seq<Product>)
    requires j < |os| && Resolves(os, ps)
    ensures Resolves(RemoveAt(os, j), ps)
    ensures RevenueOf(os, ps) == RevenueOf(RemoveAt(os, j), ps) + OrderRevenue(os[j].items, ps)
  {
    var x := os[j];
    assert os == os[..j] + [x] + os[j + 1..];
    assert Resolves(os[..j], ps) && Resolves(os[j + 1..], ps);
    RevenueAppend(os[..j], [x], ps);
    RevenueAppend(os[..j] + [x], os[j + 1..], ps);
    RevenueAppend(os[..j], os[j + 1..], ps);
    assert RevenueOf([x], ps) == OrderRevenue(x.items, ps) by {
      assert [x][..0] == [];
    }
  }

  /** The sum does not depend on the order in which the orders are listed. */
  lemma {:induction false} RevenuePermutation(a: seq<Order>, b: seq<Order>, ps: seq<Product>)
    requires multiset(a) == multiset(b)
    requires Resolves(a, ps)
    ensures Resolves(b, ps)
    ensures RevenueOf(a, ps) == RevenueOf(b, ps)
    decreases |a|
  {
    forall o | o in b ensures o in a {
      assert o in multiset(b);
    }
    if a == [] {
      assert |b| == |multiset(b)| == 0;
    } else {
      var a', x := a[..|a| - 1], a[|a| - 1];
      assert a == a' + [x];
      assert multiset(a') == multiset(a) - multiset{x};
      assert x in multiset(b);
      var j :| 0 <= j < |b| && b[j] == x;
      RevenuePermutation(a', RemoveAt(b, j), ps);
      RevenueRemoveAt(b, j, ps);
    }
  }

  /** Every order's revenue is part of the sum, and the other terms are non-negative. */
  lemma {:induction false} OrderAtMostRevenue(os: seq<Order>, o: Order, ps: seq<Product>)
    requires Resolves(os, ps) && o in os
    ensures OrderRevenue(o.items, ps) <= RevenueOf(os, ps)
  {
    if o != os[|os| - 1] {
      assert os == os[..|os| - 1] + [os[|os| - 1]];
      OrderAtMostRevenue(os[..|os| - 1], o, ps);
    }
  }

  /** The total is at least the revenue of any single paid order of the store. */
  lemma PaidOrderAtMostTotal(orders: seq<Order>, o: Order, ps: seq<Product>, storeId: string)
    requires Resolves(orders, ps)
    requires o in orders && IsPaidIn(o, storeId)
    ensures OrderRevenue(o.items, ps) <= GetTotalRevenue(orders, ps, storeId)
  {
    PaidOrdersResolve(orders, ps, storeId);
    OrderAtMostRevenue(PaidOrders(orders, storeId), o, ps);
  }

  lemma {:induction false} OrderRevenueSamePrices(items: seq<string>, ps: seq<Product>, qs: seq<Product>)
    requires SamePrices(ps, qs) && Priced(items, ps)
    ensures Priced(items, qs)
    ensures OrderRevenue(items, ps) == OrderRevenue(items, qs)
  {
    forall pid | pid in items ensures Lookup(qs, pid).Some? {
      LookupSamePrices(ps, qs, pid);
    }
    if items != [] {
      LookupSamePrices(ps, qs, items[|items| - 1]);
      OrderRevenueSamePrices(items[..|items| - 1], ps, qs);
    }
  }

  lemma {:induction false} RevenueSamePrices(os: seq<Order>, ps: seq<Product>, qs: seq<Product>)
    requires SamePrices(ps, qs) && Resolves(os, ps)
    ensures Resolves(os, qs)
    ensures RevenueOf(os, ps) == RevenueOf(os, qs)
  {
    forall o | o in os ensures Priced(o.items, qs) {
      OrderRevenueSamePrices(o.items, ps, qs);
    }
    if os != [] {
      OrderRevenueSamePrices(os[|os| - 1].items, ps, qs);
      RevenueSamePrices(os[..|os| - 1], ps, qs);
    }
  }

  /** Archiving products does not change revenue: an archived product's price is still summed. */
  lemma TotalRevenueIgnoresArchived(orders: seq<Order>, ps: seq<Product>, ids: seq<string>, storeId: string)
    requires Resolves(orders, ps)
    ensures Resolves(orders, ArchiveAll(ps, ids))
    ensures GetTotalRevenue(orders, ArchiveAll(ps, ids), storeId) == GetTotalRevenue(orders, ps, storeId)
  {
    ArchiveAllSamePrices(ps, ids);
    RevenueSamePrices(orders, ps, ArchiveAll(ps, ids));
    PaidOrdersResolve(orders, ps, storeId);
    RevenueSamePrices(PaidOrders(orders, storeId), ps, ArchiveAll(ps, ids));
  }

  /** What one order row contributes to the total of a store. */
  function Contribution(o: Order, ps: seq<Product>, storeId: string): int
    requires Priced(o.items, ps)
  {
    if IsPaidIn(o, storeId) then OrderRevenue(o.items, ps) else 0
  }

  lemma TotalRevenueSplit(a: seq<Order>, x: Order, b: seq<Order>, ps: seq<Product>, storeId: string)
    requires Resolves(a, ps) && Priced(x.items, ps) && Resolves(b, ps)
    ensures Resolves(a + [x] + b, ps)
    ensures GetTotalRevenue(a + [x] + b, ps, storeId)
         == GetTotalRevenue(a, ps, storeId) + Contribution(x, ps, storeId) + GetTotalRevenue(b, ps, storeId)
  {
    PaidOrdersAppend(a + [x], b, storeId);
    PaidOrdersAppend(a, [x], storeId);
    var pa, px, pb := PaidOrders(a, storeId), PaidOrders([x], storeId), PaidOrders(b, storeId);
    assert px == if IsPaidIn(x, storeId) then [x] else [];
    PaidOrdersResolve(a, ps, storeId);
    PaidOrdersResolve(b, ps, storeId);
    RevenueAppend(pa, px, ps);
    RevenueAppend(pa + px, pb, ps);
    assert RevenueOf([x], ps) == OrderRevenue(x.items, ps) by {
      assert [x][..0] == [];
    }
  }

  /** Replacing one order row changes the total by the difference of the two rows' contributions. */
  lemma TotalRevenueUpdate(orders: seq<Order>, i: nat, o: Order, ps: seq<Product>, storeId: string)
    requires Resolves(orders, ps) && Priced(o.items, ps) && i < |orders|
    ensures Resolves(orders[i := o], ps)
    ensures GetTotalRevenue(orders[i := o], ps, storeId)
         == GetTotalRevenue(orders, ps, storeId)
            - Contribution(orders[i], ps, storeId) + Contribution(o, ps, storeId)
  {
    var a, b := orders[..i], orders[i + 1..];
    assert orders == a + [orders[i]] + b;
    assert orders[i := o] == a + [o] + b;
    assert orders[i] in orders;
    TotalRevenueSplit(a, orders[i], b, ps, storeId);
    TotalRevenueSplit(a, o, b, ps, storeId);
  }
}
