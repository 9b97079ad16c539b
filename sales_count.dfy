/** `getSalesCount`: the number of paid orders of a store. */
module SalesCount {
  import opened Store

  /** `order.count({ where: { storeId, isPaid: true } })`. Reads only the orders table. */
  function GetSalesCount(os: seq<Order>, storeId: string): (r: nat)
    ensures r <= StoreOrderCount(os, storeId) <= |os|
  {
    if os == [] then 0
    else (if IsPaidIn(os[0], storeId) then 1 else 0) + GetSalesCount(os[1..], storeId)
  }

  /** The number of orders of a store, paid or not. */
  function StoreOrderCount(os: seq<Order>, storeId: string): (r: nat)
    ensures r <= |os|
  {
    if os == [] then 0
    else (if os[0].storeId == storeId then 1 else 0) + StoreOrderCount(os[1..], storeId)
  }

  /** The count uses the same filter as the revenue queries, so it counts exactly the orders whose
      revenue `getTotalRevenue` and `getGraphRevenue` sum. */
  lemma {:induction false} SalesCountIsPaidOrders(os: seq<Order>, storeId: string)
    ensures GetSalesCount(os, storeId) == |PaidOrders(os, storeId)|
  {
    if os != [] {
      SalesCountIsPaidOrders(os[1..], storeId);
    }
  }

  /** The ids of the paid orders of a store. */
  function PaidOrderIds(os: seq<Order>, storeId: string): set<string> {
    set o | o in os && IsPaidIn(o, storeId) :: o.id
  }

  lemma HeadIdNotInTail(os: seq<Order>)
    requires os != [] && UniqueOrderIds(os)
    ensures forall o :: o in os[1..] ==> o.id != os[0].id
  {
    forall o | o in os[1..] ensures o.id != os[0].id {
      var k :| 0 <= k < |os[1..]| && os[1..][k] == o;
      assert os[k + 1] == o;
    }
  }

  /** Under unique order ids the count is the number of distinct paid orders of the store. */
  lemma {:induction false} SalesCountIsCardinality(os: seq<Order>, storeId: string)
    requires UniqueOrderIds(os)
    ensures GetSalesCount(os, storeId) == |PaidOrderIds(os, storeId)|
  {
    if os != [] {
      var rest := os[1..];
      assert UniqueOrderIds(rest) by {
        forall i, j | 0 <= i < j < |rest| ensures rest[i].id != rest[j].id {
          assert rest[i] == os[i + 1] && rest[j] == os[j + 1];
        }
      }
      SalesCountIsCardinality(rest, storeId);
      HeadIdNotInTail(os);
      assert os == [os[0]] + rest;
      assert forall o :: o in os <==> o == os[0] || o in rest;
      if IsPaidIn(os[0], storeId) {
        assert PaidOrderIds(os, storeId) == {os[0].id} + PaidOrderIds(rest, storeId);
        assert os[0].id !in PaidOrderIds(rest, storeId);
      } else {
        assert PaidOrderIds(os, storeId) == PaidOrderIds(rest, storeId);
      }
    }
  }

  /** Replacing one order row changes the count by the difference of the two rows' memberships. */
  lemma {:induction false} SalesCountUpdate(os: seq<Order>, i: nat, o: Order, storeId: string)
    requires i < |os|
    ensures GetSalesCount(os[i := o], storeId)
         == GetSalesCount(os, storeId)
            - (if IsPaidIn(os[i], storeId) then 1 else 0)
            + (if IsPaidIn(o, storeId) then 1 else 0)
  {
    if i > 0 {
      assert os[i := o][1..] == os[1..][i - 1 := o];
      SalesCountUpdate(os[1..], i - 1, o, storeId);
    } else {
      assert os[i := o][1..] == os[1..];
    }
  }
}
