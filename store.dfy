/** The database state the settlement handler writes and the dashboard actions read.
    Each table is a sequence of rows in table order; ids are primary keys (unique per table).
    A line item is the id of the product it references (quantity is always one). */
module Store {

  datatype Option<T> = None | Some(value: T)

  /** A calendar month as `Date.getMonth()` returns it: 0 is January, 11 is December. */
  type Month = m: int | 0 <= m < 12

  /** The creation timestamp of an order, reduced to what the aggregations can observe. */
  datatype Date = Date(year: int, month: Month)

  datatype Order = Order(
    id: string,
    storeId: string,
    isPaid: bool,
    createdAt: Date,
    address: string,
    phone: string,
    items: seq<string>)

  /** `price` is an exact amount in minor currency units. */
  datatype Product = Product(id: string, storeId: string, price: nat, isArchived: bool)

  datatype Snapshot = Snapshot(orders: seq<Order>, products: seq<Product>)

  predicate UniqueOrderIds(os: seq<Order>) {
    forall i, j :: 0 <= i < j < |os| ==> os[i].id != os[j].id
  }

  predicate UniqueProductIds(ps: seq<Product>) {
    forall i, j :: 0 <= i < j < |ps| ==> ps[i].id != ps[j].id
  }

  /** The product row with the given id (the first one, which under unique ids is the only one). */
  function Lookup(ps: seq<Product>, pid: string): (r: Option<Product>)
    ensures r.Some? ==> r.value in ps && r.value.id == pid
    ensures r.None? ==> forall p :: p in ps ==> p.id != pid
  {
    if ps == [] then None
    else if ps[0].id == pid then Some(ps[0])
    else Lookup(ps[1..], pid)
  }

  /** Every line item references an existing product (the foreign key of an order item). */
  predicate Priced(items: seq<string>, ps: seq<Product>) {
    forall pid :: pid in items ==> Lookup(ps, pid).Some?
  }

  predicate Resolves(os: seq<Order>, ps: seq<Product>) {
    forall o :: o in os ==> Priced(o.items, ps)
  }

  /** What the database guarantees of every state: primary keys and foreign keys hold. */
  predicate WellFormed(db: Snapshot) {
    && UniqueOrderIds(db.orders)
    && UniqueProductIds(db.products)
    && Resolves(db.orders, db.products)
  }

  /** The current price of a referenced product, as `item.product.price` reads it. */
  function PriceOf(ps: seq<Product>, pid: string): (r: nat)
    requires Lookup(ps, pid).Some?
    ensures exists k :: 0 <= k < |ps| && ps[k].id == pid && ps[k].price == r
  {
    var p := Lookup(ps, pid).value;
    assert exists k :: 0 <= k < |ps| && ps[k] == p;
    p.price
  }

  /** The filter `{ storeId, isPaid: true }` shared by the revenue and sales-count queries. */
  predicate IsPaidIn(o: Order, storeId: string) {
    o.storeId == storeId && o.isPaid
  }

  /** The rows `order.findMany({ where: { storeId, isPaid: true } })` returns, in table order. */
  function PaidOrders(os: seq<Order>, storeId: string): (r: seq<Order>)
    ensures forall o :: o in r <==> o in os && IsPaidIn(o, storeId)
    ensures |r| <= |os|
  {
    if os == [] then []
    else (if IsPaidIn(os[0], storeId) then [os[0]] else []) + PaidOrders(os[1..], storeId)
  }

  /** The filter selects rows independently of each other, so it distributes over concatenation. */
  lemma {:induction false} PaidOrdersAppend(a: seq<Order>, b: seq<Order>, storeId: string)
    ensures PaidOrders(a + b, storeId) == PaidOrders(a, storeId) + PaidOrders(b, storeId)
  {
    if a == [] {
      assert a + b == b;
    } else {
      assert (a + b)[0] == a[0] && (a + b)[1..] == a[1..] + b;
      PaidOrdersAppend(a[1..], b, storeId);
    }
  }

  /** One row of `product.updateMany({ where: { id: { in: ids } }, data: { isArchived: true } })`. */
  function Archive(p: Product, ids: seq<string>): (r: Product)
    ensures r.id == p.id && r.storeId == p.storeId && r.price == p.price
    ensures r.isArchived <==> p.isArchived || p.id in ids
  {
    if p.id in ids then p.(isArchived := true) else p
  }

  /** The whole `updateMany`: every row whose id is listed is archived, in any store. */
  function ArchiveAll(ps: seq<Product>, ids: seq<string>): (r: seq<Product>)
    ensures |r| == |ps|
    ensures forall k :: 0 <= k < |ps| ==> r[k] == Archive(ps[k], ids)
  {
    seq(|ps|, k requires 0 <= k < |ps| => Archive(ps[k], ids))
  }

  lemma ArchiveAllCons(ps: seq<Product>, ids: seq<string>)
    requires ps != []
    ensures ArchiveAll(ps, ids) == [Archive(ps[0], ids)] + ArchiveAll(ps[1..], ids)
  {
  }

  /** Two catalogs that differ at most in their archived flags (and store ids) price every item alike. */
  predicate SamePrices(ps: seq<Product>, qs: seq<Product>) {
    |ps| == |qs| && forall k :: 0 <= k < |ps| ==> ps[k].id == qs[k].id && ps[k].price == qs[k].price
  }

  lemma {:induction false} LookupSamePrices(ps: seq<Product>, qs: seq<Product>, pid: string)
    requires SamePrices(ps, qs)
    ensures Lookup(ps, pid).Some? == Lookup(qs, pid).Some?
    ensures Lookup(ps, pid).Some? ==> Lookup(ps, pid).value.price == Lookup(qs, pid).value.price
  {
    if ps != [] {
      assert ps[0].id == qs[0].id;
      assert SamePrices(ps[1..], qs[1..]) by {
        forall k | 0 <= k < |ps| - 1
          ensures ps[1..][k].id == qs[1..][k].id && ps[1..][k].price == qs[1..][k].price
        {
          assert ps[1..][k] == ps[k + 1] && qs[1..][k] == qs[k + 1];
        }
      }
      LookupSamePrices(ps[1..], qs[1..], pid);
    }
  }

  lemma ArchiveAllSamePrices(ps: seq<Product>, ids: seq<string>)
    ensures SamePrices(ps, ArchiveAll(ps, ids))
  {
  }
}
