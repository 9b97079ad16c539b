/** The payment webhook `POST` handler: after the processor's signature check, a
    "checkout.session.completed" event marks its order paid, records the customer's address and
    phone, and archives every product the order references. */
module Webhook {
  import opened Store
  import opened TotalRevenue
  import opened SalesCount
  import opened StockCount

  /** A JavaScript value read through optional chaining: `null`, `undefined` or a string. */
  datatype Field = Null | Undefined | Value(s: string)

  datatype Address = Address(
    line1: Field, line2: Field, city: Field, state: Field, postalCode: Field, country: Field)

  /** The parts of the checkout session the handler reads. `address` is `None` when the session has
      no customer details or no address; `orderId` is `metadata.orderId`, absent or present. */
  datatype Session = Session(address: Option<Address>, phone: Field, orderId: Option<string>)

  /** The exception a failed `order.update` raises: no id to select by, or no row with that id. */
  datatype Failure = MissingOrderId | OrderNotFound

  /** A response with a status code, or an exception that escapes the handler (a server error). */
  datatype Reply = Status(code: int) | Thrown(failure: Failure)

  datatype Outcome = Outcome(reply: Reply, db: Snapshot)

  const CheckoutCompleted: string := "checkout.session.completed"

  const Separator: string := ", "

  /** The handler's array of address components: six in a fixed order. With no address every
      `address?.x` is `undefined`. */
  function Components(a: Option<Address>): (cs: seq<Field>)
    ensures |cs| == 6
    ensures a.None? ==> forall k :: 0 <= k < 6 ==> cs[k] == Undefined
  {
    match a
    case None => [Undefined, Undefined, Undefined, Undefined, Undefined, Undefined]
    case Some(x) => [x.line1, x.line2, x.city, x.state, x.postalCode, x.country]
  }

  /** `filter((c) => c !== null)`: removes `null` and nothing else, keeping the order. */
  function DropNulls(cs: seq<Field>): (r: seq<Field>)
    ensures |r| <= |cs|
  {
    if cs == [] then []
    else (if cs[0] == Null then [] else [cs[0]]) + DropNulls(cs[1..])
  }

  /** Every non-null component is kept as often as it occurs, and no `null` is. */
  lemma {:induction false} DropNullsCounts(cs: seq<Field>)
    ensures multiset(DropNulls(cs)) == multiset(cs)[Null := 0]
  {
    if cs != [] {
      assert cs == [cs[0]] + cs[1..];
      DropNullsCounts(cs[1..]);
    }
  }

  lemma {:induction false} DropNullsAppend(a: seq<Field>, b: seq<Field>)
    ensures DropNulls(a + b) == DropNulls(a) + DropNulls(b)
  {
    if a == [] {
      assert a + b == b;
    } else {
      var head := if a[0] == Null then [] else [a[0]];
      assert (a + b)[0] == a[0] && (a + b)[1..] == a[1..] + b;
      assert DropNulls(a + b) == head + DropNulls(a[1..] + b);
      DropNullsAppend(a[1..], b);
      assert head + (DropNulls(a[1..]) + DropNulls(b)) == (head + DropNulls(a[1..])) + DropNulls(b);
    }
  }

  /** How `Array.prototype.join` renders an element: `null` and `undefined` as the empty string. */
  function Render(f: Field): (r: string)
    ensures f.Value? ==> r == f.s
    ensures !f.Value? ==> r == ""
  {
    match f
    case Value(s) => s
    case _ => ""
  }

  /** `Array.prototype.join(sep)`. */
  function Join(fs: seq<Field>, sep: string): (r: string)
    ensures fs == [] ==> r == ""
    ensures |fs| == 1 ==> r == Render(fs[0])
    ensures fs != [] ==> |r| >= (|fs| - 1) * |sep|
  {
    if fs == [] then ""
    else if |fs| == 1 then Render(fs[0])
    else Render(fs[0]) + sep + Join(fs[1..], sep)
  }

  /** Joining two non-empty arrays puts exactly one separator between their joins. */
  lemma {:induction false} JoinAppend(a: seq<Field>, b: seq<Field>, sep: string)
    requires a != [] && b != []
    ensures Join(a + b, sep) == Join(a, sep) + sep + Join(b, sep)
  {
    assert (a + b)[0] == a[0];
    if |a| == 1 {
      assert (a + b)[1..] == b;
    } else {
      assert (a + b)[1..] == a[1..] + b;
      JoinAppend(a[1..], b, sep);
    }
  }

  lemma {:induction false} DropNullsKeepsNonNull(cs: seq<Field>)
    requires forall k :: 0 <= k < |cs| ==> cs[k] != Null
    ensures DropNulls(cs) == cs
  {
    if cs != [] {
      DropNullsKeepsNonNull(cs[1..]);
    }
  }

  lemma DropNullsOfNulls(cs: seq<Field>)
    requires forall k :: 0 <= k < |cs| ==> cs[k] == Null
    ensures DropNulls(cs) == []
  {
    DropNullsCounts(cs);
    assert multiset(cs)[Null := 0] == multiset{} by {
      forall f | f in multiset(cs) ensures f == Null {
        assert f in cs;
      }
    }
    assert |multiset(DropNulls(cs))| == 0;
  }

  /** Joining six elements. */
  lemma JoinSix(cs: seq<Field>, sep: string)
    requires |cs| == 6
    ensures Join(cs, sep) == Render(cs[0]) + sep + Render(cs[1]) + sep + Render(cs[2]) + sep
                           + Render(cs[3]) + sep + Render(cs[4]) + sep + Render(cs[5])
  {
    assert cs[1..][1..] == cs[2..] && cs[2..][1..] == cs[3..] && cs[3..][1..] == cs[4..];
    assert cs[4..][1..] == cs[5..];
    assert Join(cs[5..], sep) == Render(cs[5]);
    assert Join(cs[4..], sep) == Render(cs[4]) + sep + Render(cs[5]);
    assert Join(cs[3..], sep) == Render(cs[3]) + sep + Join(cs[4..], sep);
    assert Join(cs[2..], sep) == Render(cs[2]) + sep + Join(cs[3..], sep);
    assert Join(cs[1..], sep) == Render(cs[1]) + sep + Join(cs[2..], sep);
  }

  /** The two ends of the filter on six components: none `null`, or all `null`. */
  lemma SixComponents(cs: seq<Field>)
    requires |cs| == 6
    ensures (forall k :: 0 <= k < 6 ==> cs[k] != Null) ==>
      Join(DropNulls(cs), Separator) == Render(cs[0]) + ", " + Render(cs[1]) + ", " + Render(cs[2]) + ", "
                                      + Render(cs[3]) + ", " + Render(cs[4]) + ", " + Render(cs[5])
    ensures (forall k :: 0 <= k < 6 ==> cs[k] == Null) ==> Join(DropNulls(cs), Separator) == ""
  {
    if forall k :: 0 <= k < 6 ==> cs[k] != Null {
      DropNullsKeepsNonNull(cs);
      JoinSix(cs, Separator);
    }
    if forall k :: 0 <= k < 6 ==> cs[k] == Null {
      DropNullsOfNulls(cs);
    }
  }

  /** The address string the handler stores: the components without `null`, joined by ", ".
      With no `null` component all six appear in order line1, line2, city, state, postal code,
      country, `undefined` ones as empty strings between their separators; with only `null`
      components the string is empty. */
  function AddressString(a: Option<Address>): (r: string)
    ensures var cs := Components(a);
      (forall k :: 0 <= k < 6 ==> cs[k] != Null) ==>
        r == Render(cs[0]) + ", " + Render(cs[1]) + ", " + Render(cs[2]) + ", "
           + Render(cs[3]) + ", " + Render(cs[4]) + ", " + Render(cs[5])
    ensures var cs := Components(a);
      (forall k :: 0 <= k < 6 ==> cs[k] == Null) ==> r == ""
  {
    SixComponents(Components(a));
    Join(DropNulls(Components(a)), Separator)
  }

  /** A session without an address still yields five separators: ", , , , , ". */
  lemma MissingAddress()
    ensures AddressString(None) == ", , , , , "
  {
  }

  /** An address whose six components are all `null` yields the empty string. */
  lemma AllNullAddress()
    ensures AddressString(Some(Address(Null, Null, Null, Null, Null, Null))) == ""
  {
  }

  /** The components a `null` second line and `null` later fields leave. */
  lemma DropNullsOfSparse(x: Field, y: Field, z: Field)
    requires x != Null && z != Null
    ensures DropNulls([x, y, z, Null, Null, Null]) == if y == Null then [x, z] else [x, y, z]
  {
    var cs := [x, y, z, Null, Null, Null];
    assert DropNulls(cs[3..]) == [] by { DropNullsOfNulls(cs[3..]); }
    assert cs[2..][0] == z && cs[2..][1..] == cs[3..];
    assert DropNulls(cs[2..]) == [z];
    assert cs[1..][0] == y && cs[1..][1..] == cs[2..];
    assert DropNulls(cs[1..]) == (if y == Null then [] else [y]) + [z];
  }

  /** A `null` component vanishes together with its separator. */
  lemma NullLine2IsDropped(line1: string, city: string)
    ensures AddressString(Some(Address(Value(line1), Null, Value(city), Null, Null, Null))) == line1 + ", " + city
  {
    DropNullsOfSparse(Value(line1), Null, Value(city));
    assert Components(Some(Address(Value(line1), Null, Value(city), Null, Null, Null)))
        == [Value(line1), Null, Value(city), Null, Null, Null];
    var kept := [Value(line1), Value(city)];
    assert kept[1..] == [Value(city)];
    assert Join(kept, Separator) == line1 + Separator + city;
  }

  lemma ConcatSeparators(x: string, y: string)
    ensures x + Separator + ("" + Separator + y) == x + ", , " + y
  {
  }

  /** An `undefined` component is kept and rendered empty, leaving two adjacent separators. */
  lemma UndefinedLine2IsKept(line1: string, city: string)
    ensures AddressString(Some(Address(Value(line1), Undefined, Value(city), Null, Null, Null))) == line1 + ", , " + city
  {
    DropNullsOfSparse(Value(line1), Undefined, Value(city));
    assert Components(Some(Address(Value(line1), Undefined, Value(city), Null, Null, Null)))
        == [Value(line1), Undefined, Value(city), Null, Null, Null];
    var kept := [Value(line1), Undefined, Value(city)];
    assert kept[1..] == [Undefined, Value(city)] && kept[1..][1..] == [Value(city)];
    assert Join(kept[1..], Separator) == "" + Separator + city;
    assert Join(kept, Separator) == line1 + Separator + ("" + Separator + city);
    ConcatSeparators(line1, city);
  }

  /** `session?.customer_details?.phone || ""`: `null`, `undefined` and the empty string all give "". */
  function PhoneString(f: Field): (r: string)
    ensures f.Value? && f.s != "" ==> r == f.s
    ensures !f.Value? || f.s == "" ==> r == ""
  {
    if f.Value? && f.s != "" then f.s else ""
  }

  /** The row `order.update({ where: { id } })` selects: the first, and under unique ids the only,
      order with that id. */
  function FindOrder(os: seq<Order>, id: string): (r: Option<nat>)
    ensures r.Some? ==> r.value < |os| && os[r.value].id == id
    ensures r.Some? ==> forall k :: 0 <= k < r.value ==> os[k].id != id
    ensures r.None? <==> forall k :: 0 <= k < |os| ==> os[k].id != id
  {
    if os == [] then None
    else if os[0].id == id then Some(0)
    else match FindOrder(os[1..], id)
      case None => None
      case Some(k) => Some(k + 1)
  }

  /** The order row after the `update`'s data is applied. */
  function PaidOrder(o: Order, session: Session): (r: Order)
    ensures r.isPaid && r.address == AddressString(session.address) && r.phone == PhoneString(session.phone)
    ensures r.id == o.id && r.storeId == o.storeId && r.createdAt == o.createdAt && r.items == o.items
  {
    o.(isPaid := true, address := AddressString(session.address), phone := PhoneString(session.phone))
  }

  /** The whole handler as a state transition: the reply and the database afterwards. */
  function Settle(db: Snapshot, sigOk: bool, eventType: string, session: Session): (r: Outcome)
    ensures !sigOk ==> r == Outcome(Status(400), db)
    ensures sigOk && eventType != CheckoutCompleted ==> r == Outcome(Status(200), db)
    ensures r.reply != Status(200) ==> r.db == db
    ensures r.reply == Status(200) || r.reply == Status(400) || r.reply.Thrown?
    ensures sigOk && eventType == CheckoutCompleted && session.orderId.None? ==>
      r == Outcome(Thrown(MissingOrderId), db)
    ensures (&& sigOk && eventType == CheckoutCompleted && session.orderId.Some?
             && forall k :: 0 <= k < |db.orders| ==> db.orders[k].id != session.orderId.value) ==>
      r == Outcome(Thrown(OrderNotFound), db)
  {
    if !sigOk then Outcome(Status(400), db)
    else if eventType != CheckoutCompleted then Outcome(Status(200), db)
    else if session.orderId.None? then Outcome(Thrown(MissingOrderId), db)
    else match FindOrder(db.orders, session.orderId.value)
      case None => Outcome(Thrown(OrderNotFound), db)
      case Some(i) =>
        var order := PaidOrder(db.orders[i], session);
        Outcome(Status(200), Snapshot(db.orders[i := order], ArchiveAll(db.products, order.items)))
  }

  /** Under unique order ids a completed event for an existing order selects that order. */
  lemma FindsTheOrder(os: seq<Order>, i: nat)
    requires UniqueOrderIds(os) && i < |os|
    ensures FindOrder(os, os[i].id) == Some(i)
  {
  }

  /** A completed event for an existing order: that order and no other is paid with the session's
      address and phone, every product it references is archived whatever its store, and nothing
      else about any product changes. */
  lemma SettleCompleted(db: Snapshot, session: Session, i: nat)
    requires UniqueOrderIds(db.orders) && i < |db.orders|
    requires session.orderId == Some(db.orders[i].id)
    ensures var r := Settle(db, true, CheckoutCompleted, session);
      && r.reply == Status(200)
      && |r.db.orders| == |db.orders|
      && r.db.orders[i].isPaid
      && r.db.orders[i].address == AddressString(session.address)
      && r.db.orders[i].phone == PhoneString(session.phone)
      && r.db.orders[i] == db.orders[i].(isPaid := r.db.orders[i].isPaid,
                                         address := r.db.orders[i].address,
                                         phone := r.db.orders[i].phone)
      && (forall k :: 0 <= k < |db.orders| && k != i ==> r.db.orders[k] == db.orders[k])
      && |r.db.products| == |db.products|
      && (forall k :: 0 <= k < |db.products| ==>
            r.db.products[k] == db.products[k].(isArchived := db.products[k].isArchived
                                                 || db.products[k].id in db.orders[i].items))
  {
    FindsTheOrder(db.orders, i);
  }

  lemma ArchiveAllIdempotent(ps: seq<Product>, ids: seq<string>)
    ensures ArchiveAll(ArchiveAll(ps, ids), ids) == ArchiveAll(ps, ids)
  {
  }

  /** The state after a completed event whose order was found at index i. */
  lemma SettleSelects(db: Snapshot, session: Session, i: nat)
    requires session.orderId.Some? && FindOrder(db.orders, session.orderId.value) == Some(i)
    ensures Settle(db, true, CheckoutCompleted, session)
         == Outcome(Status(200), Snapshot(db.orders[i := PaidOrder(db.orders[i], session)],
                                          ArchiveAll(db.products, db.orders[i].items)))
  {
  }

  /** Rewriting the selected row without changing its id selects the same row again. */
  lemma FindOrderAfterUpdate(os: seq<Order>, id: string, i: nat, o: Order)
    requires FindOrder(os, id) == Some(i) && o.id == id
    ensures FindOrder(os[i := o], id) == Some(i)
  {
    var os' := os[i := o];
    assert os'[i].id == id;
    assert forall k :: 0 <= k < i ==> os'[k] == os[k];
  }

  /** A redelivered event leaves the state and the reply as the first delivery did: every write
      is a plain assignment. */
  lemma SettleIdempotent(db: Snapshot, sigOk: bool, eventType: string, session: Session)
    ensures var once := Settle(db, sigOk, eventType, session);
      Settle(once.db, sigOk, eventType, session) == once
  {
    if sigOk && eventType == CheckoutCompleted && session.orderId.Some? {
      var id := session.orderId.value;
      var found := FindOrder(db.orders, id);
      if found.Some? {
        var i := found.value;
        var order := PaidOrder(db.orders[i], session);
        SettleSelects(db, session, i);
        var once := Snapshot(db.orders[i := order], ArchiveAll(db.products, order.items));
        FindOrderAfterUpdate(db.orders, id, i, order);
        SettleSelects(once, session, i);
        assert PaidOrder(order, session) == order;
        assert once.orders[i := order] == once.orders;
        ArchiveAllIdempotent(db.products, order.items);
      }
    }
  }

  /** Rewriting one order row without touching its id or its line items, and archiving products,
      keeps every database guarantee. */
  lemma UpdateKeepsWellFormed(db: Snapshot, i: nat, o: Order, ids: seq<string>)
    requires WellFormed(db) && i < |db.orders|
    requires o.id == db.orders[i].id && o.items == db.orders[i].items
    ensures WellFormed(Snapshot(db.orders[i := o], ArchiveAll(db.products, ids)))
  {
    var os, ps := db.orders[i := o], ArchiveAll(db.products, ids);
    assert UniqueOrderIds(os) by {
      forall a, b | 0 <= a < b < |os| ensures os[a].id != os[b].id {
        assert os[a].id == db.orders[a].id && os[b].id == db.orders[b].id;
      }
    }
    ArchiveAllSamePrices(db.products, ids);
    assert db.orders[i] in db.orders;
    forall x | x in os ensures Priced(x.items, ps) {
      assert x in db.orders || x.items == db.orders[i].items;
      forall pid | pid in x.items ensures Lookup(ps, pid).Some? {
        LookupSamePrices(db.products, ps, pid);
      }
    }
  }

  /** Settlement keeps every database guarantee: ids are untouched, line items are untouched and
      archived products still resolve. */
  lemma SettlePreservesWellFormed(db: Snapshot, sigOk: bool, eventType: string, session: Session)
    requires WellFormed(db)
    ensures WellFormed(Settle(db, sigOk, eventType, session).db)
  {
    if sigOk && eventType == CheckoutCompleted && session.orderId.Some? {
      var found := FindOrder(db.orders, session.orderId.value);
      if found.Some? {
        var i := found.value;
        SettleSelects(db, session, i);
        UpdateKeepsWellFormed(db, i, PaidOrder(db.orders[i], session), db.orders[i].items);
      }
    }
  }

  /** Settling an order of the store that was unpaid raises the sales count by one; settling one
      that was already paid, or an order of another store, leaves it as it was. */
  lemma SettleSalesCount(db: Snapshot, session: Session, i: nat, storeId: string)
    requires UniqueOrderIds(db.orders) && i < |db.orders|
    requires session.orderId == Some(db.orders[i].id)
    ensures GetSalesCount(Settle(db, true, CheckoutCompleted, session).db.orders, storeId)
         == GetSalesCount(db.orders, storeId)
            + (if db.orders[i].storeId == storeId && !db.orders[i].isPaid then 1 else 0)
  {
    FindsTheOrder(db.orders, i);
    SalesCountUpdate(db.orders, i, PaidOrder(db.orders[i], session), storeId);
  }

  /** Settling an order lowers the stock count by the number of distinct products it references
      that belonged to this store and were not yet archived. */
  lemma SettleStockCount(db: Snapshot, session: Session, i: nat, storeId: string)
    requires UniqueOrderIds(db.orders) && UniqueProductIds(db.products) && i < |db.orders|
    requires session.orderId == Some(db.orders[i].id)
    ensures GetStockCount(Settle(db, true, CheckoutCompleted, session).db.products, storeId)
            + |NewlyArchived(db.products, db.orders[i].items, storeId)|
         == GetStockCount(db.products, storeId)
  {
    FindsTheOrder(db.orders, i);
    StockCountAfterArchive(db.products, db.orders[i].items, storeId);
  }

  /** Whatever the event, settlement never raises the stock count. */
  lemma SettleNeverIncreasesStock(db: Snapshot, sigOk: bool, eventType: string, session: Session, storeId: string)
    ensures GetStockCount(Settle(db, sigOk, eventType, session).db.products, storeId)
         <= GetStockCount(db.products, storeId)
  {
    var r := Settle(db, sigOk, eventType, session);
    if r.db != db {
      var i := FindOrder(db.orders, session.orderId.value).value;
      ArchiveNeverIncreasesStock(db.products, PaidOrder(db.orders[i], session).items, storeId);
    }
  }

  /** A repeated delivery changes neither dashboard counter. */
  lemma SettleTwiceKeepsCounts(db: Snapshot, sigOk: bool, eventType: string, session: Session, storeId: string)
    ensures var once := Settle(db, sigOk, eventType, session).db;
      var twice := Settle(once, sigOk, eventType, session).db;
      && GetStockCount(twice.products, storeId) == GetStockCount(once.products, storeId)
      && GetSalesCount(twice.orders, storeId) == GetSalesCount(once.orders, storeId)
  {
    SettleIdempotent(db, sigOk, eventType, session);
  }

  /** Settling an unpaid order of the store adds that order's revenue to the store's total, and
      the archiving that comes with it takes nothing away. */
  lemma SettleTotalRevenue(db: Snapshot, session: Session, i: nat, storeId: string)
    requires WellFormed(db) && i < |db.orders|
    requires session.orderId == Some(db.orders[i].id)
    requires db.orders[i] in db.orders
    ensures var after := Settle(db, true, CheckoutCompleted, session).db;
      && Resolves(after.orders, after.products)
      && GetTotalRevenue(after.orders, after.products, storeId)
         == GetTotalRevenue(db.orders, db.products, storeId)
            + (if db.orders[i].storeId == storeId && !db.orders[i].isPaid
               then OrderRevenue(db.orders[i].items, db.products) else 0)
  {
    FindsTheOrder(db.orders, i);
    var order := PaidOrder(db.orders[i], session);
    SettlePreservesWellFormed(db, true, CheckoutCompleted, session);
    TotalRevenueUpdate(db.orders, i, order, db.products, storeId);
    TotalRevenueIgnoresArchived(db.orders[i := order], db.products, order.items, storeId);
  }

  /** The database the handler writes to: the orders table and the products table. */
  class Database {
    var orders: seq<Order>
    var products: seq<Product>

    ghost predicate Valid()
      reads this
    {
      WellFormed(State())
    }

    function State(): Snapshot
      reads this
    {
      Snapshot(orders, products)
    }

    constructor (db: Snapshot)
      requires WellFormed(db)
      ensures Valid() && State() == db
    {
      orders := db.orders;
      products := db.products;
    }

    /** `POST` on the webhook route. `sigOk` is the outcome of the processor's signature check of
        the raw body; `eventType` and `session` are the verified event's type and payload. */
    method HandleWebhook(sigOk: bool, eventType: string, session: Session) returns (reply: Reply)
      requires Valid()
      modifies this
      ensures Valid()
      ensures Outcome(reply, State()) == Settle(old(State()), sigOk, eventType, session)
    {
      ghost var before := State();
      SettlePreservesWellFormed(before, sigOk, eventType, session);
      if !sigOk {
        return Status(400);
      }
      var addressString := AddressString(session.address);
      if eventType == CheckoutCompleted {
        if session.orderId.None? {
          return Thrown(MissingOrderId);
        }
        var found := FindOrder(orders, session.orderId.value);
        if found.None? {
          return Thrown(OrderNotFound);
        }
        var i := found.value;
        orders := orders[i := orders[i].(isPaid := true, address := addressString,
                                         phone := PhoneString(session.phone))];
        var productIds := orders[i].items;
        products := ArchiveAll(products, productIds);
      }
      return Status(200);
    }
  }
}
