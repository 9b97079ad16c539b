/** `getStockCount`: the number of products of a store that are not archived. */
module StockCount {
  import opened Store

  predicate InStock(p: Product, storeId: string) {
    p.storeId == storeId && !p.isArchived
  }

  /** `product.count({ where: { storeId, isArchived: false } })`. Reads only the products table. */
  function GetStockCount(ps: seq<Product>, storeId: string): (r: nat)
    ensures r <= StoreProductCount(ps, storeId) <= |ps|
  {
    if ps == [] then 0
    else (if InStock(ps[0], storeId) then 1 else 0) + GetStockCount(ps[1..], storeId)
  }

  /** The number of products of a store, archived or not. */
  function StoreProductCount(ps: seq<Product>, storeId: string): (r: nat)
    ensures r <= |ps|
  {
    if ps == [] then 0
    else (if ps[0].storeId == storeId then 1 else 0) + StoreProductCount(ps[1..], storeId)
  }

  /** The ids of the in-stock products of a store. */
  function InStockIds(ps: seq<Product>, storeId: string): set<string> {
    set p | p in ps && InStock(p, storeId) :: p.id
  }

  lemma TailIsUnique(ps: seq<Product>)
    requires ps != [] && UniqueProductIds(ps)
    ensures UniqueProductIds(ps[1..])
    ensures forall p :: p in ps[1..] ==> p.id != ps[0].id
    ensures Lookup(ps[1..], ps[0].id) == None
  {
    var rest := ps[1..];
    forall i, j | 0 <= i < j < |rest| ensures rest[i].id != rest[j].id {
      assert rest[i] == ps[i + 1] && rest[j] == ps[j + 1];
    }
    forall p | p in rest ensures p.id != ps[0].id {
      var k :| 0 <= k < |rest| && rest[k] == p;
      assert ps[k + 1] == p;
    }
  }

  /** Under unique product ids the count is the number of distinct in-stock products of the store. */
  lemma {:induction false} StockCountIsCardinality(ps: seq<Product>, storeId: string)
    requires UniqueProductIds(ps)
    ensures GetStockCount(ps, storeId) == |InStockIds(ps, storeId)|
  {
    if ps != [] {
      var rest := ps[1..];
      TailIsUnique(ps);
      StockCountIsCardinality(rest, storeId);
      assert ps == [ps[0]] + rest;
      assert forall p :: p in ps <==> p == ps[0] || p in rest;
      if InStock(ps[0], storeId) {
        assert InStockIds(ps, storeId) == {ps[0].id} + InStockIds(rest, storeId);
        assert ps[0].id !in InStockIds(rest, storeId);
      } else {
        assert InStockIds(ps, storeId) == InStockIds(rest, storeId);
      }
    }
  }

  /** The distinct listed ids that name an in-stock product of the store: the products an
      archiving `updateMany` over `ids` takes out of stock. */
  function NewlyArchived(ps: seq<Product>, ids: seq<string>, storeId: string): set<string> {
    set pid | pid in ids && Lookup(ps, pid).Some? && InStock(Lookup(ps, pid).value, storeId)
  }

  /** Peeling off the first product: it is newly archived exactly when it is listed and in stock,
      and it is not newly archived again further down. */
  lemma NewlyArchivedCons(ps: seq<Product>, ids: seq<string>, storeId: string)
    requires ps != [] && UniqueProductIds(ps)
    ensures |NewlyArchived(ps, ids, storeId)|
         == (if ps[0].id in ids && InStock(ps[0], storeId) then 1 else 0) + |NewlyArchived(ps[1..], ids, storeId)|
  {
    var p, rest := ps[0], ps[1..];
    TailIsUnique(ps);
    var before, after := NewlyArchived(ps, ids, storeId), NewlyArchived(rest, ids, storeId);
    assert after == before - {p.id} by {
      forall pid ensures pid in after <==> pid in before && pid != p.id {
        if pid != p.id {
          assert Lookup(ps, pid) == Lookup(rest, pid);
        }
      }
    }
    assert p.id in before <==> p.id in ids && InStock(p, storeId);
  }

  /** Archiving the listed products lowers the count by the number of distinct listed ids that
      were in stock in this store; products of other stores and products already archived do not
      change it. */
  lemma {:induction false} StockCountAfterArchive(ps: seq<Product>, ids: seq<string>, storeId: string)
    requires UniqueProductIds(ps)
    ensures GetStockCount(ArchiveAll(ps, ids), storeId) + |NewlyArchived(ps, ids, storeId)|
         == GetStockCount(ps, storeId)
  {
    if ps != [] {
      var p, rest := ps[0], ps[1..];
      TailIsUnique(ps);
      StockCountAfterArchive(rest, ids, storeId);
      NewlyArchivedCons(ps, ids, storeId);
      ArchiveAllCons(ps, ids);
      var qs := ArchiveAll(ps, ids);
      assert qs[0] == Archive(p, ids) && qs[1..] == ArchiveAll(rest, ids);
    }
  }

  /** Archiving never puts a product back in stock, so it never raises the count. */
  lemma {:induction false} ArchiveNeverIncreasesStock(ps: seq<Product>, ids: seq<string>, storeId: string)
    ensures GetStockCount(ArchiveAll(ps, ids), storeId) <= GetStockCount(ps, storeId)
  {
    if ps != [] {
      ArchiveAllCons(ps, ids);
      assert ArchiveAll(ps, ids)[1..] == ArchiveAll(ps[1..], ids);
      ArchiveNeverIncreasesStock(ps[1..], ids, storeId);
    }
  }
}
