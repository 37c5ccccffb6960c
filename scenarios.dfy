/**
 Scenarios of the allocator's unit tests, stated on the reference scan for
 single-item orders.
 */
module Scenarios {
  import opened Inventory
  import opened Warehouses
  import opened Allocator

  /** One warehouse pass over an order and a stock that both hold only item `n`. */
  lemma FulfilSingle(n: string, q: int, s: int)
    ensures var p := FulfilAll(map[n := q], map[n := s]);
            var take := Min(q, s);
            && p.shipped == map[n := take]
            && p.order == (if take >= q then map[] else map[n := q - take])
            && p.stock == (if take >= s then map[] else map[n := s - take])
  {
    var t := Takes(map[n := q], map[n := s]);
    assert t.Keys == {n};
    assert t == map[n := Min(q, s)];
  }

  /**
   A single warehouse holding 0 of the one item ordered: the item matches,
   the warehouse loses the key, and as the order stays open nothing is reported.
   */
  lemma ZeroStockShipsNothing(w: Warehouse)
    ensures Allocate(map["apple" := 1], [w], map[w := map["apple" := 0]], [])
            == Allocation([], map["apple" := 1], map[w := map[]])
  {
    FulfilSingle("apple", 1, 0);
  }

  /** An item split across two warehouses: each ships what it holds, in list order. */
  lemma SplitAcrossWarehouses(w1: Warehouse, w2: Warehouse)
    requires w1 != w2
    ensures Allocate(map["apple" := 10], [w1, w2], map[w1 := map["apple" := 5], w2 := map["apple" := 5]], []).shipments
            == [Parcel(w1.warehouseName, map["apple" := 5]), Parcel(w2.warehouseName, map["apple" := 5])]
  {
    var ws, stock := [w1, w2], map[w1 := map["apple" := 5], w2 := map["apple" := 5]];
    FulfilSingle("apple", 10, 5);
    FulfilSingle("apple", 5, 5);
    AllocateStep(map["apple" := 10], ws, 0, stock, []);
    AllocateStep(map["apple" := 5], ws, 1, stock[w1 := map[]], [Parcel(w1.warehouseName, map["apple" := 5])]);
    assert "apple" in map["apple" := 5];
    assert ws[0..] == ws;
  }

  /** The first warehouse of the two-warehouse test: it ships all it holds. */
  lemma ManyItemsFirstPass()
    ensures FulfilAll(map["apple" := 60, "orange" := 300], map["apple" := 15, "orange" := 200])
            == Pass(map["apple" := 15, "orange" := 200], map["apple" := 45, "orange" := 100], map[])
  {
    var o, s := map["apple" := 60, "orange" := 300], map["apple" := 15, "orange" := 200];
    var t := Takes(o, s);
    assert t.Keys == {"apple", "orange"};
    assert t == map["apple" := 15, "orange" := 200];
    assert Consume(o, t).Keys == {"apple", "orange"};
    assert Consume(s, t).Keys == {};
  }

  /** The second warehouse of the two-warehouse test: it ships the rest and keeps a surplus. */
  lemma ManyItemsSecondPass()
    ensures FulfilAll(map["apple" := 45, "orange" := 100], map["apple" := 50, "orange" := 100])
            == Pass(map["apple" := 45, "orange" := 100], map[], map["apple" := 5])
  {
    var o, s := map["apple" := 45, "orange" := 100], map["apple" := 50, "orange" := 100];
    var t := Takes(o, s);
    assert t.Keys == {"apple", "orange"};
    assert t == map["apple" := 45, "orange" := 100];
    assert Consume(o, t).Keys == {};
    assert Consume(s, t).Keys == {"apple"};
  }

  /**
   Two items over two warehouses: the first ships all it holds, the second
   ships the rest and keeps what was left over.
   */
  lemma ManyItemsTwoWarehouses(w1: Warehouse, w2: Warehouse)
    requires w1 != w2
    ensures Allocate(map["apple" := 60, "orange" := 300], [w1, w2],
                     map[w1 := map["apple" := 15, "orange" := 200], w2 := map["apple" := 50, "orange" := 100]], [])
            == Allocation([Parcel(w1.warehouseName, map["apple" := 15, "orange" := 200]),
                           Parcel(w2.warehouseName, map["apple" := 45, "orange" := 100])],
                          map[], map[w1 := map[], w2 := map["apple" := 5]])
  {
    var ws := [w1, w2];
    var stock := map[w1 := map["apple" := 15, "orange" := 200], w2 := map["apple" := 50, "orange" := 100]];
    ManyItemsFirstPass();
    ManyItemsSecondPass();
    assert "apple" in map["apple" := 15, "orange" := 200];
    assert "apple" in map["apple" := 45, "orange" := 100];
    AllocateStep(map["apple" := 60, "orange" := 300], ws, 0, stock, []);
    AllocateStep(map["apple" := 45, "orange" := 100], ws, 1, stock[w1 := map[]],
                 [Parcel(w1.warehouseName, map["apple" := 15, "orange" := 200])]);
    assert ws[0..] == ws;
  }

  /** The first visit of the aliased-warehouse test: it ships apple 40 and orange 4 and empties the warehouse. */
  lemma SameWarehouseFirstPass()
    ensures FulfilAll(map["apple" := 60, "banana" := 150, "orange" := 10], map["apple" := 40, "orange" := 4])
            == Pass(map["apple" := 40, "orange" := 4], map["apple" := 20, "banana" := 150, "orange" := 6], map[])
  {
    var o, s := map["apple" := 60, "banana" := 150, "orange" := 10], map["apple" := 40, "orange" := 4];
    var t := Takes(o, s);
    assert t.Keys == {"apple", "orange"};
    assert t == map["apple" := 40, "orange" := 4];
    assert Consume(o, t).Keys == {"apple", "banana", "orange"};
    assert Consume(s, t).Keys == {};
  }

  /**
   The same warehouse listed twice is one inventory: the first visit ships
   what it can, the second finds nothing left to match, so the order stays
   open and nothing is reported.
   */
  lemma SameWarehouseTwice(w: Warehouse)
    ensures Allocate(map["apple" := 60, "banana" := 150, "orange" := 10], [w, w],
                     map[w := map["apple" := 40, "orange" := 4]], [])
            == Allocation([], map["apple" := 20, "banana" := 150, "orange" := 6], map[w := map[]])
  {
    var ws, stock := [w, w], map[w := map["apple" := 40, "orange" := 4]];
    var o2 := map["apple" := 20, "banana" := 150, "orange" := 6];
    SameWarehouseFirstPass();
    FulfilNoMatch(o2, map[], {});
    FulfilAllApplied(o2, map[]);
    assert "apple" in o2;
    AllocateStep(map["apple" := 60, "banana" := 150, "orange" := 10], ws, 0, stock, []);
    AllocateStep(o2, ws, 1, stock[w := map[]], [Parcel(w.warehouseName, map["apple" := 40, "orange" := 4])]);
    assert ws[0..] == ws && ws[2..] == [];
  }
}
