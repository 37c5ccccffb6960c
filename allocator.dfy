/**
 The coordinator: it scans the warehouses in list order, collects the
 shipments they produce, stops as soon as the order is empty, and reports
 nothing at all when the order is still open after the last warehouse.
 */
module Allocator {
  import opened Inventory
  import opened Orders
  import opened Shipments
  import opened Warehouses

  /** The inventory of each warehouse object; an object listed twice has one inventory. */
  type Stock = map<Warehouse, Items>

  /** What a scan yields: the shipments reported, the order left and every inventory left. */
  datatype Allocation = Allocation(shipments: seq<Parcel>, order: Items, stock: Stock)

  predicate NonNegativeStock(stock: Stock)
  {
    forall w :: w in stock ==> NonNegative(stock[w])
  }

  /** Every listed warehouse has an inventory in `stock`. */
  predicate Covers(stock: Stock, ws: seq<Warehouse>)
  {
    forall j :: 0 <= j < |ws| ==> ws[j] in stock
  }

  /**
   Reference scan over `ws`, having collected `acc` so far. Each warehouse
   serves the order as it stands; its shipment, if any item matched, is
   appended. The scan returns what it collected as soon as the order is
   empty, and the empty list if it runs out of warehouses first.
   */
  function Allocate(order: Items, ws: seq<Warehouse>, stock: Stock, acc: seq<Parcel>): Allocation
    requires Covers(stock, ws)
    decreases |ws|
  {
    if ws == [] then
      Allocation([], order, stock)
    else
      var w := ws[0];
      var p := FulfilAll(order, stock[w]);
      var acc' := if p.shipped == map[] then acc else acc + [Parcel(w.warehouseName, p.shipped)];
      var stock' := stock[w := p.stock];
      if p.order == map[] then Allocation(acc', p.order, stock')
      else Allocate(p.order, ws[1..], stock', acc')
  }

  /** The inventories of the listed warehouses, as they are now. */
  ghost function StockOf(ws: seq<Warehouse>): (stock: Stock)
    reads set w | w in ws
    ensures forall w :: w in stock ==> w in ws
    ensures forall k :: 0 <= k < |ws| ==> ws[k] in stock && stock[ws[k]] == ws[k].orderItems
  {
    map w | w in ws :: w.orderItems
  }

  /** Two stocks over exactly the listed warehouses that agree on each of them are equal. */
  lemma SameStock(ws: seq<Warehouse>, a: Stock, b: Stock)
    requires forall w :: w in a ==> w in ws
    requires forall w :: w in b ==> w in ws
    requires forall k :: 0 <= k < |ws| ==> ws[k] in a && ws[k] in b && a[ws[k]] == b[ws[k]]
    ensures a == b
  {
    forall w | w in a ensures w in b && a[w] == b[w] {
      var k :| 0 <= k < |ws| && ws[k] == w;
    }
  }

  /** The values of a list of shipments, as they are now. */
  ghost function Parcels(ss: seq<Shipment>): (ps: seq<Parcel>)
    reads set s | s in ss
    ensures |ps| == |ss|
    ensures forall k :: 0 <= k < |ss| ==> ps[k] == ss[k].Value()
  {
    if ss == [] then [] else Parcels(ss[..|ss| - 1]) + [ss[|ss| - 1].Value()]
  }

  /** Appending a shipment appends its value. */
  lemma ParcelsAppend(ss: seq<Shipment>, s: Shipment)
    ensures Parcels(ss + [s]) == Parcels(ss) + [s.Value()]
  {
    assert (ss + [s])[..|ss|] == ss;
  }

  /** All or nothing: a scan that leaves the order open reports no shipment. */
  lemma {:induction false} AllocateAllOrNothing(order: Items, ws: seq<Warehouse>, stock: Stock, acc: seq<Parcel>)
    requires Covers(stock, ws)
    ensures var a := Allocate(order, ws, stock, acc);
            a.order != map[] ==> a.shipments == []
    decreases |ws|
  {
    if ws != [] {
      var w := ws[0];
      var p := FulfilAll(order, stock[w]);
      var acc' := if p.shipped == map[] then acc else acc + [Parcel(w.warehouseName, p.shipped)];
      if p.order != map[] {
        AllocateAllOrNothing(p.order, ws[1..], stock[w := p.stock], acc');
      }
    }
  }

  /**
   Conservation: when the scan empties the order, the shipments reported
   carry, item by item, exactly the quantity the order asked for.
   */
  lemma {:induction false} AllocateConserves(order: Items, ws: seq<Warehouse>, stock: Stock, acc: seq<Parcel>)
    requires Covers(stock, ws)
    requires order != map[] || acc == []
    ensures var a := Allocate(order, ws, stock, acc);
            a.order == map[] ==> forall n :: Shipped(a.shipments, n) == Shipped(acc, n) + QtyOr0(order, n)
    decreases |ws|
  {
    if ws != [] {
      var w := ws[0];
      var p := FulfilAll(order, stock[w]);
      var acc' := if p.shipped == map[] then acc else acc + [Parcel(w.warehouseName, p.shipped)];
      FulfilAllApplied(order, stock[w]);
      FulfilConserves(order, stock[w], order.Keys * stock[w].Keys);
      forall n ensures Shipped(acc', n) == Shipped(acc, n) + QtyOr0(p.shipped, n) {
        if p.shipped != map[] {
          ShippedAppend(acc, Parcel(w.warehouseName, p.shipped), n);
        }
      }
      if p.order != map[] {
        AllocateConserves(p.order, ws[1..], stock[w := p.stock], acc');
      }
    }
  }

  /**
   The warehouse names of `ps` are those of some of the warehouses of `ws`,
   each position of `ws` used at most once and in list order.
   */
  predicate InListOrder(ps: seq<Parcel>, ws: seq<Warehouse>)
    decreases |ws|
  {
    if ps == [] then true
    else if ws == [] then false
    else (ps[0].warehouseName == ws[0].warehouseName && InListOrder(ps[1..], ws[1..]))
         || InListOrder(ps, ws[1..])
  }

  /**
   A successful scan reports what it had collected followed by at most one
   shipment per warehouse, named after the warehouses that produced them in
   list order, and none of them is empty.
   */
  lemma {:induction false} AllocateBounded(order: Items, ws: seq<Warehouse>, stock: Stock, acc: seq<Parcel>)
    requires Covers(stock, ws)
    ensures var a := Allocate(order, ws, stock, acc);
            a.shipments == [] ||
            (&& acc <= a.shipments
             && |a.shipments| <= |acc| + |ws|
             && InListOrder(a.shipments[|acc|..], ws)
             && forall i :: |acc| <= i < |a.shipments| ==> a.shipments[i].items != map[])
    decreases |ws|
  {
    if ws != [] {
      var w := ws[0];
      var p := FulfilAll(order, stock[w]);
      var acc' := if p.shipped == map[] then acc else acc + [Parcel(w.warehouseName, p.shipped)];
      var a := Allocate(order, ws, stock, acc);
      if p.order != map[] {
        AllocateBounded(p.order, ws[1..], stock[w := p.stock], acc');
      } else {
        assert InListOrder(acc'[|acc'|..], ws[1..]);
      }
      if a.shipments != [] {
        var tail := a.shipments[|acc'|..];
        assert InListOrder(tail, ws[1..]);
        if p.shipped != map[] {
          assert a.shipments[|acc|..] == [Parcel(w.warehouseName, p.shipped)] + tail;
        } else {
          assert a.shipments[|acc|..] == tail;
        }
      }
    }
  }

  /** An empty order is satisfied at once: nothing is reported and no inventory changes. */
  lemma AllocateEmptyOrder(ws: seq<Warehouse>, stock: Stock)
    requires Covers(stock, ws)
    ensures Allocate(map[], ws, stock, []) == Allocation([], map[], stock)
  {
    if ws != [] {
      var w := ws[0];
      FulfilNoMatch(map[], stock[w], {});
      assert stock[w := stock[w]] == stock;
    }
  }

  /**
   Early exit: once the order is empty after the warehouses of `ws`, the
   warehouses listed after them are neither consulted nor changed, and the
   result is the same.
   */
  lemma {:induction false} AllocateEarlyExit(order: Items, ws: seq<Warehouse>, rest: seq<Warehouse>, stock: Stock, acc: seq<Parcel>)
    requires ws != []
    requires Covers(stock, ws + rest)
    requires Covers(stock, ws)
    requires Allocate(order, ws, stock, acc).order == map[]
    ensures Allocate(order, ws + rest, stock, acc) == Allocate(order, ws, stock, acc)
    decreases |ws|
  {
    var w := ws[0];
    var p := FulfilAll(order, stock[w]);
    var acc' := if p.shipped == map[] then acc else acc + [Parcel(w.warehouseName, p.shipped)];
    assert (ws + rest)[0] == w && (ws + rest)[1..] == ws[1..] + rest;
    if p.order != map[] {
      AllocateEarlyExit(p.order, ws[1..], rest, stock[w := p.stock], acc');
    }
  }

  /** A valid order and non-negative inventories stay so through the scan. */
  lemma {:induction false} AllocateKeepsValid(order: Items, ws: seq<Warehouse>, stock: Stock, acc: seq<Parcel>)
    requires Covers(stock, ws)
    requires ValidItems(order) && NonNegativeStock(stock)
    ensures var a := Allocate(order, ws, stock, acc);
            ValidItems(a.order) && NonNegativeStock(a.stock)
    decreases |ws|
  {
    if ws != [] {
      var w := ws[0];
      var p := FulfilAll(order, stock[w]);
      var acc' := if p.shipped == map[] then acc else acc + [Parcel(w.warehouseName, p.shipped)];
      FulfilAllApplied(order, stock[w]);
      FulfilKeepsValid(order, stock[w], order.Keys * stock[w].Keys);
      if p.order != map[] {
        AllocateKeepsValid(p.order, ws[1..], stock[w := p.stock], acc');
      }
    }
  }

  /** One warehouse of the reference scan: it either ends the scan or hands over to the next one. */
  lemma AllocateStep(order: Items, ws: seq<Warehouse>, i: nat, stock: Stock, acc: seq<Parcel>)
    requires i < |ws| && Covers(stock, ws)
    ensures var w := ws[i];
            var p := FulfilAll(order, stock[w]);
            var acc' := if p.shipped == map[] then acc else acc + [Parcel(w.warehouseName, p.shipped)];
            Allocate(order, ws[i..], stock, acc) ==
              if p.order == map[] then Allocation(acc', p.order, stock[w := p.stock])
              else Allocate(p.order, ws[i + 1..], stock[w := p.stock], acc')
  {
    assert ws[i..][0] == ws[i] && ws[i..][1..] == ws[i + 1..];
  }

  /**
   What the scan of allocateShipment knows after `i` warehouses when every
   inventory is non-negative: the reference scan of the remaining warehouses,
   from the current order, inventories and shipments, yields `target`, the
   result of the reference scan from the start.
   */
  ghost predicate ScanState(target: Allocation, ws: seq<Warehouse>, i: nat,
                            order: Items, stock: Stock, parcels: seq<Parcel>)
  {
    && i <= |ws|
    && Covers(stock, ws)
    && NonNegativeStock(stock)
    && target == Allocate(order, ws[i..], stock, parcels)
  }

  /** After the last warehouse the reference scan has nothing left to do: nothing is reported. */
  lemma ScanDone(target: Allocation, ws: seq<Warehouse>, order: Items, stock: Stock, parcels: seq<Parcel>)
    requires ScanState(target, ws, |ws|, order, stock, parcels)
    ensures target == Allocation([], order, stock)
  {
    assert ws[|ws|..] == [];
  }

  /**
   One warehouse of allocateShipment, on values: the pass processOrder makes
   either empties the order, and then the reference scan ends in exactly the
   resulting state, or keeps ScanState for the next warehouse.
   */
  lemma ScanStep(target: Allocation, ws: seq<Warehouse>, i: nat,
                 order: Items, stock: Stock, parcels: seq<Parcel>, applied: set<string>)
    requires ScanState(target, ws, i, order, stock, parcels) && i < |ws|
    requires ValidItems(order)
    requires NonNegative(stock[ws[i]]) ==> applied == order.Keys * stock[ws[i]].Keys
    ensures var w := ws[i];
            var p := Fulfil(order, stock[w], applied);
            var parcels' := if order.Keys * stock[w].Keys == {} then parcels else parcels + [Parcel(w.warehouseName, p.shipped)];
            && (p.order != map[] ==> ScanState(target, ws, i + 1, p.order, stock[w := p.stock], parcels'))
            && (p.order == map[] ==> target == Allocation(parcels', p.order, stock[w := p.stock]))
  {
    var w := ws[i];
    if order.Keys * stock[w].Keys == {} {
      FulfilNoMatch(order, stock[w], applied);
    } else {
      var k :| k in order.Keys * stock[w].Keys;
      assert k in FulfilAll(order, stock[w]).shipped;
    }
    FulfilKeepsValid(order, stock[w], applied);
    FulfilAllApplied(order, stock[w]);
    AllocateStep(order, ws, i, stock, parcels);
  }

  /** processOrder at warehouse `i`, seen as its effect on the inventories of all the listed warehouses. */
  method ServeOne(order: Order, ws: seq<Warehouse>, i: nat) returns (shipment: Shipment?, ghost applied: set<string>)
    requires i < |ws| && order.Valid()
    modifies order, ws[i]
    ensures order.Valid()
    ensures NonNegative(old(ws[i].orderItems)) ==> applied == old(order.orderItems).Keys * old(ws[i].orderItems).Keys
    ensures shipment == null <==> old(order.orderItems).Keys * old(ws[i].orderItems).Keys == {}
    ensures var p := Fulfil(old(order.orderItems), old(ws[i].orderItems), applied);
            && (shipment != null ==> fresh(shipment) && shipment.Value() == Parcel(ws[i].warehouseName, p.shipped))
            && order.orderItems == p.order
            && StockOf(ws) == old(StockOf(ws))[ws[i] := p.stock]
  {
    shipment, applied := ws[i].ProcessOrder(order);
    SameStock(ws, StockOf(ws), old(StockOf(ws))[ws[i] := ws[i].orderItems]);
  }

  /**
   The body of allocateShipment's loop for warehouse `i`: processOrder, and
   the shipment it returns, if any, is appended to the list.
   */
  method Serve(order: Order, ws: seq<Warehouse>, i: nat, shipments: seq<Shipment>, ghost nonNegative: bool, ghost target: Allocation)
    returns (shipment: Shipment?, shipments': seq<Shipment>)
    requires i < |ws| && order.Valid()
    requires nonNegative ==> ScanState(target, ws, i, order.orderItems, StockOf(ws), Parcels(shipments))
    modifies order, ws[i]
    ensures order.Valid()
    ensures shipment == null ==> shipments' == shipments
    ensures shipment != null ==> fresh(shipment) && shipments' == shipments + [shipment]
    ensures nonNegative && order.orderItems != map[] ==>
              ScanState(target, ws, i + 1, order.orderItems, StockOf(ws), Parcels(shipments'))
    ensures nonNegative && order.orderItems == map[] ==> target == Allocation(Parcels(shipments'), map[], StockOf(ws))
  {
    ghost var orderBefore, stockBefore, parcels := order.orderItems, StockOf(ws), Parcels(shipments);
    ghost var applied;
    shipment, applied := ServeOne(order, ws, i);
    shipments' := shipments;
    if shipment != null {
      ParcelsAppend(shipments, shipment);
      shipments' := shipments + [shipment];
    }
    if nonNegative {
      ScanStep(target, ws, i, orderBefore, stockBefore, parcels, applied);
    }
  }

  /**
   allocateShipment. Every consulted warehouse serves the order in turn and
   its shipment, if any, is collected; the collected list is returned as soon
   as the order is empty, and the empty list is returned if the order is
   still open after the last warehouse. The order and the consulted
   warehouses stay changed either way. When every inventory is non-negative,
   the shipments, the order left and every inventory left are those of the
   reference scan.
   */
  method AllocateShipment(order: Order, warehouses: seq<Warehouse>) returns (shipments: seq<Shipment>)
    requires order.Valid()
    modifies order, set w | w in warehouses
    ensures order.Valid()
    ensures order.orderItems != map[] ==> shipments == []
    ensures NonNegativeStock(old(StockOf(warehouses))) ==>
              var a := Allocate(old(order.orderItems), warehouses, old(StockOf(warehouses)), []);
              Parcels(shipments) == a.shipments && order.orderItems == a.order && StockOf(warehouses) == a.stock
  {
    ghost var nonNegative := NonNegativeStock(StockOf(warehouses));
    ghost var target := Allocate(order.orderItems, warehouses, StockOf(warehouses), []);
    shipments := [];
    var i := 0;
    while i < |warehouses|
      invariant i <= |warehouses|
      invariant order.Valid()
      invariant nonNegative ==> ScanState(target, warehouses, i, order.orderItems, StockOf(warehouses), Parcels(shipments))
    {
      var shipment;
      shipment, shipments := Serve(order, warehouses, i, shipments, nonNegative, target);
      if order.GetOrderSize() {
        return;
      }
      i := i + 1;
    }
    if nonNegative {
      ScanDone(target, warehouses, order.orderItems, StockOf(warehouses), Parcels(shipments));
    }
    shipments := [];
  }
}
