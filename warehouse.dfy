/** A named warehouse whose inventory is consumed, in place, by the orders it serves. */
module Warehouses {
  import opened Inventory
  import opened Orders
  import opened Shipments

  class Warehouse {
    var orderItems: Items
    const warehouseName: string

    constructor (warehouseName: string)
      ensures this.warehouseName == warehouseName && orderItems == map[]
    {
      this.warehouseName := warehouseName;
      orderItems := map[];
    }

    /** Unvalidated insert: any name and quantity are stored, overwriting the previous one. */
    method AddOrders(orderName: string, orderQuantity: int)
      modifies this
      ensures orderName in orderItems && orderItems[orderName] == orderQuantity
      ensures forall n :: n != orderName ==> (n in orderItems <==> n in old(orderItems))
      ensures forall n :: n != orderName && n in orderItems ==> orderItems[n] == old(orderItems)[n]
    {
      orderItems := orderItems[orderName := orderQuantity];
    }

    /**
     The greedy matching step. It returns null, changing nothing, when no
     order item is a key of this inventory. Otherwise it returns a fresh
     shipment tagged with this warehouse's name and consumes the order and the
     inventory entry by entry. An entry whose take is negative (only a
     negative stock makes one) is refused by the shipment; that ends the pass,
     and the entries not yet processed are skipped. `applied` names the
     entries that went through; with a non-negative inventory it is every
     matched item.
     */
    method ProcessOrder(order: Order) returns (shipment: Shipment?, ghost applied: set<string>)
      requires order.Valid()
      modifies this, order
      ensures order.Valid()
      ensures var t := Takes(old(order.orderItems), old(orderItems));
              && applied <= t.Keys
              && (forall n :: n in applied ==> t[n] >= 0)
              && (applied != t.Keys ==> exists n :: n in t && n !in applied && t[n] < 0)
      ensures NonNegative(old(orderItems)) ==> applied == old(order.orderItems).Keys * old(orderItems).Keys
      ensures shipment == null <==> old(order.orderItems).Keys * old(orderItems).Keys == {}
      ensures shipment != null ==> fresh(shipment) && shipment.Valid() && shipment.warehouseName == warehouseName
      ensures var p := Fulfil(old(order.orderItems), old(orderItems), applied);
              && (shipment != null ==> shipment.orderItems == p.shipped)
              && order.orderItems == p.order
              && orderItems == p.stock
    {
      // First loop: the quantity to ship for every order item this warehouse holds.
      var ordersToShip := ShippableQuantities(order);

      if |ordersToShip| == 0 {
        FulfilNoMatch(order.orderItems, orderItems, {});
        return null, {};
      }

      ghost var key :| key in ordersToShip;
      assert key in order.orderItems.Keys * orderItems.Keys;
      shipment := new Shipment(warehouseName);
      applied := ShipAll(order, shipment, ordersToShip);
    }

    /**
     The first loop of processOrder: for every order item that is also a key
     here, min(order quantity, stock), visiting the order's names in any order.
     */
    method ShippableQuantities(order: Order) returns (ordersToShip: Items)
      requires order.Valid()
      ensures ordersToShip == Takes(order.orderItems, orderItems)
    {
      ghost var takes := Takes(order.orderItems, orderItems);
      ordersToShip := map[];
      var names := order.GetOrderItemsName();
      while names != {}
        invariant names <= order.orderItems.Keys
        invariant ordersToShip == Restrict(takes, order.orderItems.Keys - names)
        decreases names
      {
        var orderName :| orderName in names;
        RestrictStep(takes, order.orderItems.Keys - names, orderName);
        assert order.orderItems.Keys - (names - {orderName}) == (order.orderItems.Keys - names) + {orderName};
        if orderName in orderItems {
          var orderQuantity := Min(order.GetOrderItemsQuantity(orderName), orderItems[orderName]);
          ordersToShip := ordersToShip[orderName := orderQuantity];
        }
        names := names - {orderName};
      }
    }

    /**
     The second loop of processOrder, over the entries of `ordersToShip` in
     any order: put the entry in the shipment, then reduce-or-remove it in the
     order and in this inventory. A refused entry ends the loop (the caught
     IllegalArgumentException); `applied` names the entries that went through.
     */
    method ShipAll(order: Order, shipment: Shipment, ordersToShip: Items) returns (ghost applied: set<string>)
      requires order.Valid() && shipment.Valid() && shipment.orderItems == map[]
      requires ordersToShip == Takes(order.orderItems, orderItems)
      modifies this, order, shipment
      ensures order.Valid() && shipment.Valid()
      ensures applied <= ordersToShip.Keys
      ensures forall n :: n in applied ==> ordersToShip[n] >= 0
      ensures applied != ordersToShip.Keys ==> exists n :: n in ordersToShip && n !in applied && ordersToShip[n] < 0
      ensures var p := Fulfil(old(order.orderItems), old(orderItems), applied);
              && shipment.orderItems == p.shipped
              && order.orderItems == p.order
              && orderItems == p.stock
    {
      ghost var order0, stock0 := order.orderItems, orderItems;
      applied := {};
      var pending := ordersToShip.Keys;
      while pending != {}
        invariant pending <= ordersToShip.Keys && applied == ordersToShip.Keys - pending
        invariant forall n :: n in applied ==> ordersToShip[n] >= 0
        invariant order.Valid() && shipment.Valid()
        invariant shipment.orderItems == Fulfil(order0, stock0, applied).shipped
        invariant order.orderItems == Fulfil(order0, stock0, applied).order
        invariant orderItems == Fulfil(order0, stock0, applied).stock
        decreases pending
      {
        var orderName :| orderName in pending;
        var orderQuantity := ordersToShip[orderName];
        ghost var p, q := Fulfil(order0, stock0, applied), Fulfil(order0, stock0, applied + {orderName});
        assert orderName in p.order && orderName in p.stock && orderQuantity == Min(order0[orderName], stock0[orderName])
          && q.shipped == p.shipped[orderName := orderQuantity]
          && q.order == ReduceOrRemove(p.order, orderName, orderQuantity)
          && q.stock == ReduceOrRemove(p.stock, orderName, orderQuantity)
        by {
          FulfilUntouched(order0, stock0, applied, orderName);
          FulfilStep(order0, stock0, applied, orderName);
        }
        var status := ShipEntry(order, shipment, orderName, orderQuantity);
        if status == IllegalArgument {
          // The IllegalArgumentException is caught: the remaining entries are skipped.
          break;
        }
        SetStep(ordersToShip.Keys, pending, applied, orderName);
        pending := pending - {orderName};
        applied := applied + {orderName};
      }
    }

    /**
     The body of the second loop for one entry: put it in the shipment, then
     reduce-or-remove it in the order and in this inventory. A negative
     quantity is refused by the shipment before anything changes.
     */
    method ShipEntry(order: Order, shipment: Shipment, orderName: string, orderQuantity: int) returns (status: Status)
      requires order.Valid() && shipment.Valid()
      requires orderName in order.orderItems && orderName in orderItems
      requires orderQuantity <= order.orderItems[orderName]
      modifies this, order, shipment
      ensures order.Valid() && shipment.Valid()
      ensures status == Ok <==> orderQuantity >= 0
      ensures status == IllegalArgument ==>
                && shipment.orderItems == old(shipment.orderItems)
                && order.orderItems == old(order.orderItems)
                && orderItems == old(orderItems)
      ensures status == Ok ==>
                && shipment.orderItems == old(shipment.orderItems)[orderName := orderQuantity]
                && order.orderItems == ReduceOrRemove(old(order.orderItems), orderName, orderQuantity)
                && orderItems == ReduceOrRemove(old(orderItems), orderName, orderQuantity)
    {
      status := shipment.AddOrders(orderName, orderQuantity);
      if status == IllegalArgument {
        return;
      }
      if orderQuantity >= order.GetOrderItemsQuantity(orderName) {
        order.RemoveOrderItems(orderName);
      } else {
        var reduced := order.AddOrders(orderName, order.GetOrderItemsQuantity(orderName) - orderQuantity);
      }
      if orderQuantity >= orderItems[orderName] {
        orderItems := orderItems - {orderName};
      } else {
        orderItems := orderItems[orderName := orderItems[orderName] - orderQuantity];
      }
    }
  }
}
