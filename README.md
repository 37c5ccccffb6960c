# Inventory allocator, modelled in Dafny

The inventory allocator serves one customer order from an ordered list of
warehouses. An `Order` is a mutable map from item name to the quantity still
wanted, and a `Warehouse` is a named mutable inventory map. A `Shipment` is
what one warehouse sends: a validated item map tagged with the warehouse's
name.

`Warehouse.processOrder` is the greedy matching step. Every order item that
is also a key of the inventory is taken, `min(order quantity, stock)` of it.
The order and the inventory are then reduced in place. A key leaves a map
when the take reaches or exceeds what that map holds.

`InventoryAllocator.allocateShipment` runs `processOrder` on the warehouses
in list order and collects the non-null shipments. It returns them as soon
as the order is empty. If the order is still open after the last warehouse,
it returns the empty list. The order and the warehouses stay changed in
both cases.

The model follows the source's own form:

- `inventory.dfy` (module `Inventory`) holds the item maps and what one
  `processOrder` call means as a value:
  - `Takes` is the first loop;
  - `Consume` and `ReduceOrRemove` are the reduce-or-remove rule;
  - `Fulfil` and `FulfilAll` give the three maps the call yields;
  - the lemmas state what the call promises.
- `order.dfy`, `shipment.dfy` and `warehouse.dfy` hold the classes `Order`,
  `Shipment` and `Warehouse`. Their `orderItems` map is a field that the
  methods reassign.
  - `processOrder` keeps its two loops. The first fills `ordersToShip`; the
    second ships and consumes entry by entry.
  - Both loops pick the next key arbitrarily, because Java's `HashMap`
    iteration order is unspecified.
  - Each method is proved against the functions of `Inventory`.
- `allocator.dfy` (module `Allocator`) holds the warehouse scan:
  - `Allocate` is a reference definition of the scan on values;
  - lemmas state the all-or-nothing rule, conservation, early exit and the
    other properties of the scan;
  - the method `AllocateShipment` keeps the source's loop, over a
    `seq<Warehouse>` of objects. A warehouse listed twice is therefore one
    inventory, changed by both visits.
- `scenarios.dfy` (module `Scenarios`) restates four of the unit tests as
  lemmas about the reference scan, with the tests' own data.

`IllegalArgumentException` becomes the `Status` result `IllegalArgument`.
The `try`/`catch` in `processOrder` becomes the end of the second loop.

A negative take is possible only with a negative warehouse stock, since
warehouse inserts are not validated. `Shipment.addOrders` refuses it, and
the entries not yet processed are skipped. The ghost out-parameter `applied`
of `ProcessOrder` names the entries that went through before that.

Two behaviours of the code are easy to miss:

- A warehouse key whose stock is 0 still matches. It ships an entry of 0
  and leaves the inventory; the order keeps a positive quantity and loses a
  zero one (`FulfilZeroStock`, `ZeroStockShipsNothing`).
- Zero quantities can be stored: `Order.addOrders` accepts 0. The validity
  invariant therefore allows zero and rules out only negative quantities
  and empty names.

## Model

| member | source | states |
|---|---|---|
| Inventory.Takes | inventory-allocator/src/main/java/Warehouse.java:33-39 | definition only: the first loop's map, every order item that is an inventory key with min(order quantity, stock); FulfilShipsMin and ShippableQuantities state its content |
| Inventory.Consume | inventory-allocator/src/main/java/Warehouse.java:56-67 | definition only: reduce-or-remove of every taken key, other keys kept; FulfilDecrements states its effect |
| Inventory.ReduceOrRemove | inventory-allocator/src/main/java/Warehouse.java:56-67 | definition only: the key leaves the map when the take reaches what the map holds, otherwise it is lowered by the take; ShipEntry is proved against it |
| Inventory.Fulfil | inventory-allocator/src/main/java/Warehouse.java:32-74 | definition only: the shipment, order and inventory one processOrder call yields when the entries of `applied` went through; ProcessOrder and the Fulfil lemmas are stated on it |
| Inventory.FulfilAll | inventory-allocator/src/main/java/Warehouse.java:32-74 | definition only: the same pass with every matched entry going through; FulfilAllApplied ties it to Fulfil |
| Inventory.Min | inventory-allocator/src/main/java/Warehouse.java:36 | the take is at most the order quantity and at most the stock, and equals one of them |
| Inventory.FulfilAllApplied | inventory-allocator/src/main/java/Warehouse.java:47-68 | when every matched entry goes through, the pass is FulfilAll: the takes, and both maps consumed by them |
| Inventory.FulfilConserves | inventory-allocator/src/main/java/Warehouse.java:53-60 | for every item, what the shipment holds plus what the order still wants is what the order wanted before |
| Inventory.FulfilShipsMin | inventory-allocator/src/main/java/Warehouse.java:34-37 | the shipment's keys are exactly the matched items that went through, each with min(order quantity, stock); every other item keeps its entry, or its absence, in both the order and the inventory |
| Inventory.FulfilDecrements | inventory-allocator/src/main/java/Warehouse.java:56-67 | a shipped item drops by its take in the order and in the inventory, and leaves each map exactly when the take reaches what that map held |
| Inventory.FulfilExhausts | inventory-allocator/src/main/java/Warehouse.java:36-67 | every shipped item has left the order or the inventory, or both |
| Inventory.FulfilZeroStock | inventory-allocator/src/main/java/Warehouse.java:36-64 | a matched key with stock 0 ships 0 and leaves the inventory; the order keeps a positive quantity and loses a zero one |
| Inventory.FulfilNoMatch | inventory-allocator/src/main/java/Warehouse.java:33-44 | with no order item among the inventory's keys, nothing is shipped and neither map changes |
| Inventory.FulfilKeepsValid | inventory-allocator/src/main/java/Warehouse.java:53-67 | when every applied take is non-negative, the order stays valid, the shipment's entries are valid and a non-negative inventory stays non-negative |
| Orders.Order.constructor | inventory-allocator/src/main/java/Order.java:10 | a new order is valid and has no items |
| Orders.Order.AddOrders | inventory-allocator/src/main/java/Order.java:16-21 | a negative quantity or an empty name is refused and leaves the map unchanged; otherwise the entry is set, overwriting, and nothing else changes; the validity invariant is kept |
| Orders.Order.GetOrderItemsQuantity | inventory-allocator/src/main/java/Order.java:28-30 | the stored quantity for a present name and -1 for an absent one; on a valid order the result is non-negative iff the name is present |
| Orders.Order.GetOrderItemsName | inventory-allocator/src/main/java/Order.java:35-37 | on a valid order, a name is listed iff its quantity lookup is not -1, and the empty name is never listed |
| Orders.Order.RemoveOrderItems | inventory-allocator/src/main/java/Order.java:42-44 | exactly that key is deleted, every other lookup is unchanged, and removing an absent key changes nothing |
| Orders.Order.GetOrderSize | inventory-allocator/src/main/java/Order.java:49-51 | true iff no name is listed, and then every lookup answers -1 |
| Orders.Order.EmptyIffAllAbsent | inventory-allocator/src/main/java/Order.java:49-51 | on a valid order, getOrderSize is true iff every lookup answers -1 |
| Shipments.Shipment.constructor | inventory-allocator/src/main/java/Shipment.java:17-19 | a new shipment carries the given warehouse name and no items |
| Shipments.Shipment.AddOrders | inventory-allocator/src/main/java/Shipment.java:25-30 | a negative quantity or an empty name is refused and leaves the map unchanged; otherwise exactly that entry is put |
| Shipments.Shipment.Equals | inventory-allocator/src/main/java/Shipment.java:39-48 | false for anything that is not a shipment; for a shipment, true iff the warehouse names and the item maps are equal |
| Shipments.Shipment.EqualsReflexive | inventory-allocator/src/main/java/Shipment.java:44-47 | every shipment equals itself |
| Shipments.Shipment.EqualsSymmetric | inventory-allocator/src/main/java/Shipment.java:44-47 | a.equals(b) and b.equals(a) agree |
| Warehouses.Warehouse.constructor | inventory-allocator/src/main/java/Warehouse.java:13-15 | a new warehouse carries the given name and an empty inventory |
| Warehouses.Warehouse.AddOrders | inventory-allocator/src/main/java/Warehouse.java:23-25 | any name and quantity are stored without validation, overwriting, and every other key keeps its presence and its quantity |
| Warehouses.Warehouse.ProcessOrder | inventory-allocator/src/main/java/Warehouse.java:32-74 | null exactly when no order item is an inventory key; otherwise a new shipment tagged with this warehouse's name. The shipment, the order and the inventory are Fulfil of the old order and inventory over the entries that went through. Those are every matched entry when the inventory is non-negative. Otherwise each skipped entry is accounted for by a matched entry with a negative take. The order stays valid |
| Warehouses.Warehouse.ShippableQuantities | inventory-allocator/src/main/java/Warehouse.java:33-39 | the first loop computes Takes: every order item that is an inventory key, with min(order quantity, stock) |
| Warehouses.Warehouse.ShipAll | inventory-allocator/src/main/java/Warehouse.java:47-71 | the second loop ships and consumes the entries that went through, a refused entry ends it, and the three maps are Fulfil over the entries that went through |
| Warehouses.Warehouse.ShipEntry | inventory-allocator/src/main/java/Warehouse.java:49-67 | one entry: refused iff its quantity is negative, and then nothing changes; otherwise it is put in the shipment and reduced-or-removed in the order and in the inventory |
| Allocator.Allocate | inventory-allocator/src/main/java/InventoryAllocator.java:28-46 | definition only: the reference scan on values; the Allocate lemmas below state its properties and AllocateShipment is proved equal to it |
| Allocator.AllocateAllOrNothing | inventory-allocator/src/main/java/InventoryAllocator.java:37-45 | a scan that leaves the order open reports no shipment |
| Allocator.AllocateConserves | inventory-allocator/src/main/java/InventoryAllocator.java:32-40 | when the scan empties the order, the shipments reported carry, item by item, exactly the quantity ordered |
| Allocator.AllocateBounded | inventory-allocator/src/main/java/InventoryAllocator.java:32-36 | a non-empty result is what was already collected followed by at most one shipment per warehouse; the new shipments carry the names of distinct list positions, in list order (InListOrder), and none of them is empty |
| Allocator.AllocateEmptyOrder | inventory-allocator/src/main/java/InventoryAllocator.java:33-45 | an empty order yields the empty list and changes no inventory |
| Allocator.AllocateEarlyExit | inventory-allocator/src/main/java/InventoryAllocator.java:37-40 | once the order is empty after some warehouses, the warehouses listed after them change neither the result nor any inventory |
| Allocator.AllocateKeepsValid | inventory-allocator/src/main/java/InventoryAllocator.java:32-41 | a valid order and non-negative inventories stay so throughout the scan |
| Allocator.ServeOne | inventory-allocator/src/main/java/InventoryAllocator.java:33 | processOrder at one listed warehouse: a new shipment with that warehouse's name, or null exactly when nothing matches; the order and that warehouse's inventory become Fulfil of their old values, and every other listed inventory is unchanged |
| Allocator.Serve | inventory-allocator/src/main/java/InventoryAllocator.java:33-36 | one iteration of the loop: processOrder and the append of a non-null shipment carry the reference scan's state to the next warehouse, or to its final result when the order becomes empty |
| Allocator.AllocateShipment | inventory-allocator/src/main/java/InventoryAllocator.java:28-46 | the order stays valid; a result is non-empty only with the order emptied; when every inventory is non-negative, the shipments' values, the order left and every inventory left are those of the reference scan Allocate |
| Scenarios.FulfilSingle | inventory-allocator/src/main/java/Warehouse.java:36-67 | an order and an inventory holding one common item: the shipment holds the min, and each map loses the item or keeps the difference |
| Scenarios.ZeroStockShipsNothing | inventory-allocator/src/test/java/InventoryAllocatorTest.java:348-364 | order apple 1 against a warehouse with apple 0: the warehouse loses the key, the order stays open and nothing is reported |
| Scenarios.SplitAcrossWarehouses | inventory-allocator/src/test/java/InventoryAllocatorTest.java:374-400 | apple 10 against two warehouses with apple 5 each: two shipments of 5, in list order |
| Scenarios.ManyItemsFirstPass | inventory-allocator/src/test/java/InventoryAllocatorTest.java:23-55 | the first warehouse of that test ships apple 15 and orange 200, leaving the order at apple 45 and orange 100 and the warehouse empty |
| Scenarios.ManyItemsSecondPass | inventory-allocator/src/test/java/InventoryAllocatorTest.java:23-55 | the second warehouse of that test ships apple 45 and orange 100, emptying the order and keeping apple 5 |
| Scenarios.ManyItemsTwoWarehouses | inventory-allocator/src/test/java/InventoryAllocatorTest.java:23-55 | apple 60 and orange 300 against two warehouses: the two shipments the test expects, in list order, with the order emptied and apple 5 left in the second warehouse |
| Scenarios.SameWarehouseFirstPass | inventory-allocator/src/test/java/InventoryAllocatorTest.java:227-251 | the first visit of that test ships apple 40 and orange 4, leaving the order at apple 20, banana 150 and orange 6 and the warehouse empty |
| Scenarios.SameWarehouseTwice | inventory-allocator/src/test/java/InventoryAllocatorTest.java:227-251 | the test's one warehouse listed twice: the first visit ships apple 40 and orange 4, the second finds nothing left to match, the order stays open at apple 20, banana 150 and orange 6, and nothing is reported |

## Left out

- Logging (`logger.info` in `allocateShipment` and in `processOrder`): output only, with no effect on any result.
- The lazy singleton `getInventoryAllocatorInstance`: it holds no state, so `allocateShipment` is a plain method.
- Java `int` width: no arithmetic wraps. Order quantities are non-negative. A subtraction happens only after a non-negative take smaller than the quantity it is taken from, so every difference lies between 0 and that quantity.
- Null references: names, orders, warehouses and list elements are never null, so the `NullPointerException` paths are not modelled.
- `Shipment.equals` compares warehouse names with Java `==`, a reference comparison on strings. It is modelled as value equality, which is what the unit tests rely on through interned literals.
- `hashCode` is not overridden in the source and is not modelled.
- Allocator.AllocateShipment: ties the result to the reference scan only when every inventory is non-negative. With a negative inventory entry, the catch-and-continue path of `processOrder` makes the outcome depend on `HashMap` order. There the method states only the all-or-nothing rule and the validity of the order.
- Allocator.AllocateShipment: does not state that the returned shipments are newly created objects. `Warehouses.Warehouse.ProcessOrder` states it for each shipment it returns.
- Only four of the thirteen unit tests are restated in `Scenarios`: the split across warehouses, zero stock, the aliased warehouse and the two-item, two-warehouse allocation. The others are not restated.
