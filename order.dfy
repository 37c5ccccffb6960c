/** A customer order: a mutable map from item name to the quantity still wanted. */
module Orders {
  import opened Inventory

  class Order {
    var orderItems: Items

    /** Every mutator keeps names non-empty and quantities non-negative; zero is allowed. */
    ghost predicate Valid()
      reads this
    {
      ValidItems(orderItems)
    }

    constructor ()
      ensures Valid() && orderItems == map[]
    {
      orderItems := map[];
    }

    /**
     Validated insert: a negative quantity or an empty name is refused and
     leaves the order as it was; otherwise the entry is set, overwriting any
     previous quantity for that name.
     */
    method AddOrders(orderItemName: string, orderItemQuantity: int) returns (status: Status)
      requires Valid()
      modifies this
      ensures Valid()
      ensures status == Ok <==> ValidEntry(orderItemName, orderItemQuantity)
      ensures status == Ok ==> orderItems == old(orderItems)[orderItemName := orderItemQuantity]
      ensures status == IllegalArgument ==> orderItems == old(orderItems)
    {
      if orderItemQuantity < 0 || orderItemName == "" {
        return IllegalArgument;
      }
      orderItems := orderItems[orderItemName := orderItemQuantity];
      status := Ok;
    }

    /** The stored quantity of a present item, -1 for an absent one. */
    function GetOrderItemsQuantity(orderItemName: string): (q: int)
      reads this
      ensures orderItemName in orderItems ==> q == orderItems[orderItemName]
      ensures orderItemName !in orderItems ==> q == -1
      ensures Valid() ==> (q >= 0 <==> orderItemName in orderItems)
    {
      if orderItemName in orderItems then orderItems[orderItemName] else -1
    }

    /** The names of the outstanding items: exactly those with a quantity that is not -1. */
    function GetOrderItemsName(): (names: set<string>)
      reads this
      ensures Valid() ==> forall n :: n in names <==> GetOrderItemsQuantity(n) >= 0
      ensures Valid() ==> "" !in names
    {
      orderItems.Keys
    }

    /** Removes the entry for `orderItemName`, if any; a no-op when it is absent. */
    method RemoveOrderItems(orderItemName: string)
      requires Valid()
      modifies this
      ensures Valid()
      ensures orderItems == old(orderItems) - {orderItemName}
      ensures orderItemName !in orderItems
      ensures forall n :: n != orderItemName ==> GetOrderItemsQuantity(n) == old(GetOrderItemsQuantity(n))
      ensures orderItemName !in old(orderItems) ==> orderItems == old(orderItems)
    {
      orderItems := orderItems - {orderItemName};
    }

    /** True exactly when no item is outstanding (the source names it getOrderSize). */
    function GetOrderSize(): (empty: bool)
      reads this
      ensures empty <==> GetOrderItemsName() == {}
      ensures empty ==> forall n :: GetOrderItemsQuantity(n) == -1
    {
      |orderItems| == 0
    }

    /** Under the invariant, an order is empty iff every lookup reports absence. */
    lemma EmptyIffAllAbsent()
      requires Valid()
      ensures GetOrderSize() <==> forall n :: GetOrderItemsQuantity(n) == -1
    {
      if !GetOrderSize() {
        var n :| n in orderItems;
        assert GetOrderItemsQuantity(n) >= 0;
      }
    }
  }
}
