/** What one warehouse sends: a validated item map tagged with the warehouse's name. */
module Shipments {
  import opened Inventory

  class Shipment {
    var orderItems: Items
    const warehouseName: string

    /** Entries only get in through the validated AddOrders. */
    ghost predicate Valid()
      reads this
    {
      ValidItems(orderItems)
    }

    /** A new shipment carries the given warehouse name and no items. */
    constructor (warehouseName: string)
      ensures Valid()
      ensures this.warehouseName == warehouseName && orderItems == map[]
    {
      this.warehouseName := warehouseName;
      orderItems := map[];
    }

    /**
     Validated insert: a negative quantity or an empty name is refused and
     leaves the shipment as it was; otherwise exactly that entry is put.
     */
    method AddOrders(orderItemName: string, orderItemQuantity: int) returns (status: Status)
      requires Valid()
      modifies this
      ensures Valid()
      ensures status == Ok <==> ValidEntry(orderItemName, orderItemQuantity)
      ensures status == Ok ==> orderItems == old(orderItems)[orderItemName := orderItemQuantity]
      ensures status == IllegalArgument ==> orderItems == old(orderItems)
    {
      if orderItemQuantity < 0 || orderItemName == "" {
        return IllegalArgument;
      }
      orderItems := orderItems[orderItemName := orderItemQuantity];
      status := Ok;
    }

    /** The value this shipment stands for. */
    function Value(): Parcel
      reads this
    {
      Parcel(warehouseName, orderItems)
    }

    /**
     The overridden equals: false for anything that is not a shipment, and
     otherwise true iff the warehouse names and the item maps are equal.
     */
    function Equals(obj: object?): (b: bool)
      reads this, obj
      ensures !(obj is Shipment) ==> !b
      ensures obj is Shipment ==> (b <==> (obj as Shipment).Value() == Value())
    {
      if obj is Shipment then
        var other := obj as Shipment;
        other.warehouseName == warehouseName && other.orderItems == orderItems
      else
        false
    }

    lemma EqualsReflexive()
      ensures Equals(this)
    {
    }

    lemma EqualsSymmetric(other: Shipment)
      ensures Equals(other) == other.Equals(this)
    {
    }
  }
}
