/**
 Item maps shared by orders, warehouses and shipments, and the value-level
 meaning of one warehouse pass: which quantities it takes (`Takes`), what it
 leaves behind (`Consume`) and the three maps it produces (`Fulfil`).
 */
module Inventory {

  /** An item name mapped to a quantity, as in the source's HashMap<String, Integer>. */
  type Items = map<string, int>

  /** Outcome of a validated insert; IllegalArgument stands for the thrown IllegalArgumentException. */
  datatype Status = Ok | IllegalArgument

  /** The value of a shipment: the warehouse it comes from and its items. */
  datatype Parcel = Parcel(warehouseName: string, items: Items)

  /** The check shared by Order.addOrders and Shipment.addOrders. */
  predicate ValidEntry(name: string, quantity: int)
  {
    quantity >= 0 && name != ""
  }

  /** Every stored entry would have passed ValidEntry. */
  predicate ValidItems(m: Items)
  {
    forall n :: n in m ==> ValidEntry(n, m[n])
  }

  /** No stored quantity is negative (warehouse inventories are not validated). */
  predicate NonNegative(m: Items)
  {
    forall n :: n in m ==> m[n] >= 0
  }

  /** Math.min on two quantities. */
  function Min(a: int, b: int): (r: int)
    ensures r <= a && r <= b
    ensures r == a || r == b
  {
    if a <= b then a else b
  }

  /** The quantity recorded for `n`, an absent item counting as nothing. */
  function QtyOr0(m: Items, n: string): int
  {
    if n in m then m[n] else 0
  }

  /** The entries of `m` whose keys are in `keys`. */
  function Restrict(m: Items, keys: set<string>): Items
  {
    map n | n in m && n in keys :: m[n]
  }

  /**
   The first loop of processOrder: every order item that is also a key of the
   warehouse stock is taken, as much as both the order and the stock allow.
   */
  function Takes(order: Items, stock: Items): Items
  {
    map n | n in order && n in stock :: Min(order[n], stock[n])
  }

  /**
   The reduce-or-remove rule of processOrder, applied to every key of `t`:
   the key leaves `m` when its take reaches or exceeds what `m` holds,
   otherwise it is lowered by the take. Keys outside `t` are kept as they are.
   */
  function Consume(m: Items, t: Items): Items
  {
    map n | n in m && (n !in t || t[n] < m[n]) :: if n in t then m[n] - t[n] else m[n]
  }

  /** The three maps one processOrder call yields. */
  datatype Pass = Pass(shipped: Items, order: Items, stock: Items)

  /**
   One processOrder call in which the entries whose keys are in `applied`
   went through: they are shipped and consumed from both the order and the
   stock; every other entry is left alone.
   */
  function Fulfil(order: Items, stock: Items, applied: set<string>): Pass
  {
    var t := Restrict(Takes(order, stock), applied);
    Pass(t, Consume(order, t), Consume(stock, t))
  }

  /** One processOrder call in which every matched entry went through. */
  function FulfilAll(order: Items, stock: Items): Pass
  {
    var t := Takes(order, stock);
    Pass(t, Consume(order, t), Consume(stock, t))
  }

  /** Letting every matched entry through is the pass FulfilAll describes. */
  lemma FulfilAllApplied(order: Items, stock: Items)
    ensures Fulfil(order, stock, order.Keys * stock.Keys) == FulfilAll(order, stock)
  {
    var t := Takes(order, stock);
    assert t.Keys <= order.Keys * stock.Keys;
    assert Restrict(t, order.Keys * stock.Keys) == t;
  }

  /** One more key handled by the first loop of processOrder. */
  lemma RestrictStep(m: Items, done: set<string>, n: string)
    ensures n in m ==> Restrict(m, done + {n}) == Restrict(m, done)[n := m[n]]
    ensures n !in m ==> Restrict(m, done + {n}) == Restrict(m, done)
  {
  }

  /** Before an entry is processed, it still holds its original quantity in the order and the stock. */
  lemma FulfilUntouched(order: Items, stock: Items, applied: set<string>, n: string)
    requires n in order && n in stock && n !in applied
    ensures var p := Fulfil(order, stock, applied);
            && n !in p.shipped
            && n in p.order && p.order[n] == order[n]
            && n in p.stock && p.stock[n] == stock[n]
  {
  }

  /** The reduce-or-remove rule for one key `n` of `m`. */
  function ReduceOrRemove(m: Items, n: string, take: int): Items
    requires n in m
  {
    if take >= m[n] then m - {n} else m[n := m[n] - take]
  }

  /** Reduce-or-remove of one more key, on top of the keys already consumed. */
  lemma ConsumeStep(m: Items, t: Items, n: string, take: int)
    requires n in m && n !in t
    ensures n in Consume(m, t) && Consume(m, t)[n] == m[n]
    ensures Consume(m, t[n := take]) == ReduceOrRemove(Consume(m, t), n, take)
  {
    var c, c' := Consume(m, t), Consume(m, t[n := take]);
    var e := if take >= m[n] then c - {n} else c[n := m[n] - take];
    assert c'.Keys == e.Keys;
    forall k | k in c' ensures c'[k] == e[k] {
    }
  }

  /**
   One more entry handled by the second loop of processOrder: it is put in the
   shipment and reduced-or-removed in the order and in the stock.
   */
  lemma FulfilStep(order: Items, stock: Items, applied: set<string>, n: string)
    requires n in order && n in stock && n !in applied
    ensures var p, q := Fulfil(order, stock, applied), Fulfil(order, stock, applied + {n});
            var take := Min(order[n], stock[n]);
            && q.shipped == p.shipped[n := take]
            && q.order == ReduceOrRemove(p.order, n, take)
            && q.stock == ReduceOrRemove(p.stock, n, take)
  {
    var t := Restrict(Takes(order, stock), applied);
    var take := Min(order[n], stock[n]);
    RestrictStep(Takes(order, stock), applied, n);
    assert Restrict(Takes(order, stock), applied + {n}) == t[n := take];
    ConsumeStep(order, t, n, take);
    ConsumeStep(stock, t, n, take);
  }

  /** Moving one key from the pending part of `all` to the done part. */
  lemma SetStep(all: set<string>, pending: set<string>, done: set<string>, n: string)
    requires n in pending && pending <= all && done == all - pending
    ensures all - (pending - {n}) == done + {n}
  {
  }

  /** Total quantity of item `n` over a sequence of shipments. */
  function Shipped(ps: seq<Parcel>, n: string): int
  {
    if ps == [] then 0 else Shipped(ps[..|ps| - 1], n) + QtyOr0(ps[|ps| - 1].items, n)
  }

  lemma ShippedAppend(ps: seq<Parcel>, p: Parcel, n: string)
    ensures Shipped(ps + [p], n) == Shipped(ps, n) + QtyOr0(p.items, n)
  {
    assert (ps + [p])[..|ps|] == ps;
  }

  /** A shipped quantity is lifted out of the order: shipped plus left equals what was asked. */
  lemma FulfilConserves(order: Items, stock: Items, applied: set<string>)
    ensures var p := Fulfil(order, stock, applied);
            forall n :: QtyOr0(p.shipped, n) + QtyOr0(p.order, n) == QtyOr0(order, n)
  {
  }

  /**
   The shipment holds exactly the matched items that went through, each with
   min(order quantity, stock); items outside the match are untouched in both maps.
   */
  lemma FulfilShipsMin(order: Items, stock: Items, applied: set<string>)
    ensures var p := Fulfil(order, stock, applied);
            && p.shipped.Keys == order.Keys * stock.Keys * applied
            && (forall n :: n in p.shipped ==> p.shipped[n] == Min(order[n], stock[n]))
            && (forall n :: n !in p.shipped ==> (n in p.order <==> n in order))
            && (forall n :: n !in p.shipped && n in order ==> p.order[n] == order[n])
            && (forall n :: n !in p.shipped ==> (n in p.stock <==> n in stock))
            && (forall n :: n !in p.shipped && n in stock ==> p.stock[n] == stock[n])
  {
  }

  /**
   Each shipped item drops by its take in the order and in the stock, and
   leaves the map whose quantity the take reaches.
   */
  lemma FulfilDecrements(order: Items, stock: Items, applied: set<string>, n: string)
    requires n in Fulfil(order, stock, applied).shipped
    ensures var p := Fulfil(order, stock, applied);
            var take := p.shipped[n];
            && (n in p.order <==> take < order[n])
            && (n in p.order ==> p.order[n] == order[n] - take)
            && (n in p.stock <==> take < stock[n])
            && (n in p.stock ==> p.stock[n] == stock[n] - take)
  {
  }

  /** Because of the min, every shipped item has left the order or the stock, or both. */
  lemma FulfilExhausts(order: Items, stock: Items, applied: set<string>)
    ensures var p := Fulfil(order, stock, applied);
            forall n :: n in p.shipped ==> n !in p.order || n !in p.stock
  {
  }

  /**
   A matched key with stock 0 ships 0 and leaves the stock; the order keeps
   its quantity unless that quantity was itself 0.
   */
  lemma FulfilZeroStock(order: Items, stock: Items, applied: set<string>, n: string)
    requires n in order && n in stock && n in applied
    requires stock[n] == 0 && order[n] >= 0
    ensures var p := Fulfil(order, stock, applied);
            && n in p.shipped && p.shipped[n] == 0
            && n !in p.stock
            && (order[n] > 0 ==> n in p.order && p.order[n] == order[n])
            && (order[n] == 0 ==> n !in p.order)
  {
  }

  /** A pass with no matched item ships nothing and changes nothing. */
  lemma FulfilNoMatch(order: Items, stock: Items, applied: set<string>)
    requires order.Keys * stock.Keys == {}
    ensures Fulfil(order, stock, applied) == Pass(map[], order, stock)
  {
    var p := Fulfil(order, stock, applied);
    assert Takes(order, stock).Keys <= order.Keys * stock.Keys;
    assert p.shipped == map[];
    assert p.order == order;
    assert p.stock == stock;
  }

  /**
   When every applied take is non-negative, a valid order stays valid, a
   non-negative stock stays non-negative, and the shipment's entries are valid.
   */
  lemma FulfilKeepsValid(order: Items, stock: Items, applied: set<string>)
    requires ValidItems(order)
    requires forall n :: n in applied && n in order && n in stock ==> Min(order[n], stock[n]) >= 0
    ensures var p := Fulfil(order, stock, applied);
            && ValidItems(p.order)
            && ValidItems(p.shipped)
            && (NonNegative(stock) ==> NonNegative(p.stock))
  {
  }
}
