/** `InMemoryOrderRepository`: a plain list of saved orders, searched front to back. */
module OrderRepository {
  import opened Wrappers
  import opened Orders

  /** The ids of the orders in a list. */
  function OrderIds(orders: seq<Order>): set<OrderId>
  {
    set o | o in orders :: o.id
  }

  /** `findById`'s `filter(...).findFirst()`: the earliest order with the id, if any. */
  function FindFirst(orders: seq<Order>, id: OrderId): (r: Option<Order>)
    ensures r.None? <==> id !in OrderIds(orders)
    ensures r.Some? ==> r.value.id == id
    ensures r.Some? ==> exists i :: 0 <= i < |orders| && orders[i] == r.value
                                    && forall j :: 0 <= j < i ==> orders[j].id != id
  {
    if |orders| == 0 then None
    else if orders[0].id == id then Some(orders[0])
    else
      var r := FindFirst(orders[1..], id);
      assert OrderIds(orders) == {orders[0].id} + OrderIds(orders[1..]) by {
        assert forall o :: o in orders <==> o == orders[0] || o in orders[1..];
      }
      assert r.Some? ==> exists i :: 0 <= i < |orders| && orders[i] == r.value
                                     && forall j :: 0 <= j < i ==> orders[j].id != id by {
        if r.Some? {
          var k :| 0 <= k < |orders[1..]| && orders[1..][k] == r.value
                   && forall j :: 0 <= j < k ==> orders[1..][j].id != id;
          assert orders[k + 1] == r.value;
          assert forall j :: 0 <= j < k + 1 ==> orders[j].id != id by {
            forall j | 0 <= j < k + 1 ensures orders[j].id != id {
              if j > 0 { assert orders[j] == orders[1..][j - 1]; }
            }
          }
        }
      }
      r
  }

  /** `deleteById`'s `removeIf`: every order with the id goes, the others stay in order. */
  function WithoutId(orders: seq<Order>, id: OrderId): (r: seq<Order>)
    ensures forall o :: o in r <==> o in orders && o.id != id
    ensures OrderIds(r) == OrderIds(orders) - {id}
  {
    if |orders| == 0 then []
    else
      var rest := WithoutId(orders[1..], id);
      assert forall o :: o in orders <==> o == orders[0] || o in orders[1..];
      if orders[0].id == id then rest else [orders[0]] + rest
  }

  /** Saving appends without a uniqueness check: the order becomes findable, unless an
      earlier order with the same id exists, which stays the one found; other ids are
      found as before. */
  lemma {:induction false} FindAfterSave(orders: seq<Order>, order: Order, id: OrderId)
    ensures FindFirst(orders + [order], id) ==
      if id in OrderIds(orders) then FindFirst(orders, id)
      else if id == order.id then Some(order)
      else None
  {
    if |orders| > 0 {
      assert (orders + [order])[1..] == orders[1..] + [order];
      FindAfterSave(orders[1..], order, id);
    }
  }

  /** Deleting one id leaves every other id's search result as it was. */
  lemma {:induction false} FindAfterDelete(orders: seq<Order>, deleted: OrderId, id: OrderId)
    requires id != deleted
    ensures FindFirst(WithoutId(orders, deleted), id) == FindFirst(orders, id)
  {
    if |orders| > 0 {
      FindAfterDelete(orders[1..], deleted, id);
      if orders[0].id != deleted {
        assert ([orders[0]] + WithoutId(orders[1..], deleted))[1..] == WithoutId(orders[1..], deleted);
      }
    }
  }

  /** Deleting an id that is not there changes nothing; hence deleting twice is deleting once. */
  lemma {:induction false} DeleteAbsent(orders: seq<Order>, id: OrderId)
    requires id !in OrderIds(orders)
    ensures WithoutId(orders, id) == orders
  {
    if |orders| > 0 {
      assert orders[0] in orders;
      assert OrderIds(orders[1..]) <= OrderIds(orders) by {
        forall o | o in orders[1..] ensures o in orders { }
      }
      DeleteAbsent(orders[1..], id);
      assert orders == [orders[0]] + orders[1..];
    }
  }

  lemma DeleteIdempotent(orders: seq<Order>, id: OrderId)
    ensures WithoutId(WithoutId(orders, id), id) == WithoutId(orders, id)
  {
    DeleteAbsent(WithoutId(orders, id), id);
  }

  /** Deleting distributes over concatenation, so the survivors keep their relative order. */
  lemma {:induction false} DeleteKeepsOrder(front: seq<Order>, back: seq<Order>, id: OrderId)
    ensures WithoutId(front + back, id) == WithoutId(front, id) + WithoutId(back, id)
  {
    if |front| > 0 {
      assert (front + back)[1..] == front[1..] + back;
      DeleteKeepsOrder(front[1..], back, id);
    } else {
      assert front + back == back;
    }
  }

  class InMemoryOrderRepository {
    var orders: seq<Order>

    constructor ()
      ensures orders == []
    {
      orders := [];
    }

    /** `save`: `orders.add(order)`. */
    method Save(order: Order)
      modifies this
      ensures orders == old(orders) + [order]
    {
      orders := orders + [order];
    }

    /** `findById`: the first saved order with the id, or none. */
    function FindById(id: OrderId): (r: Option<Order>)
      reads this
      ensures r.None? <==> id !in OrderIds(orders)
      ensures r.Some? ==> r.value.id == id && r.value in orders
    {
      FindFirst(orders, id)
    }

    /** `deleteById`: drop every order with the id; absent ids are no error. */
    method DeleteById(id: OrderId)
      modifies this
      ensures orders == WithoutId(old(orders), id)
      ensures FindById(id).None?
    {
      orders := WithoutId(orders, id);
    }
  }
}
