/** `InMemoryOrderStateService` and its twin `InMemoryOrderStateManager`: a table from
    order id to lifecycle state, with blind overwrites and a reverse lookup by state. */
module OrderStates {
  import opened Wrappers
  import opened Orders

  /** `OrderState`: the three lifecycle stages of an order. */
  datatype OrderState = Created | Completed | Prepared

  /** The map both implementations hold; an id maps to at most one state. */
  type StateTable = map<OrderId, OrderState>

  /** `get`: the id's state, or absent (`null`) for an id never updated or removed. */
  function Lookup(table: StateTable, id: OrderId): (r: Option<OrderState>)
    ensures r.Some? <==> id in table
    ensures r.Some? ==> r.value == table[id]
  {
    if id in table then Some(table[id]) else None
  }

  /** `getOrderIdsByState`: the ids whose entry equals the state. */
  function IdsInState(table: StateTable, state: OrderState): (r: set<OrderId>)
    ensures forall id :: id in r <==> Lookup(table, id) == Some(state)
    ensures r <= table.Keys
  {
    set id | id in table && table[id] == state
  }

  /** The three listings partition the table's ids: every id is in exactly one. */
  lemma IdsInStatePartition(table: StateTable)
    ensures IdsInState(table, Created) + IdsInState(table, Completed) + IdsInState(table, Prepared)
         == table.Keys
    ensures forall s, t :: s != t ==> IdsInState(table, s) * IdsInState(table, t) == {}
  {
    forall id | id in table
      ensures id in IdsInState(table, table[id])
    {
    }
  }

  /** `get` right after `update(id, s)` gives `s`; other ids read as before. */
  lemma LookupAfterUpdate(table: StateTable, id: OrderId, state: OrderState, other: OrderId)
    ensures Lookup(table[id := state], id) == Some(state)
    ensures other != id ==> Lookup(table[id := state], other) == Lookup(table, other)
  {
  }

  /** `get` after `remove(id)` is absent; other ids read as before, and removing an
      absent id changes nothing. */
  lemma LookupAfterRemove(table: StateTable, id: OrderId, other: OrderId)
    ensures Lookup(table - {id}, id) == None
    ensures other != id ==> Lookup(table - {id}, other) == Lookup(table, other)
    ensures id !in table ==> table - {id} == table
  {
  }

  /** An overwrite moves the id into the new state's listing and out of every other. */
  lemma IdsAfterUpdate(table: StateTable, id: OrderId, state: OrderState, listed: OrderState)
    ensures IdsInState(table[id := state], listed)
         == if listed == state then IdsInState(table, listed) + {id} else IdsInState(table, listed) - {id}
  {
  }

  /** A removal takes the id out of every listing and leaves the rest. */
  lemma IdsAfterRemove(table: StateTable, id: OrderId, listed: OrderState)
    ensures IdsInState(table - {id}, listed) == IdsInState(table, listed) - {id}
  {
  }

  /** `InMemoryOrderStateService`, backed by the field `orderStates`. */
  class InMemoryOrderStateService {
    var orderStates: StateTable

    constructor ()
      ensures orderStates == map[]
    {
      orderStates := map[];
    }

    /** `get`. */
    function Get(id: OrderId): (r: Option<OrderState>)
      reads this
      ensures r.Some? <==> id in orderStates
      ensures r.Some? ==> r.value == orderStates[id]
    {
      Lookup(orderStates, id)
    }

    /** `update`: an unconditional overwrite, for known and unknown ids alike. */
    method Update(id: OrderId, state: OrderState)
      modifies this
      ensures orderStates == old(orderStates)[id := state]
      ensures Get(id) == Some(state)
    {
      orderStates := orderStates[id := state];
    }

    /** `remove`. */
    method Remove(id: OrderId)
      modifies this
      ensures orderStates == old(orderStates) - {id}
      ensures Get(id) == None
    {
      orderStates := orderStates - {id};
    }

    /** `getOrderIdsByState`. */
    function GetOrderIdsByState(state: OrderState): (r: set<OrderId>)
      reads this
      ensures forall id :: id in r <==> Get(id) == Some(state)
    {
      IdsInState(orderStates, state)
    }
  }

  /** `InMemoryOrderStateManager`: the same four operations over the field `orderStatuses`. */
  class InMemoryOrderStateManager {
    var orderStatuses: StateTable

    constructor ()
      ensures orderStatuses == map[]
    {
      orderStatuses := map[];
    }

    /** `get`. */
    function Get(id: OrderId): (r: Option<OrderState>)
      reads this
      ensures r.Some? <==> id in orderStatuses
      ensures r.Some? ==> r.value == orderStatuses[id]
    {
      Lookup(orderStatuses, id)
    }

    /** `update`: an unconditional overwrite. */
    method Update(id: OrderId, state: OrderState)
      modifies this
      ensures orderStatuses == old(orderStatuses)[id := state]
      ensures Get(id) == Some(state)
    {
      orderStatuses := orderStatuses[id := state];
    }

    /** `remove`. */
    method Remove(id: OrderId)
      modifies this
      ensures orderStatuses == old(orderStatuses) - {id}
      ensures Get(id) == None
    {
      orderStatuses := orderStatuses - {id};
    }

    /** `getOrderIdsByState`. */
    function GetOrderIdsByState(state: OrderState): (r: set<OrderId>)
      reads this
      ensures forall id :: id in r <==> Get(id) == Some(state)
    {
      IdsInState(orderStatuses, state)
    }
  }
}
