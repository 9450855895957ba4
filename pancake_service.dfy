/** `PancakeService`: the order lifecycle over the three in-memory stores. The service
    takes no locks; operations are modelled one at a time. */
module Service {
  import opened Wrappers
  import opened Ingredients
  import opened Recipes
  import opened Orders
  import opened OrderRepository
  import opened PancakeRepository
  import opened OrderStates

  /** The exceptions the service raises: `OrderNotFoundException` and the
      `ValidationException` passed on from the factory. */
  datatype ServiceError = OrderNotFound(id: OrderId) | Invalid(cause: ValidationError)

  /** The pair `deliverOrder` returns: the order and its pancake descriptions. */
  datatype Delivery = Delivery(order: Order, pancakes: seq<string>)

  /** The fixed recipes of the five `add*Pancake` methods. */
  const DarkChocolateRecipe: PancakeRecipe := Pancake([DarkChocolate])
  const DarkChocolateWhippedCreamRecipe: PancakeRecipe := Pancake([DarkChocolate, WhippedCream])
  const DarkChocolateWhippedCreamHazelnutsRecipe: PancakeRecipe :=
    Pancake([DarkChocolate, WhippedCream, Hazelnuts])
  const MilkChocolateRecipe: PancakeRecipe := Pancake([MilkChocolate])
  const MilkChocolateHazelnutsRecipe: PancakeRecipe := Pancake([MilkChocolate, Hazelnuts])

  /** What an `add*Pancake(id, count)` call does to the pancake store: an id with no
      saved order is refused and nothing is added; otherwise `count` copies of the
      recipe (none if `count <= 0`) go at the end of the id's list. */
  predicate CopiesAdded(before: Store, after: Store, orders: seq<Order>, id: OrderId,
                        recipe: PancakeRecipe, count: int, r: Outcome<ServiceError>)
  {
    && (r.Fail? <==> id !in OrderIds(orders))
    && (r.Fail? ==> r.error == OrderNotFound(id) && after == before)
    && (r.Pass? ==> after == AppendCopies(before, id, recipe, count))
  }

  class PancakeService {
    const orderRepository: InMemoryOrderRepository
    const orderFactory: OrderFactory
    const orderStateService: InMemoryOrderStateService
    const pancakeRepository: InMemoryPancakeRepository

    /** The pancake store keeps no empty list. */
    ghost predicate Valid()
      reads this, pancakeRepository
    {
      pancakeRepository.Valid()
    }

    /** The stores agree: every id holding pancakes has a saved order, and every saved
        order has a state. */
    ghost predicate Consistent()
      reads this, orderRepository, orderStateService, pancakeRepository
    {
      && pancakeRepository.orderPancakes.Keys <= OrderIds(orderRepository.orders)
      && OrderIds(orderRepository.orders) <= orderStateService.orderStates.Keys
    }

    constructor (orderRepository: InMemoryOrderRepository, orderFactory: OrderFactory,
                 orderStateService: InMemoryOrderStateService,
                 pancakeRepository: InMemoryPancakeRepository)
      ensures this.orderRepository == orderRepository
      ensures this.orderFactory == orderFactory
      ensures this.orderStateService == orderStateService
      ensures this.pancakeRepository == pancakeRepository
    {
      this.orderRepository := orderRepository;
      this.orderFactory := orderFactory;
      this.orderStateService := orderStateService;
      this.pancakeRepository := pancakeRepository;
    }

    /** `createOrder`: the factory validates first, so a rejected location saves
        nothing and sets no state; otherwise the new order is saved and marked CREATED.
        `freshId` stands for the id the order is given at construction. */
    method CreateOrder(freshId: OrderId, building: int, room: int)
      returns (r: Result<Order, ServiceError>)
      modifies orderRepository, orderStateService
      ensures r.Failure? <==> Orders.CreateOrder(orderFactory, freshId, building, room).Failure?
      ensures r.Failure? ==>
        && r.error == Invalid(Orders.CreateOrder(orderFactory, freshId, building, room).error)
        && unchanged(orderRepository, orderStateService)
      ensures r.Success? ==>
        && r.value == Order(freshId, building, room)
        && orderRepository.orders == old(orderRepository.orders) + [r.value]
        && orderStateService.orderStates == old(orderStateService.orderStates)[freshId := Created]
      ensures old(Consistent()) ==> Consistent()
    {
      var created := Orders.CreateOrder(orderFactory, freshId, building, room);
      if created.Failure? {
        return Failure(Invalid(created.error));
      }
      var order := created.value;
      orderRepository.Save(order);
      orderStateService.Update(order.id, Created);
      r := Success(order);
    }

    /** The private `addPancake`: one recipe at the end of the order's list. */
    method AddPancake(recipe: PancakeRecipe, order: Order)
      requires Valid()
      modifies pancakeRepository
      ensures Valid()
      ensures pancakeRepository.orderPancakes
           == AppendCopies(old(pancakeRepository.orderPancakes), order.id, recipe, 1)
    {
      var size := pancakeRepository.AddPancake(order.id, recipe);
    }

    /** One pass of the loop in the `add*Pancake` methods: a fresh builder, the fixed
        ingredients, `build`, then `addPancake`. */
    method AddBuiltPancake(ingredients: seq<Ingredient>, order: Order)
      requires Valid() && |ingredients| > 0
      modifies pancakeRepository
      ensures Valid()
      ensures pancakeRepository.orderPancakes
           == AppendCopies(old(pancakeRepository.orderPancakes), order.id, Pancake(ingredients), 1)
    {
      var builder := new Builder();
      builder := builder.WithIngredients(ingredients);
      assert builder.ingredients == ingredients;
      var built := builder.Build();
      assert built.value == Pancake(ingredients);
      AddPancake(built.value, order);
    }

    /** The body shared by the five `add*Pancake` methods: look the order up, then
        build the recipe afresh and add it, `count` times. */
    method AddCopies(id: OrderId, ingredients: seq<Ingredient>, count: int)
      returns (r: Outcome<ServiceError>)
      requires Valid() && |ingredients| > 0
      modifies pancakeRepository
      ensures Valid()
      ensures CopiesAdded(old(pancakeRepository.orderPancakes), pancakeRepository.orderPancakes,
                          orderRepository.orders, id, Pancake(ingredients), count, r)
      ensures old(Consistent()) ==> Consistent()
    {
      var found := orderRepository.FindById(id);
      if found.None? {
        return Fail(OrderNotFound(id));
      }
      var order := found.value;
      ghost var before := pancakeRepository.orderPancakes;
      var i := 0;
      while i < count
        invariant 0 <= i && (count <= 0 ==> i == 0) && (count > 0 ==> i <= count)
        invariant Valid()
        invariant pancakeRepository.orderPancakes == AppendCopies(before, id, Pancake(ingredients), i)
      {
        AddBuiltPancake(ingredients, order);
        AppendCopiesCompose(before, id, Pancake(ingredients), i, 1);
        i := i + 1;
      }
      r := Pass;
    }

    /** `addDarkChocolatePancake`. */
    method AddDarkChocolatePancake(id: OrderId, count: int) returns (r: Outcome<ServiceError>)
      requires Valid()
      modifies pancakeRepository
      ensures Valid()
      ensures CopiesAdded(old(pancakeRepository.orderPancakes), pancakeRepository.orderPancakes,
                          orderRepository.orders, id, DarkChocolateRecipe, count, r)
      ensures old(Consistent()) ==> Consistent()
    {
      r := AddCopies(id, DarkChocolateRecipe.ingredients, count);
    }

    /** `addDarkChocolateWhippedCreamPancake`. */
    method AddDarkChocolateWhippedCreamPancake(id: OrderId, count: int) returns (r: Outcome<ServiceError>)
      requires Valid()
      modifies pancakeRepository
      ensures Valid()
      ensures CopiesAdded(old(pancakeRepository.orderPancakes), pancakeRepository.orderPancakes,
                          orderRepository.orders, id, DarkChocolateWhippedCreamRecipe, count, r)
      ensures old(Consistent()) ==> Consistent()
    {
      r := AddCopies(id, DarkChocolateWhippedCreamRecipe.ingredients, count);
    }

    /** `addDarkChocolateWhippedCreamHazelnutsPancake`. */
    method AddDarkChocolateWhippedCreamHazelnutsPancake(id: OrderId, count: int)
      returns (r: Outcome<ServiceError>)
      requires Valid()
      modifies pancakeRepository
      ensures Valid()
      ensures CopiesAdded(old(pancakeRepository.orderPancakes), pancakeRepository.orderPancakes,
                          orderRepository.orders, id, DarkChocolateWhippedCreamHazelnutsRecipe, count, r)
      ensures old(Consistent()) ==> Consistent()
    {
      r := AddCopies(id, DarkChocolateWhippedCreamHazelnutsRecipe.ingredients, count);
    }

    /** `addMilkChocolatePancake`. */
    method AddMilkChocolatePancake(id: OrderId, count: int) returns (r: Outcome<ServiceError>)
      requires Valid()
      modifies pancakeRepository
      ensures Valid()
      ensures CopiesAdded(old(pancakeRepository.orderPancakes), pancakeRepository.orderPancakes,
                          orderRepository.orders, id, MilkChocolateRecipe, count, r)
      ensures old(Consistent()) ==> Consistent()
    {
      r := AddCopies(id, MilkChocolateRecipe.ingredients, count);
    }

    /** `addMilkChocolateHazelnutsPancake`. */
    method AddMilkChocolateHazelnutsPancake(id: OrderId, count: int) returns (r: Outcome<ServiceError>)
      requires Valid()
      modifies pancakeRepository
      ensures Valid()
      ensures CopiesAdded(old(pancakeRepository.orderPancakes), pancakeRepository.orderPancakes,
                          orderRepository.orders, id, MilkChocolateHazelnutsRecipe, count, r)
      ensures old(Consistent()) ==> Consistent()
    {
      r := AddCopies(id, MilkChocolateHazelnutsRecipe.ingredients, count);
    }

    /** `viewOrder`: the pancake descriptions of the order, in the order they were added. */
    function ViewOrder(id: OrderId): (r: seq<string>)
      reads this, pancakeRepository
      ensures r == Descriptions(ItemsOf(pancakeRepository.orderPancakes, id))
    {
      pancakeRepository.ViewOrderPancakes(id)
    }

    /** `removePancakes`: the removal runs first and only then is the order looked up,
        so an unknown id is reported after the store has been asked to remove. */
    method RemovePancakes(description: string, id: OrderId, count: int)
      returns (r: Outcome<ServiceError>)
      requires Valid()
      modifies pancakeRepository
      ensures Valid()
      ensures pancakeRepository.orderPancakes
           == RemoveFromStore(old(pancakeRepository.orderPancakes), id, description, count)
      ensures r.Fail? <==> id !in OrderIds(orderRepository.orders)
      ensures r.Fail? ==> r.error == OrderNotFound(id)
      ensures old(Consistent()) && r.Fail? ==>
        pancakeRepository.orderPancakes == old(pancakeRepository.orderPancakes)
      ensures old(Consistent()) ==> Consistent()
    {
      ghost var before := pancakeRepository.orderPancakes;
      ghost var consistent := Consistent();
      var removed := pancakeRepository.RemovePancakes(id, description, count);
      var found := orderRepository.FindById(id);
      if found.None? {
        if consistent {
          assert id !in before;
        }
        return Fail(OrderNotFound(id));
      }
      r := Pass;
    }

    /** `cancelOrder`: an unknown id is refused with no change; otherwise the order's
        pancakes, the order and its state all go. */
    method CancelOrder(id: OrderId) returns (r: Outcome<ServiceError>)
      requires Valid()
      modifies orderRepository, orderStateService, pancakeRepository
      ensures Valid()
      ensures r.Fail? <==> id !in OrderIds(old(orderRepository.orders))
      ensures r.Fail? ==>
        r.error == OrderNotFound(id) && unchanged(orderRepository, orderStateService, pancakeRepository)
      ensures r.Pass? ==>
        && pancakeRepository.orderPancakes == old(pancakeRepository.orderPancakes) - {id}
        && orderRepository.orders == WithoutId(old(orderRepository.orders), id)
        && orderStateService.orderStates == old(orderStateService.orderStates) - {id}
      ensures old(Consistent()) ==> Consistent()
    {
      var found := orderRepository.FindById(id);
      if found.None? {
        return Fail(OrderNotFound(id));
      }
      var order := found.value;
      pancakeRepository.Remove(id);
      orderRepository.DeleteById(id);
      orderStateService.Remove(id);
      r := Pass;
    }

    /** `completeOrder`: a blind overwrite with COMPLETED, with no existence check. */
    method CompleteOrder(id: OrderId)
      modifies orderStateService
      ensures orderStateService.orderStates == old(orderStateService.orderStates)[id := Completed]
      ensures id in ListCompletedOrders() && id !in ListPreparedOrders()
      ensures old(Consistent()) ==> Consistent()
    {
      orderStateService.Update(id, Completed);
    }

    /** `listCompletedOrders`. */
    function ListCompletedOrders(): (r: set<OrderId>)
      reads this, orderStateService
      ensures forall id :: id in r <==> orderStateService.Get(id) == Some(Completed)
    {
      orderStateService.GetOrderIdsByState(Completed)
    }

    /** `prepareOrder`: a blind overwrite with PREPARED, with no existence check. */
    method PrepareOrder(id: OrderId)
      modifies orderStateService
      ensures orderStateService.orderStates == old(orderStateService.orderStates)[id := Prepared]
      ensures id in ListPreparedOrders() && id !in ListCompletedOrders()
      ensures old(Consistent()) ==> Consistent()
    {
      orderStateService.Update(id, Prepared);
    }

    /** `listPreparedOrders`. */
    function ListPreparedOrders(): (r: set<OrderId>)
      reads this, orderStateService
      ensures forall id :: id in r <==> orderStateService.Get(id) == Some(Prepared)
    {
      orderStateService.GetOrderIdsByState(Prepared)
    }

    /** `deliverOrder`: acts only on a PREPARED order (otherwise `null`, here `None`,
        and nothing changes); a PREPARED id without a saved order is refused before
        anything is removed; otherwise the order and its descriptions as they were are
        handed over and the order is torn down in all three stores. */
    method DeliverOrder(id: OrderId) returns (r: Result<Option<Delivery>, ServiceError>)
      requires Valid()
      modifies orderRepository, orderStateService, pancakeRepository
      ensures Valid()
      ensures old(orderStateService.Get(id)) != Some(Prepared) ==>
        r == Success(None) && unchanged(orderRepository, orderStateService, pancakeRepository)
      ensures old(orderStateService.Get(id)) == Some(Prepared) && id !in OrderIds(old(orderRepository.orders)) ==>
        r == Failure(OrderNotFound(id)) && unchanged(orderRepository, orderStateService, pancakeRepository)
      ensures old(orderStateService.Get(id)) == Some(Prepared) && id in OrderIds(old(orderRepository.orders)) ==>
        && r == Success(Some(Delivery(old(orderRepository.FindById(id)).value, old(ViewOrder(id)))))
        && pancakeRepository.orderPancakes == old(pancakeRepository.orderPancakes) - {id}
        && orderRepository.orders == WithoutId(old(orderRepository.orders), id)
        && orderStateService.orderStates == old(orderStateService.orderStates) - {id}
      ensures old(Consistent()) ==> Consistent()
    {
      if orderStateService.Get(id) != Some(Prepared) {
        return Success(None);
      }
      var found := orderRepository.FindById(id);
      if found.None? {
        return Failure(OrderNotFound(id));
      }
      var order := found.value;
      var pancakesToDeliver := ViewOrder(id);
      pancakeRepository.Remove(id);
      orderRepository.DeleteById(id);
      orderStateService.Remove(id);
      r := Success(Some(Delivery(order, pancakesToDeliver)));
    }
  }
}
