/** The traces of the service tests, replayed on fresh stores: buildings 1 to 10,
    rooms 1 to 100, and the three recipes the tests add. */
module Scenarios {
  import opened Wrappers
  import opened Recipes
  import opened Orders
  import opened OrderRepository
  import opened PancakeRepository
  import opened OrderStates
  import opened Service

  const TestFactory := OrderFactory(OrderValidator(NewOrderValidatorConfig(1, 10, 1, 100).value))

  const DarkText := "Delicious pancake with dark chocolate!"
  const MilkText := "Delicious pancake with milk chocolate!"
  const MilkHazelnutsText := "Delicious pancake with milk chocolate, hazelnuts!"

  /** The three recipes of the tests render as the strings the tests remove by. */
  lemma TestDescriptions()
    ensures Description(DarkChocolateRecipe) == DarkText
    ensures Description(MilkChocolateRecipe) == MilkText
    ensures Description(MilkChocolateHazelnutsRecipe) == MilkHazelnutsText
    ensures DarkText != MilkText && DarkText != MilkHazelnutsText && MilkText != MilkHazelnutsText
  {
    DarkChocolateDescription();
    MilkChocolateDescription();
    MilkChocolateHazelnutsDescription();
    assert DarkText[23] != MilkText[23] && DarkText[23] != MilkHazelnutsText[23];
    assert MilkText[37] != MilkHazelnutsText[37];
  }

  /** The store after adding 3 dark, 3 milk and 3 milk-and-hazelnut pancakes. */
  function Loaded(id: OrderId): Store
  {
    LoadedWith(id, DarkChocolateRecipe, MilkChocolateRecipe, MilkChocolateHazelnutsRecipe)
  }

  /** The store after adding three copies each of three recipes. */
  function LoadedWith(id: OrderId, d: PancakeRecipe, m: PancakeRecipe, h: PancakeRecipe): Store
  {
    AppendCopies(AppendCopies(AppendCopies(map[], id, d, 3), id, m, 3), id, h, 3)
  }

  /** Removing 2 of the first recipe, 3 of the second and 1 of the third from three
      copies of each leaves one of the first and two of the third, in that order. */
  lemma RemovalTraceWith(id: OrderId, d: PancakeRecipe, m: PancakeRecipe, h: PancakeRecipe)
    requires Description(d) != Description(m) && Description(d) != Description(h)
    requires Description(m) != Description(h)
    ensures var s1 := RemoveFromStore(LoadedWith(id, d, m, h), id, Description(d), 2);
            var s2 := RemoveFromStore(s1, id, Description(m), 3);
            var s3 := RemoveFromStore(s2, id, Description(h), 1);
            ItemsOf(s3, id) == [d, h, h]
  {
    var s0 := LoadedWith(id, d, m, h);
    LoadedWithItems(id, d, m, h);
    var s1 := RemoveFromStore(s0, id, Description(d), 2);
    TakeTwoOfFirst(s0, id, d, m, h);
    var s2 := RemoveFromStore(s1, id, Description(m), 3);
    TakeAllOfSecond(s1, id, d, m, h);
    TakeOneOfThird(s2, id, d, h);
  }

  lemma LoadedWithItems(id: OrderId, d: PancakeRecipe, m: PancakeRecipe, h: PancakeRecipe)
    ensures ItemsOf(LoadedWith(id, d, m, h), id) == [] + Repeat(d, 3) + (Repeat(m, 3) + Repeat(h, 3))
  {
    assert ItemsOf(AppendCopies(map[], id, d, 3), id) == [] + Repeat(d, 3);
  }

  lemma TakeTwoOfFirst(s0: Store, id: OrderId, d: PancakeRecipe, m: PancakeRecipe, h: PancakeRecipe)
    requires ItemsOf(s0, id) == [] + Repeat(d, 3) + (Repeat(m, 3) + Repeat(h, 3))
    ensures ItemsOf(RemoveFromStore(s0, id, Description(d), 2), id) == [d] + Repeat(m, 3) + Repeat(h, 3)
  {
    RemoveFromStoreRun(s0, id, [], Repeat(d, 3), Repeat(m, 3) + Repeat(h, 3), Description(d), 2);
    assert Repeat(d, 3)[2..] == [d];
  }

  lemma TakeAllOfSecond(s1: Store, id: OrderId, d: PancakeRecipe, m: PancakeRecipe, h: PancakeRecipe)
    requires Description(d) != Description(m)
    requires ItemsOf(s1, id) == [d] + Repeat(m, 3) + Repeat(h, 3)
    ensures ItemsOf(RemoveFromStore(s1, id, Description(m), 3), id) == [d] + Repeat(h, 3)
  {
    RemoveFromStoreRun(s1, id, [d], Repeat(m, 3), Repeat(h, 3), Description(m), 3);
    assert Repeat(m, 3)[3..] == [];
  }

  lemma TakeOneOfThird(s2: Store, id: OrderId, d: PancakeRecipe, h: PancakeRecipe)
    requires Description(d) != Description(h)
    requires ItemsOf(s2, id) == [d] + Repeat(h, 3)
    ensures ItemsOf(RemoveFromStore(s2, id, Description(h), 1), id) == [d, h, h]
  {
    assert [d] + Repeat(h, 3) == [d] + Repeat(h, 3) + [];
    RemoveFromStoreRun(s2, id, [d], Repeat(h, 3), [], Description(h), 1);
  }

  /** The removal test's trace: removing 2 dark, 3 milk and 1 milk-and-hazelnut
      pancake, by the tests' strings, from the loaded order. */
  lemma RemovalTrace(id: OrderId)
    ensures var s1 := RemoveFromStore(Loaded(id), id, DarkText, 2);
            var s2 := RemoveFromStore(s1, id, MilkText, 3);
            var s3 := RemoveFromStore(s2, id, MilkHazelnutsText, 1);
            ItemsOf(s3, id) == [DarkChocolateRecipe, MilkChocolateHazelnutsRecipe, MilkChocolateHazelnutsRecipe]
  {
    TestDescriptions();
    RemovalTraceWith(id, DarkChocolateRecipe, MilkChocolateRecipe, MilkChocolateHazelnutsRecipe);
  }

  /** A service over three fresh, empty stores. */
  method NewService() returns (service: PancakeService)
    ensures fresh(service) && fresh(service.orderRepository)
    ensures fresh(service.orderStateService) && fresh(service.pancakeRepository)
    ensures service.orderFactory == TestFactory
    ensures service.orderRepository.orders == []
    ensures service.orderStateService.orderStates == map[]
    ensures service.pancakeRepository.orderPancakes == map[]
    ensures service.Valid() && service.Consistent()
  {
    var orders := new InMemoryOrderRepository();
    var states := new InMemoryOrderStateService();
    var pancakes := new InMemoryPancakeRepository();
    service := new PancakeService(orders, TestFactory, states, pancakes);
  }

  /** Creating an order and adding 3 + 3 + 3 pancakes to it. */
  method LoadedService(id: OrderId) returns (service: PancakeService, order: Order)
    ensures fresh(service) && fresh(service.orderRepository)
    ensures fresh(service.orderStateService) && fresh(service.pancakeRepository)
    ensures order == Order(id, 1, 1)
    ensures service.orderRepository.orders == [order]
    ensures service.orderStateService.orderStates == map[id := Created]
    ensures service.pancakeRepository.orderPancakes == Loaded(id)
    ensures service.Valid() && service.Consistent()
  {
    service := NewService();
    var created := service.CreateOrder(id, 1, 1);
    order := created.value;
    assert id in OrderIds(service.orderRepository.orders) by {
      assert service.orderRepository.orders[0] == order;
    }
    var r1 := service.AddDarkChocolatePancake(id, 3);
    var r2 := service.AddMilkChocolatePancake(id, 3);
    var r3 := service.AddMilkChocolateHazelnutsPancake(id, 3);
  }

  /** The creation tests: the order carries the requested location, and the four
      out-of-range locations are refused with the building or room error. */
  method CreationScenario(id: OrderId) returns (order: Order, refused: seq<Result<Order, ServiceError>>)
    ensures order.id == id && order.building == 1 && order.room == 1
    ensures refused == [Failure(Invalid(BuildingOutOfRange(1, 10))), Failure(Invalid(BuildingOutOfRange(1, 10))),
                        Failure(Invalid(RoomOutOfRange(1, 100))), Failure(Invalid(RoomOutOfRange(1, 100)))]
  {
    var service := NewService();
    var created := service.CreateOrder(id, 1, 1);
    order := created.value;
    var tooLow := service.CreateOrder(id, 0, 1);
    var tooHigh := service.CreateOrder(id, 11, 1);
    var roomLow := service.CreateOrder(id, 1, 0);
    var roomHigh := service.CreateOrder(id, 1, 101);
    refused := [tooLow, tooHigh, roomLow, roomHigh];
  }

  /** The descriptions of what the removal test leaves, as the test spells them. */
  lemma RemovalTraceView()
    ensures Descriptions([DarkChocolateRecipe, MilkChocolateHazelnutsRecipe, MilkChocolateHazelnutsRecipe])
         == [DarkText, MilkHazelnutsText, MilkHazelnutsText]
  {
    TestDescriptions();
  }

  /** The loaded order after the removal test's three removals. */
  method RemovedService(id: OrderId) returns (service: PancakeService)
    ensures fresh(service.pancakeRepository)
    ensures ItemsOf(service.pancakeRepository.orderPancakes, id)
         == [DarkChocolateRecipe, MilkChocolateHazelnutsRecipe, MilkChocolateHazelnutsRecipe]
  {
    var order;
    service, order := LoadedService(id);
    var r1 := service.RemovePancakes(DarkText, id, 2);
    var r2 := service.RemovePancakes(MilkText, id, 3);
    var r3 := service.RemovePancakes(MilkHazelnutsText, id, 1);
    RemovalTrace(id);
  }

  /** The removal test: from 3 + 3 + 3 pancakes, removing 2 dark, 3 milk and 1 milk and
      hazelnut pancake leaves [dark, milk and hazelnuts, milk and hazelnuts]. */
  method RemovalScenario(id: OrderId) returns (view: seq<string>)
    ensures view == [DarkText, MilkHazelnutsText, MilkHazelnutsText]
  {
    var service := RemovedService(id);
    view := service.ViewOrder(id);
    RemovalTraceView();
  }

  /** The completion, preparation and delivery tests: a completed order is listed as
      completed; once prepared it is listed as prepared only; delivering hands over the
      order with its descriptions and leaves it in no listing, with an empty view. */
  method DeliveryScenario(id: OrderId)
    returns (completedFirst: bool, preparedThen: bool, completedThen: bool,
             delivered: Result<Option<Delivery>, ServiceError>, listedAfter: bool, viewAfter: seq<string>)
    ensures completedFirst && preparedThen && !completedThen
    ensures delivered.Success? && delivered.value.Some?
    ensures delivered.value.value.order == Order(id, 1, 1)
    ensures delivered.value.value.pancakes == Descriptions(ItemsOf(Loaded(id), id))
    ensures !listedAfter && viewAfter == []
  {
    var service, order := LoadedService(id);
    var before := service.ViewOrder(id);
    service.CompleteOrder(id);
    completedFirst := id in service.ListCompletedOrders();
    service.PrepareOrder(id);
    preparedThen := id in service.ListPreparedOrders();
    completedThen := id in service.ListCompletedOrders();
    assert service.orderRepository.orders[0] == order;
    delivered := service.DeliverOrder(id);
    listedAfter := id in service.ListCompletedOrders() || id in service.ListPreparedOrders();
    viewAfter := service.ViewOrder(id);
  }

  /** `deliverOrder` on an order that is only CREATED returns `null` and keeps it. */
  method EarlyDeliveryScenario(id: OrderId)
    returns (delivered: Result<Option<Delivery>, ServiceError>, viewAfter: seq<string>)
    ensures delivered == Success(None)
    ensures viewAfter == Descriptions(ItemsOf(Loaded(id), id))
  {
    var service, order := LoadedService(id);
    delivered := service.DeliverOrder(id);
    viewAfter := service.ViewOrder(id);
  }

  /** The unknown-id test: every `add*Pancake` on an id without an order is refused. */
  method UnknownOrderScenario(id: OrderId) returns (adds: seq<Outcome<ServiceError>>)
    ensures adds == seq(5, _ => Fail(OrderNotFound(id)))
  {
    var service := NewService();
    var a1 := service.AddDarkChocolatePancake(id, 1);
    var a2 := service.AddDarkChocolateWhippedCreamPancake(id, 1);
    var a3 := service.AddDarkChocolateWhippedCreamHazelnutsPancake(id, 1);
    var a4 := service.AddMilkChocolatePancake(id, 1);
    var a5 := service.AddMilkChocolateHazelnutsPancake(id, 1);
    adds := [a1, a2, a3, a4, a5];
  }

  /** The cancellation test: cancelling the loaded order empties its view and its
      listings, and cancelling it again is refused. */
  method CancelScenario(id: OrderId)
    returns (cancelled: Outcome<ServiceError>, listedAfter: bool, viewAfter: seq<string>,
             again: Outcome<ServiceError>)
    ensures cancelled == Pass && !listedAfter && viewAfter == []
    ensures again == Fail(OrderNotFound(id))
  {
    var service, order := LoadedService(id);
    assert service.orderRepository.orders[0] == order;
    cancelled := service.CancelOrder(id);
    listedAfter := id in service.ListCompletedOrders() || id in service.ListPreparedOrders();
    viewAfter := service.ViewOrder(id);
    assert OrderIds(service.orderRepository.orders) == {};
    again := service.CancelOrder(id);
  }
}
