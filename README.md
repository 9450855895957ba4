# pancake-lab, modelled in Dafny

Pancake Lab takes pancake orders for rooms in a set of buildings. An order is created
for a building and room that a validator admits. Pancakes built from a fixed list of
ingredients are added to the order and can be removed again by their description.
The order is then marked completed, then prepared, and finally delivered or cancelled.
The `PancakeService` orchestrates three in-memory stores:

- the order repository, a list of saved orders;
- the pancake repository, a map from order id to the order's list of pancake recipes;
- the order state service, a map from order id to its lifecycle state.

The model follows the Java code class by class.

- Each store is a Dafny `class` whose field is the Java collection as a value: `seq<Order>`,
  `map<OrderId, seq<PancakeRecipe>>` or `map<OrderId, OrderState>`. Its methods reassign the
  field and state the new contents exactly, in terms of pure functions on those values.
- The pure functions carry the algebra of each store. For example, `FindFirst` is the first
  match, and `RemoveFirst` removes the first `count` pancakes that match.
- Lemmas relate the operations to one another: find after save and after delete, deleting
  twice, removal taking the earliest matches and keeping everything else in order, the
  batch law for additions, and the partition of ids by state.
- The iterator loop of `InMemoryPancakeRepository.removePancakes` is an imperative walk with
  a cursor. It is proved equal to `RemoveFirst`, with the removed count equal to
  `RemovedCount`.
- Value objects are datatypes: `Order` and its equality, `OrderValidatorConfig`,
  `OrderValidator`, the order factory, `Ingredient`, and `Pancake`. The recipe
  `description()` is also modelled, and proved injective, so removal by description is
  removal by recipe.
- `Pancake.Builder` is a class with a mutable ingredient list.
- Exceptions become results: `Result`, `Outcome`, and `Option` for `null`.
- `PancakeService` keeps a cross-store invariant, `Consistent`: every id holding pancakes
  has a saved order, and every saved order has a state. Every public operation preserves it.
- The JUnit traces of `PancakeServiceTest` are replayed in `Scenarios` and proved to give the
  results the tests assert. The `OrderTest` traces are `Orders.TestedBounds` and
  `Orders.FactoryHasNoMemory`; the `PancakeTest` traces are `Recipes.DarkChocolateDescription`
  and `Recipes.MilkChocolateHazelnutsDescription`.

Modules, one per file:

| module | file | covers |
|---|---|---|
| `Wrappers` | `wrappers.dfy` | `Option`, `Result`, `Outcome` |
| `Ingredients` | `ingredients.dfy` | `Ingredient` and its labels |
| `Recipes` | `recipes.dfy` | `Pancake`, `PancakeRecipe.description`, `Pancake.Builder`, `DefaultPancakeFactory` |
| `Orders` | `orders.dfy` | `Order`, `OrderValidatorConfig`, `OrderValidator`, and `OrderFactory` with `DefaultOrderFactory` (the same code) |
| `OrderRepository` | `order_repository.dfy` | `InMemoryOrderRepository` |
| `PancakeRepository` | `pancake_repository.dfy` | `InMemoryPancakeRepository` and the removal algebra |
| `OrderStates` | `order_states.dfy` | `OrderState`, `InMemoryOrderStateService`, `InMemoryOrderStateManager` |
| `Service` | `pancake_service.dfy` | `PancakeService` |
| `Scenarios` | `scenarios.dfy` | the traces of `PancakeServiceTest` |

Two behaviours of the code to note:

- `InMemoryOrderRepository.save` appends to a list. It does not overwrite by id. A second
  order with an existing id stays in the list, and `findById` still returns the earlier one
  (`FindAfterSave`).
- The code has no per-order locking. `PancakeService` calls the stores directly.

## Model

| member | source | states |
|---|---|---|
| `Ingredients.Label` | src/main/java/org/pancakelab/model/pancakes/Ingredient.java:8-21 | every ingredient's label is non-empty and contains no comma |
| `Ingredients.LabelFirstLetterIdentifies` | src/main/java/org/pancakelab/model/pancakes/Ingredient.java:8-11 | the four labels are distinct; their first letters already tell them apart |
| `Recipes.JoinLabels` | src/main/java/org/pancakelab/model/pancakes/PancakeRecipe.java:10-12 | the joined label list is empty exactly when there are no ingredients, and starts with the first ingredient's label |
| `Recipes.JoinLabelsInjective` | src/main/java/org/pancakelab/model/pancakes/PancakeRecipe.java:10-12 | different ingredient lists join to different strings |
| `Recipes.Description` | src/main/java/org/pancakelab/model/pancakes/PancakeRecipe.java:10-12 | the description is the fixed prefix "Delicious pancake with ", at least one label, then "!"; `Recipes.DescriptionIdentifiesRecipe` proves it determines the recipe, and the three description lemmas give the strings the tests expect |
| `Recipes.DescriptionIdentifiesRecipe` | src/main/java/org/pancakelab/model/pancakes/PancakeRecipe.java:10-12 | two recipes with the same description are the same recipe, so matching by description is matching by ingredients |
| `Recipes.DarkChocolateDescription` | src/test/java/org/pancakelab/model/PancakeTest.java:24-29 | a dark-chocolate pancake is described as the test expects |
| `Recipes.MilkChocolateDescription` | src/test/java/org/pancakelab/service/PancakeServiceTest.java:49 | a milk-chocolate pancake is described as the service test expects |
| `Recipes.MilkChocolateHazelnutsDescription` | src/test/java/org/pancakelab/model/PancakeTest.java:33-38 | a two-ingredient pancake's labels are joined by ", " in order |
| `Recipes.Builder.constructor` | src/main/java/org/pancakelab/model/pancakes/Pancake.java:29-31 | a new builder holds no ingredients |
| `Recipes.Builder.WithIngredients` | src/main/java/org/pancakelab/model/pancakes/Pancake.java:33-36 | the ingredients are appended in order and the builder itself is returned |
| `Recipes.Builder.Build` | src/main/java/org/pancakelab/model/pancakes/Pancake.java:38-43 | fails exactly on an empty list; otherwise the pancake holds exactly the accumulated ingredients |
| `Recipes.CreateRecipe` | src/main/java/org/pancakelab/model/pancakes/DefaultPancakeFactory.java:8-12 | fails exactly on an empty list; otherwise the recipe has exactly the given ingredients |
| `Orders.Equals` | src/main/java/org/pancakelab/model/orders/Order.java:34-40 | an order equals exactly the orders with its id; never null or another class |
| `Orders.HashCode` | src/main/java/org/pancakelab/model/orders/Order.java:42-45 | the hash depends on the id alone: every order with the same id hashes alike |
| `Orders.EqualsIsEquivalence` | src/main/java/org/pancakelab/model/orders/Order.java:34-45 | equality is reflexive, symmetric and transitive, and equal orders hash alike |
| `Orders.NewOrderValidatorConfig` | src/main/java/org/pancakelab/model/OrderValidatorConfig.java:16-24 | fails exactly when a bound is negative; otherwise keeps all four bounds |
| `Orders.Validate` | src/main/java/org/pancakelab/model/orders/OrderValidator.java:21-34 | passes exactly when both inclusive ranges hold; the building error takes precedence and carries the building bounds, the room error the room bounds |
| `Orders.CreateOrder` | src/main/java/org/pancakelab/model/OrderFactory.java:15-18 | succeeds exactly for a valid location, with the fresh id and that location; otherwise returns the validator's error (`model/orders/DefaultOrderFactory.java` lines 15-18 are the same code) |
| `Orders.FactoryHasNoMemory` | src/test/java/org/pancakelab/model/OrderTest.java:33-39 | two creations at the same place agree on success and give unequal orders at the same location |
| `Orders.TestedBounds` | src/test/java/org/pancakelab/model/OrderTest.java:43-47 | each of the four out-of-range directions fails with the right error, and the bounds themselves pass |
| `OrderRepository.FindFirst` | src/main/java/org/pancakelab/repository/impl/InMemoryOrderRepository.java:20-22 | absent exactly when no order has the id; otherwise the earliest order with it |
| `OrderRepository.WithoutId` | src/main/java/org/pancakelab/repository/impl/InMemoryOrderRepository.java:25-27 | exactly the orders without the id remain, and the id is gone from the ids |
| `OrderRepository.FindAfterSave` | src/main/java/org/pancakelab/repository/impl/InMemoryOrderRepository.java:15-22 | after a save the new order is found unless an earlier order has its id; other ids are found as before |
| `OrderRepository.FindAfterDelete` | src/main/java/org/pancakelab/repository/impl/InMemoryOrderRepository.java:20-27 | deleting one id leaves every other id's lookup unchanged |
| `OrderRepository.DeleteAbsent` | src/main/java/org/pancakelab/repository/impl/InMemoryOrderRepository.java:25-27 | deleting an absent id changes nothing |
| `OrderRepository.DeleteIdempotent` | src/main/java/org/pancakelab/repository/impl/InMemoryOrderRepository.java:25-27 | deleting twice is deleting once |
| `OrderRepository.DeleteKeepsOrder` | src/main/java/org/pancakelab/repository/impl/InMemoryOrderRepository.java:25-27 | deletion distributes over concatenation, keeping the survivors in order |
| `OrderRepository.InMemoryOrderRepository.constructor` | src/main/java/org/pancakelab/repository/impl/InMemoryOrderRepository.java:12 | starts empty |
| `OrderRepository.InMemoryOrderRepository.Save` | src/main/java/org/pancakelab/repository/impl/InMemoryOrderRepository.java:15-17 | the order is appended at the end |
| `OrderRepository.InMemoryOrderRepository.FindById` | src/main/java/org/pancakelab/repository/impl/InMemoryOrderRepository.java:20-22 | absent exactly when no saved order has the id; otherwise a saved order with that id |
| `OrderRepository.InMemoryOrderRepository.DeleteById` | src/main/java/org/pancakelab/repository/impl/InMemoryOrderRepository.java:25-27 | every order with the id is dropped and the id is no longer found |
| `PancakeRepository.Descriptions` | src/main/java/org/pancakelab/repository/impl/InMemoryPancakeRepository.java:15-19 | one description per recipe, position by position |
| `PancakeRepository.DescriptionsAppend` | src/main/java/org/pancakelab/repository/impl/InMemoryPancakeRepository.java:15-19 | the view of two lists joined is the two views joined |
| `PancakeRepository.HasDescription` | src/main/java/org/pancakelab/repository/impl/InMemoryPancakeRepository.java:48 | given a description of some recipe, the removal test holds exactly for the pancakes of that one recipe |
| `PancakeRepository.CountMatching` | src/main/java/org/pancakelab/repository/impl/InMemoryPancakeRepository.java:46-52 | never more matches than items |
| `PancakeRepository.RemoveFirst` | src/main/java/org/pancakelab/repository/impl/InMemoryPancakeRepository.java:43-52 | removal never lengthens the list |
| `PancakeRepository.RemoveFirstLength` | src/main/java/org/pancakelab/repository/impl/InMemoryPancakeRepository.java:43-58 | exactly `min(count, matches)` items go, none for a count of zero or less |
| `PancakeRepository.RemoveFirstKeepsOthers` | src/main/java/org/pancakelab/repository/impl/InMemoryPancakeRepository.java:46-52 | the non-matching pancakes all stay, in their order |
| `PancakeRepository.RemoveFirstLeavesMatches` | src/main/java/org/pancakelab/repository/impl/InMemoryPancakeRepository.java:46-52 | the matches beyond the removed count all stay |
| `PancakeRepository.RemoveFirstTakesEarliest` | src/main/java/org/pancakelab/repository/impl/InMemoryPancakeRepository.java:44-52 | the removed matches are the earliest ones: a front without its matches, then the untouched rest |
| `PancakeRepository.EarliestSplitStep` | src/main/java/org/pancakelab/repository/impl/InMemoryPancakeRepository.java:46-52 | one step of the walk extends a split of the rest of the list to the whole list |
| `PancakeRepository.RemoveFirstAppend` | src/main/java/org/pancakelab/repository/impl/InMemoryPancakeRepository.java:46-52 | over a concatenation, the front gives up what it can and the back the rest of the budget |
| `PancakeRepository.RemovedCountStep` | src/main/java/org/pancakelab/repository/impl/InMemoryPancakeRepository.java:47-51 | a matching first item uses one unit of the budget; a non-matching one uses none |
| `PancakeRepository.RemoveFirstNoMatch` | src/main/java/org/pancakelab/repository/impl/InMemoryPancakeRepository.java:46-52 | a list without matches is left as it is |
| `PancakeRepository.RemoveFirstAllMatch` | src/main/java/org/pancakelab/repository/impl/InMemoryPancakeRepository.java:46-52 | from a list of matches, the first `count` go |
| `PancakeRepository.RemoveFirstFromRun` | src/main/java/org/pancakelab/repository/impl/InMemoryPancakeRepository.java:46-52 | past a part without matches, a removal takes the first `count` of a run of matches |
| `PancakeRepository.WalkStart` | src/main/java/org/pancakelab/repository/impl/InMemoryPancakeRepository.java:43-46 | before the walk the loop invariant holds with the whole budget |
| `PancakeRepository.WalkRemoveStep` | src/main/java/org/pancakelab/repository/impl/InMemoryPancakeRepository.java:47-51 | `iter.remove()` on a match keeps the loop invariant with one unit less of budget |
| `PancakeRepository.WalkSkipStep` | src/main/java/org/pancakelab/repository/impl/InMemoryPancakeRepository.java:46-48 | passing over a non-matching pancake keeps the loop invariant |
| `PancakeRepository.WalkEnd` | src/main/java/org/pancakelab/repository/impl/InMemoryPancakeRepository.java:46 | when the list is exhausted or the budget spent, what is left is the final result |
| `PancakeRepository.RemoveWalk` | src/main/java/org/pancakelab/repository/impl/InMemoryPancakeRepository.java:43-58 | the iterator loop leaves exactly `RemoveFirst` of the list and reports exactly `RemovedCount` |
| `PancakeRepository.Repeat` | src/main/java/org/pancakelab/service/PancakeService.java:47-51 | `count` copies of the recipe |
| `PancakeRepository.AppendCopies` | src/main/java/org/pancakelab/repository/impl/InMemoryPancakeRepository.java:23-29 | a positive count creates the id's entry; other ids are untouched |
| `PancakeRepository.AppendCopiesCompose` | src/main/java/org/pancakelab/service/PancakeService.java:47-51 | adding in two batches is adding the total once |
| `PancakeRepository.AppendCopiesView` | src/main/java/org/pancakelab/repository/impl/InMemoryPancakeRepository.java:15-29 | the view after the additions is the old view followed by the recipe's description `count` times |
| `PancakeRepository.RemoveFromStore` | src/main/java/org/pancakelab/repository/impl/InMemoryPancakeRepository.java:37-59 | an unknown id changes nothing; the id's list becomes `RemoveFirst` of it; other ids are untouched; an emptied list loses its key, so no key ever holds an empty list |
| `PancakeRepository.RemoveFromStoreRun` | src/main/java/org/pancakelab/repository/impl/InMemoryPancakeRepository.java:37-59 | removal from a list shaped as no matches, then a run of matches, then a tail |
| `PancakeRepository.InMemoryPancakeRepository.constructor` | src/main/java/org/pancakelab/repository/impl/InMemoryPancakeRepository.java:12 | starts empty |
| `PancakeRepository.InMemoryPancakeRepository.ViewOrderPancakes` | src/main/java/org/pancakelab/repository/impl/InMemoryPancakeRepository.java:15-19 | the descriptions of the id's recipes, in insertion order; empty for an unknown id |
| `PancakeRepository.InMemoryPancakeRepository.AddPancake` | src/main/java/org/pancakelab/repository/impl/InMemoryPancakeRepository.java:23-29 | the recipe is appended to the id's list, creating it if needed, and the new size is returned |
| `PancakeRepository.InMemoryPancakeRepository.Remove` | src/main/java/org/pancakelab/repository/impl/InMemoryPancakeRepository.java:32-34 | the id's entry is dropped, and its view and count become empty |
| `PancakeRepository.InMemoryPancakeRepository.RemovePancakes` | src/main/java/org/pancakelab/repository/impl/InMemoryPancakeRepository.java:37-59 | the store becomes `RemoveFromStore` of the old one, and the result is the number removed |
| `PancakeRepository.InMemoryPancakeRepository.GetPancakesCount` | src/main/java/org/pancakelab/repository/impl/InMemoryPancakeRepository.java:62-64 | the length of the view; zero exactly when the id has no pancakes |
| `OrderStates.Lookup` | src/main/java/org/pancakelab/service/impl/InMemoryOrderStateService.java:20-22 | present exactly for ids in the table, with their state |
| `OrderStates.IdsInState` | src/main/java/org/pancakelab/service/impl/InMemoryOrderStateService.java:35-40 | exactly the ids whose current state is the one asked for |
| `OrderStates.IdsInStatePartition` | src/main/java/org/pancakelab/model/OrderState.java:10-14 | the three listings are disjoint and together cover every id in the table |
| `OrderStates.LookupAfterUpdate` | src/main/java/org/pancakelab/service/impl/InMemoryOrderStateService.java:20-27 | after an update the id reads the new state; other ids read as before |
| `OrderStates.LookupAfterRemove` | src/main/java/org/pancakelab/service/impl/InMemoryOrderStateService.java:20-32 | after a removal the id is absent, other ids read as before, and removing an absent id changes nothing |
| `OrderStates.IdsAfterUpdate` | src/main/java/org/pancakelab/service/impl/InMemoryOrderStateService.java:25-40 | an update moves the id into its new state's listing and out of every other |
| `OrderStates.IdsAfterRemove` | src/main/java/org/pancakelab/service/impl/InMemoryOrderStateService.java:30-40 | a removal takes the id out of every listing |
| `OrderStates.InMemoryOrderStateService.constructor` | src/main/java/org/pancakelab/service/impl/InMemoryOrderStateService.java:17 | starts empty |
| `OrderStates.InMemoryOrderStateService.Get` | src/main/java/org/pancakelab/service/impl/InMemoryOrderStateService.java:20-22 | the id's state, present exactly for ids in the map |
| `OrderStates.InMemoryOrderStateService.Update` | src/main/java/org/pancakelab/service/impl/InMemoryOrderStateService.java:25-27 | an unconditional overwrite; the id then reads the new state |
| `OrderStates.InMemoryOrderStateService.Remove` | src/main/java/org/pancakelab/service/impl/InMemoryOrderStateService.java:30-32 | the id's entry is dropped and it reads as absent |
| `OrderStates.InMemoryOrderStateService.GetOrderIdsByState` | src/main/java/org/pancakelab/service/impl/InMemoryOrderStateService.java:35-40 | exactly the ids currently in the state |
| `OrderStates.InMemoryOrderStateManager.constructor` | src/main/java/org/pancakelab/service/impl/InMemoryOrderStateManager.java:14 | starts empty |
| `OrderStates.InMemoryOrderStateManager.Get` | src/main/java/org/pancakelab/service/impl/InMemoryOrderStateManager.java:17-19 | the id's state, present exactly for ids in the map |
| `OrderStates.InMemoryOrderStateManager.Update` | src/main/java/org/pancakelab/service/impl/InMemoryOrderStateManager.java:22-24 | an unconditional overwrite; the id then reads the new state |
| `OrderStates.InMemoryOrderStateManager.Remove` | src/main/java/org/pancakelab/service/impl/InMemoryOrderStateManager.java:27-29 | the id's entry is dropped and it reads as absent |
| `OrderStates.InMemoryOrderStateManager.GetOrderIdsByState` | src/main/java/org/pancakelab/service/impl/InMemoryOrderStateManager.java:32-37 | exactly the ids currently in the state |
| `Service.PancakeService.constructor` | src/main/java/org/pancakelab/service/PancakeService.java:24-36 | the service holds the stores and factory it is given |
| `Service.PancakeService.CreateOrder` | src/main/java/org/pancakelab/service/PancakeService.java:38-43 | an invalid location fails with the validator's error and changes nothing; otherwise the order is saved at the end and marked CREATED, and the stores stay consistent |
| `Service.PancakeService.AddPancake` | src/main/java/org/pancakelab/service/PancakeService.java:94-97 | one recipe is appended to the order's list |
| `Service.PancakeService.AddBuiltPancake` | src/main/java/org/pancakelab/service/PancakeService.java:48-50 | a freshly built pancake with exactly the given ingredients is appended to the order's list |
| `Service.PancakeService.AddCopies` | src/main/java/org/pancakelab/service/PancakeService.java:45-52 | an unknown id fails with order-not-found and adds nothing; otherwise exactly `count` copies of the recipe are appended to that order only |
| `Service.PancakeService.AddDarkChocolatePancake` | src/main/java/org/pancakelab/service/PancakeService.java:45-52 | `count` dark-chocolate pancakes, or order-not-found with no change |
| `Service.PancakeService.AddDarkChocolateWhippedCreamPancake` | src/main/java/org/pancakelab/service/PancakeService.java:54-61 | the same for dark chocolate with whipped cream |
| `Service.PancakeService.AddDarkChocolateWhippedCreamHazelnutsPancake` | src/main/java/org/pancakelab/service/PancakeService.java:63-70 | the same for dark chocolate, whipped cream and hazelnuts |
| `Service.PancakeService.AddMilkChocolatePancake` | src/main/java/org/pancakelab/service/PancakeService.java:72-79 | the same for milk chocolate |
| `Service.PancakeService.AddMilkChocolateHazelnutsPancake` | src/main/java/org/pancakelab/service/PancakeService.java:81-88 | the same for milk chocolate with hazelnuts |
| `Service.PancakeService.ViewOrder` | src/main/java/org/pancakelab/service/PancakeService.java:90-92 | the descriptions of the order's pancakes, in insertion order |
| `Service.PancakeService.RemovePancakes` | src/main/java/org/pancakelab/service/PancakeService.java:99-104 | the removal is applied first; the call fails with order-not-found exactly for an id without an order, and then nothing was removed |
| `Service.PancakeService.CancelOrder` | src/main/java/org/pancakelab/service/PancakeService.java:106-114 | an unknown id fails with no change; otherwise the order, its pancakes and its state are all removed |
| `Service.PancakeService.CompleteOrder` | src/main/java/org/pancakelab/service/PancakeService.java:116-118 | a blind overwrite with COMPLETED, even for an unknown id; the id is then listed as completed and not as prepared |
| `Service.PancakeService.ListCompletedOrders` | src/main/java/org/pancakelab/service/PancakeService.java:120-123 | exactly the ids whose state is COMPLETED |
| `Service.PancakeService.PrepareOrder` | src/main/java/org/pancakelab/service/PancakeService.java:125-127 | a blind overwrite with PREPARED; the id is then listed as prepared and not as completed |
| `Service.PancakeService.ListPreparedOrders` | src/main/java/org/pancakelab/service/PancakeService.java:129-131 | exactly the ids whose state is PREPARED |
| `Service.PancakeService.DeliverOrder` | src/main/java/org/pancakelab/service/PancakeService.java:133-144 | an order not PREPARED yields `null` with no change; a PREPARED id without an order fails; otherwise the order and its old view are returned and all three stores forget the id |
| `Scenarios.TestDescriptions` | src/test/java/org/pancakelab/service/PancakeServiceTest.java:48-50 | the test recipes render as the test strings, which are pairwise distinct |
| `Scenarios.RemovalTraceWith` | src/test/java/org/pancakelab/service/PancakeServiceTest.java:114-127 | for any three recipes with distinct descriptions, the three removals leave the first recipe and two of the third |
| `Scenarios.LoadedWithItems` | src/test/java/org/pancakelab/service/PancakeServiceTest.java:215-219 | three additions of three copies lay the recipes out in runs |
| `Scenarios.TakeTwoOfFirst` | src/test/java/org/pancakelab/service/PancakeServiceTest.java:118 | removing two from the first run leaves one |
| `Scenarios.TakeAllOfSecond` | src/test/java/org/pancakelab/service/PancakeServiceTest.java:119 | removing three empties the second run |
| `Scenarios.TakeOneOfThird` | src/test/java/org/pancakelab/service/PancakeServiceTest.java:120 | removing one from the third run leaves two |
| `Scenarios.RemovalTrace` | src/test/java/org/pancakelab/service/PancakeServiceTest.java:114-127 | the removal test's store trace on the test recipes |
| `Scenarios.RemovalTraceView` | src/test/java/org/pancakelab/service/PancakeServiceTest.java:125-127 | the remaining recipes render as the strings the test expects |
| `Scenarios.NewService` | src/test/java/org/pancakelab/service/PancakeServiceTest.java:32-44 | a service over fresh empty stores is valid and consistent |
| `Scenarios.LoadedService` | src/test/java/org/pancakelab/service/PancakeServiceTest.java:79-99 | after creating an order and adding 3 + 3 + 3 pancakes, the order is saved, CREATED, and holds the loaded list |
| `Scenarios.CreationScenario` | src/test/java/org/pancakelab/service/PancakeServiceTest.java:54-75 | the order gets the requested location, and each of the four invalid locations is refused with its validation error |
| `Scenarios.RemovedService` | src/test/java/org/pancakelab/service/PancakeServiceTest.java:114-120 | the service's store after the three removals |
| `Scenarios.RemovalScenario` | src/test/java/org/pancakelab/service/PancakeServiceTest.java:114-127 | the view after the removals is the list the test asserts |
| `Scenarios.DeliveryScenario` | src/test/java/org/pancakelab/service/PancakeServiceTest.java:134-189 | completion lists the order as completed; preparation moves it to prepared; delivery returns the order with its view, after which it is listed nowhere and its view is empty |
| `Scenarios.EarlyDeliveryScenario` | src/main/java/org/pancakelab/service/PancakeService.java:133-134 | delivering an order that is only CREATED returns `null` and keeps its pancakes |
| `Scenarios.UnknownOrderScenario` | src/test/java/org/pancakelab/service/PancakeServiceTest.java:103-110 | each of the five additions to an unknown id fails with order-not-found |
| `Scenarios.CancelScenario` | src/test/java/org/pancakelab/service/PancakeServiceTest.java:193-213 | cancelling succeeds, the order is listed nowhere and its view is empty, and a second cancellation fails with order-not-found |

## Left out

- Concurrency is left out: the `ConcurrentHashMap`s, thread safety, and `PancakeServiceConcurrencyTest`. Every operation is modelled as one sequential step.
- Logging is left out: `OrderLogger`, `ConsoleLogger`, `NoLogOrderLogger` and the service's log calls have no effect on state.
- UUID generation: `UUID.randomUUID()` becomes a `freshId` parameter of the factories and of `PancakeService.CreateOrder`.
- `Orders.HashCode` takes the UUID hash as a parameter, because the UUID hash function is not part of this model.
- Exception message texts are left out. The errors carry the bounds the messages quote, not the formatted strings.
- The repository and service interfaces (`OrderRepository`, `PancakeRepository`, `OrderStateService`, `OrderFactory`, `PancakeFactory`) are not modelled separately. `PancakeService` holds the in-memory classes directly.
- `PancakeService`'s `orderLogger` field and constructor parameter are left out.
- `PancakeServiceTest` constructs the service with four arguments, but the service takes five. `model/Order` and `model/OrderValidator`, which `model/OrderFactory` refers to, are not part of this model. `Orders.Order` and `Orders.OrderValidator` stand in for them.
- `Order.equals` on Java object identity, `null` and other classes is modelled by the value `Reference`.
- `Pancake.ingredients()`'s defensive copies are not modelled: datatypes are values, so there is nothing for the copies to protect.
- `InMemoryPancakeRepository.RemovePancakes` reassigns the map entry instead of mutating the stored list in place. Nothing else holds a reference to that list, so the aliasing is unobservable.
- Null ids are not modelled: `OrderId` has no null, so the `NullPointerException` that `ConcurrentHashMap.get`, `put` and `remove` throw on a null key (for example `deliverOrder(null)` at `PancakeService.java` line 134) has no counterpart.
- Id uniqueness is not proved: `freshId` is an unconstrained parameter, so nothing in the model guarantees that two orders get different ids; `FindAfterSave` states what happens when they do not.
- Java `int` overflow is not modelled: pancake counts and list sizes are unbounded.
- `Service.PancakeService.RemovePancakes`: the number of pancakes removed reaches only the logger, so it is not returned.
- `Service.PancakeService.AddCopies` requires a non-empty ingredient list, which every one of the five fixed recipes satisfies.
- `InMemoryOrderStateManager` is not used by `PancakeService`. It is modelled on its own.
