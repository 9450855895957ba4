/** Orders and the rules for creating them: the `Order` identity record, the validator
    configuration, the range validator and the two order factories. */
module Orders {
  import opened Wrappers

  /** A `java.util.UUID`: a 128-bit value, compared only for equality. */
  newtype OrderId = x: int | 0 <= x < 0x1_0000_0000_0000_0000_0000_0000_0000_0000

  /** An order: its id, fixed once at construction, and its location. The getters
      `getId`, `getBuilding` and `getRoom` are the field selectors. */
  datatype Order = Order(id: OrderId, building: int, room: int)

  /** What `Order.equals(Object)` may be handed. */
  datatype Reference = NullReference | OtherObject | OrderObject(order: Order)

  /** `Order.equals`: the same object, or another order with the same id; never null
      or an object of another class. Building and room play no part. */
  function Equals(self: Order, other: Reference): (r: bool)
    ensures r <==> other.OrderObject? && other.order.id == self.id
  {
    if other == OrderObject(self) then true
    else if other.NullReference? || other.OtherObject? then false
    else other.order.id == self.id
  }

  /** `Order.hashCode`: the id's hash, for whatever hash `UUID` computes. It depends on
      the id alone, so every order sharing the id hashes alike. */
  function HashCode(self: Order, idHash: OrderId -> int): (h: int)
    ensures forall other: Order :: other.id == self.id ==> h == idHash(other.id)
  {
    idHash(self.id)
  }

  /** Equality is an equivalence on orders, and equal orders hash alike. */
  lemma EqualsIsEquivalence(a: Order, b: Order, c: Order, idHash: OrderId -> int)
    ensures Equals(a, OrderObject(a))
    ensures Equals(a, OrderObject(b)) == Equals(b, OrderObject(a))
    ensures Equals(a, OrderObject(b)) && Equals(b, OrderObject(c)) ==> Equals(a, OrderObject(c))
    ensures Equals(a, OrderObject(b)) ==> HashCode(a, idHash) == HashCode(b, idHash)
  {
  }

  /** The four bounds an `OrderValidator` checks against; the getters are the selectors. */
  datatype OrderValidatorConfig = OrderValidatorConfig(
    minBuildingNumber: int, maxBuildingNumber: int, minRoomNumber: int, maxRoomNumber: int)

  /** The `IllegalArgumentException` of the configuration's constructor. */
  datatype ConfigError = NegativeBound

  /** The public constructor of `OrderValidatorConfig`: every bound must be non-negative
      (zero is allowed); the bounds are not checked against each other. */
  function NewOrderValidatorConfig(minBuilding: int, maxBuilding: int, minRoom: int, maxRoom: int)
    : (r: Result<OrderValidatorConfig, ConfigError>)
    ensures r.Failure? <==> minBuilding < 0 || maxBuilding < 0 || minRoom < 0 || maxRoom < 0
    ensures r.Failure? ==> r.error == NegativeBound
    ensures r.Success? ==> && r.value.minBuildingNumber == minBuilding
                           && r.value.maxBuildingNumber == maxBuilding
                           && r.value.minRoomNumber == minRoom
                           && r.value.maxRoomNumber == maxRoom
  {
    if minBuilding < 0 || maxBuilding < 0 || minRoom < 0 || maxRoom < 0 then
      Failure(NegativeBound)
    else
      Success(OrderValidatorConfig(minBuilding, maxBuilding, minRoom, maxRoom))
  }

  datatype OrderValidator = OrderValidator(config: OrderValidatorConfig)

  /** The `ValidationException`s, carrying the bounds their messages quote. */
  datatype ValidationError =
    | BuildingOutOfRange(minBuilding: int, maxBuilding: int)
    | RoomOutOfRange(minRoom: int, maxRoom: int)

  predicate BuildingInRange(config: OrderValidatorConfig, building: int)
  {
    config.minBuildingNumber <= building <= config.maxBuildingNumber
  }

  predicate RoomInRange(config: OrderValidatorConfig, room: int)
  {
    config.minRoomNumber <= room <= config.maxRoomNumber
  }

  /** `OrderValidator.validate`: both inclusive ranges must hold; the building is checked
      first, so when both are wrong the building error is the one reported. */
  function Validate(validator: OrderValidator, building: int, room: int): (r: Outcome<ValidationError>)
    ensures r.Pass? <==> BuildingInRange(validator.config, building) && RoomInRange(validator.config, room)
    ensures !BuildingInRange(validator.config, building) ==>
      r == Fail(BuildingOutOfRange(validator.config.minBuildingNumber, validator.config.maxBuildingNumber))
    ensures BuildingInRange(validator.config, building) && !RoomInRange(validator.config, room) ==>
      r == Fail(RoomOutOfRange(validator.config.minRoomNumber, validator.config.maxRoomNumber))
  {
    var c := validator.config;
    if building < c.minBuildingNumber || building > c.maxBuildingNumber then
      Fail(BuildingOutOfRange(c.minBuildingNumber, c.maxBuildingNumber))
    else if room < c.minRoomNumber || room > c.maxRoomNumber then
      Fail(RoomOutOfRange(c.minRoomNumber, c.maxRoomNumber))
    else
      Pass
  }

  /** The order factory: `org.pancakelab.model.OrderFactory`, which the service uses, and
      `org.pancakelab.model.orders.DefaultOrderFactory`, the implementation of the factory
      interface. The two classes have the same body, so one datatype stands for both. */
  datatype OrderFactory = OrderFactory(validator: OrderValidator)

  /** `createOrder`: validate, then construct an order under the fresh id the caller
      supplies (the source draws a random UUID). An invalid location yields the
      validator's error and no order. */
  function CreateOrder(factory: OrderFactory, freshId: OrderId, building: int, room: int)
    : (r: Result<Order, ValidationError>)
    ensures r.Success? <==> BuildingInRange(factory.validator.config, building)
                            && RoomInRange(factory.validator.config, room)
    ensures r.Failure? ==> Validate(factory.validator, building, room) == Fail(r.error)
    ensures r.Success? ==> r.value == Order(freshId, building, room)
  {
    match Validate(factory.validator, building, room)
    case Fail(e) => Failure(e)
    case Pass => Success(Order(freshId, building, room))
  }

  /** The factory keeps nothing between calls: two calls with the same location both
      succeed or both fail, and two successes under different ids are different orders
      at the same place. */
  lemma {:induction false} FactoryHasNoMemory(factory: OrderFactory, id1: OrderId, id2: OrderId, building: int, room: int)
    requires id1 != id2
    ensures CreateOrder(factory, id1, building, room).Success? == CreateOrder(factory, id2, building, room).Success?
    ensures CreateOrder(factory, id1, building, room).Success? ==>
      var o1, o2 := CreateOrder(factory, id1, building, room).value, CreateOrder(factory, id2, building, room).value;
      !Equals(o1, OrderObject(o2)) && o1.building == o2.building && o1.room == o2.room
  {
  }

  /** The validation traces of the tests, for buildings in [1, 10] and rooms in [1, 1000]:
      each of the four out-of-range directions fails, the exact bounds pass. */
  lemma TestedBounds()
    ensures var f := OrderFactory(OrderValidator(NewOrderValidatorConfig(1, 10, 1, 1000).value));
      && CreateOrder(f, 0, 0, 1) == Failure(BuildingOutOfRange(1, 10))
      && CreateOrder(f, 0, 11, 1) == Failure(BuildingOutOfRange(1, 10))
      && CreateOrder(f, 0, 1, 0) == Failure(RoomOutOfRange(1, 1000))
      && CreateOrder(f, 0, 1, 1001) == Failure(RoomOutOfRange(1, 1000))
      && CreateOrder(f, 0, 0, 0) == Failure(BuildingOutOfRange(1, 10))
      && CreateOrder(f, 0, 1, 1).Success?
      && CreateOrder(f, 0, 10, 1000).Success?
  {
  }
}
