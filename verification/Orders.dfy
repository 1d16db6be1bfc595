/** app/orders: pure rules (logic.py) and what each service call does to the database (service.py). */
module OrderLogic {
  import opened Wrappers
  import opened Documents
  import opened Rounding

  function NextSellerStatus(current: OrderStatus): Option<OrderStatus> {
    match current
    case Accepted => Some(OrderStatus.Preparing)
    case Preparing => Some(OrderStatus.Ready)
    case _ => None
  }

  predicate CanCancel(current: OrderStatus) {
    current in {OrderStatus.Pending, OrderStatus.Accepted, OrderStatus.Preparing, OrderStatus.Ready}
  }

  function ExactFee(itemsTotal: int, rate: real): real {
    itemsTotal as real * rate
  }

  /** The commission withheld from the seller. */
  function PlatformFee(itemsTotal: int, rate: real): int {
    RoundHalfEven(ExactFee(itemsTotal, rate))
  }

  /** The client pays items + delivery - discount; the platform fee is withheld from the seller. */
  function ComputeAmounts(itemsTotal: int, baseFee: int, freeOver: Option<int>, rate: real, discount: int := 0)
    : OrderAmounts
  {
    var deliveryFee := if freeOver.Some? && itemsTotal >= freeOver.value then 0 else baseFee;
    OrderAmounts(itemsTotal, deliveryFee, PlatformFee(itemsTotal, rate), discount,
                 itemsTotal + deliveryFee - discount)
  }
}

module Orders {
  import opened Wrappers
  import opened Documents
  import opened Sequences
  import opened OrderLogic

  datatype Line = Line(productId: Id, qty: int)

  /** A product as it was loaded while validating, with the quantity to take from it. */
  datatype Decrement = Decrement(productId: Id, loaded: Product, qty: int)

  function GetProduct(products: seq<Option<Product>>, id: Id): Option<Product> {
    if id < |products| then products[id] else None
  }

  function RecordStatus(order: Order, status: OrderStatus, actor: Id): Order {
    order.(status := status, history := order.history + [StatusEvent(status, actor)])
  }

  function ValidateLine(products: seq<Option<Product>>, storeId: Id, line: Line): Result<OrderItem, Error> {
    var product := GetProduct(products, line.productId);
    if product.None? || product.value.storeId != storeId then Failure(InvalidProduct)
    else if !product.value.isAvailable then Failure(ProductUnavailable)
    else if product.value.stock.Some? && line.qty > product.value.stock.value then Failure(InsufficientStock)
    else Success(OrderItem(line.productId, product.value.price, line.qty, product.value.price * line.qty))
  }

  /** The items of an order, or the error of the first line at fault. */
  function ValidateLines(products: seq<Option<Product>>, storeId: Id, lines: seq<Line>): Result<seq<OrderItem>, Error> {
    if lines == [] then Success([])
    else
      var item :- ValidateLine(products, storeId, lines[0]);
      var rest :- ValidateLines(products, storeId, lines[1..]);
      Success([item] + rest)
  }

  /** `to_decrement`: every tracked line with its own copy of the product. */
  function Decrements(products: seq<Option<Product>>, lines: seq<Line>): seq<Decrement> {
    if lines == [] then []
    else
      var product := GetProduct(products, lines[0].productId);
      var rest := Decrements(products, lines[1..]);
      if product.Some? && product.value.stock.Some?
      then [Decrement(lines[0].productId, product.value, lines[0].qty)] + rest
      else rest
  }

  /** Saves the copies one after the other; each save replaces the whole document. */
  function Commit(products: seq<Option<Product>>, decrements: seq<Decrement>): seq<Option<Product>>
    decreases decrements
  {
    if decrements == [] then products
    else Commit(Taken(products, decrements[0]), decrements[1..])
  }

  function Taken(products: seq<Option<Product>>, d: Decrement): seq<Option<Product>> {
    var before := if d.loaded.stock.Some? then d.loaded.stock.value else 0;
    if d.productId < |products|
    then products[d.productId := Some(d.loaded.(stock := Some(before - d.qty)))]
    else products
  }

  /** Gives back every item, loading the product afresh each time. */
  function Restore(products: seq<Option<Product>>, items: seq<OrderItem>): seq<Option<Product>>
    decreases items
  {
    if items == [] then products
    else Restore(GivenBack(products, items[0]), items[1..])
  }

  function GivenBack(products: seq<Option<Product>>, item: OrderItem): seq<Option<Product>> {
    var product := GetProduct(products, item.productId);
    if product.Some? && product.value.stock.Some?
    then products[item.productId := Some(product.value.(stock := Some(product.value.stock.value + item.qty)))]
    else products
  }

  function Subtotal(): OrderItem -> int {
    (item: OrderItem) => item.subtotal
  }

  function RateOf(settings: Settings, store: Store): real {
    if store.commissionRate.Some? then store.commissionRate.value else settings.defaultCommissionRate
  }

  function AmountsFor(settings: Settings, store: Store, items: seq<OrderItem>): OrderAmounts {
    ComputeAmounts(Sum(items, Subtotal()), store.delivery.baseFee, store.delivery.freeOver, RateOf(settings, store))
  }

  function NewOrder(user: User, storeId: Id, items: seq<OrderItem>, amounts: OrderAmounts,
                    payBy: PaymentMethod): Order
  {
    RecordStatus(Order(user.id, storeId, items, amounts, OrderStatus.Pending, [], payBy, None, None),
                 OrderStatus.Pending, user.id)
  }

  function CreateOrder(s: State, user: User, storeId: Id, lines: seq<Line>, payBy: PaymentMethod)
    : Result<State, Error>
  {
    if storeId >= |s.stores| then Failure(NotFound)
    else if s.stores[storeId].status == Suspended then Failure(StoreUnavailable)
    else if s.stores[storeId].status != StoreStatus.Open then Failure(StoreNotOpen)
    else
      var store := s.stores[storeId];
      var items :- ValidateLines(s.products, storeId, lines);
      if Sum(items, Subtotal()) < store.delivery.minOrder then Failure(BelowMinOrder)
      else Success(s.(
        products := Commit(s.products, Decrements(s.products, lines)),
        orders := s.orders + [NewOrder(user, storeId, items, AmountsFor(s.settings, store, items), payBy)]))
  }

  /** `_assert_store_owner`. */
  function StoreGuard(s: State, user: User, storeId: Id): Option<Error> {
    if storeId >= |s.stores| then Some(NotFound)
    else if s.stores[storeId].ownerId != user.id && !user.IsAdmin() then Some(Forbidden)
    else None
  }

  function AcceptOrder(s: State, user: User, orderId: Id): Result<State, Error> {
    if orderId >= |s.orders| then Failure(NotFound)
    else
      var order := s.orders[orderId];
      match StoreGuard(s, user, order.storeId)
      case Some(error) => Failure(error)
      case None =>
        if order.status != OrderStatus.Pending then Failure(InvalidTransition)
        else Success(s.(orders := s.orders[orderId := RecordStatus(order, OrderStatus.Accepted, user.id)]))
  }

  function AdvanceStatus(s: State, user: User, orderId: Id, target: OrderStatus): Result<State, Error> {
    if orderId >= |s.orders| then Failure(NotFound)
    else
      var order := s.orders[orderId];
      match StoreGuard(s, user, order.storeId)
      case Some(error) => Failure(error)
      case None =>
        if NextSellerStatus(order.status) != Some(target) then Failure(InvalidTransition)
        else Success(s.(orders := s.orders[orderId := RecordStatus(order, target, user.id)]))
  }

  predicate MayCancel(s: State, user: User, order: Order) {
    || order.clientId == user.id
    || (order.storeId < |s.stores| && s.stores[order.storeId].ownerId == user.id)
    || user.IsAdmin()
  }

  function CancelOrder(s: State, user: User, orderId: Id): Result<State, Error> {
    if orderId >= |s.orders| then Failure(NotFound)
    else
      var order := s.orders[orderId];
      if !MayCancel(s, user, order) then Failure(Forbidden)
      else if !CanCancel(order.status) then Failure(InvalidTransition)
      else Success(s.(
        products := Restore(s.products, order.items),
        orders := s.orders[orderId := RecordStatus(order, OrderStatus.Cancelled, user.id)]))
  }
}
