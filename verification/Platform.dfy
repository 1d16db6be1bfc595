/** Every service call as one atomic step, and runs of the platform. */
module Platform {
  import opened Wrappers
  import opened Documents
  import Orders
  import Payments
  import Deliveries
  import Settlements
  import Reviews
  import Stores
  import Catalog
  import Collaborators
  import Subscriptions
  import Errands

  datatype Call =
    | CreateStore(user: User, delivery: DeliveryConfig)
    | UpdateStore(user: User, storeId: Id, delivery: DeliveryConfig)
    | SetStoreStatus(user: User, storeId: Id, storeStatus: StoreStatus)
    | CreateProduct(user: User, storeId: Id, price: int, stock: Option<int>)
    | UpdateProduct(user: User, productId: Id, update: Catalog.ProductUpdate)
    | DeleteProduct(user: User, productId: Id)
    | CreateOrder(user: User, storeId: Id, lines: seq<Orders.Line>, payBy: PaymentMethod)
    | AcceptOrder(user: User, orderId: Id)
    | AdvanceOrder(user: User, orderId: Id, orderStatus: OrderStatus)
    | CancelOrder(user: User, orderId: Id)
    | AssignOrder(user: User, orderId: Id, near: seq<Id>)
    | AdvanceDelivery(user: User, deliveryId: Id, deliveryStatus: DeliveryStatus, now: int)
    | CreateIntent(user: User, orderId: Id)
    | Webhook(reference: Id, transactionId: string, wompiStatus: string, signed: bool, now: int)
    | GenerateSettlement(query: Settlements.Query)
    | MarkPaid(settlementId: Id)
    | CreateReview(user: User, orderId: Id, targetType: TargetType, stars: int)
    | BecomeCollaborator(user: User)
    | SetAvailability(user: User, availability: Availability, located: bool)
    | Verify(target: Id, verification: VerificationStatus)
    | Subscribe(user: User, storeId: Id)
    | CancelSubscription(user: User, storeId: Id)
    | CreateErrand(user: User, offeredFee: int)
    | AcceptErrand(user: User, errandId: Id)
    | AdvanceErrand(user: User, errandId: Id, errandStatus: ErrandStatus, now: int)
    | CancelErrand(user: User, errandId: Id)

  /** What the request schemas enforce before a service is called. */
  predicate WellFormed(c: Call) {
    match c
    case CreateProduct(_, _, price, stock) => price >= 0 && (stock.Some? ==> stock.value >= 0)
    case UpdateProduct(_, _, update) =>
      && (update.price.Some? ==> update.price.value >= 0)
      && (update.stock.Some? && update.stock.value.Some? ==> update.stock.value.value >= 0)
    case CreateOrder(_, _, lines, _) => lines != [] && forall i :: 0 <= i < |lines| ==> lines[i].qty >= 1
    case CreateReview(_, _, _, stars) => 1 <= stars <= 5
    case CreateErrand(_, fee) => fee >= 1
    case _ => true
  }

  function Try(s: State, c: Call): Result<State, Error> {
    match c
    case CreateStore(user, delivery) => Stores.CreateStore(s, user, delivery)
    case UpdateStore(user, storeId, delivery) => Stores.UpdateStore(s, user, storeId, delivery)
    case SetStoreStatus(user, storeId, status) => Stores.SetStatus(s, user, storeId, status)
    case CreateProduct(user, storeId, price, stock) => Catalog.CreateProduct(s, user, storeId, price, stock)
    case UpdateProduct(user, productId, update) => Catalog.UpdateProduct(s, user, productId, update)
    case DeleteProduct(user, productId) => Catalog.DeleteProduct(s, user, productId)
    case CreateOrder(user, storeId, lines, payBy) => Orders.CreateOrder(s, user, storeId, lines, payBy)
    case AcceptOrder(user, orderId) => Orders.AcceptOrder(s, user, orderId)
    case AdvanceOrder(user, orderId, status) => Orders.AdvanceStatus(s, user, orderId, status)
    case CancelOrder(user, orderId) => Orders.CancelOrder(s, user, orderId)
    case AssignOrder(user, orderId, near) => Deliveries.AssignOrder(s, user, orderId, near)
    case AdvanceDelivery(user, deliveryId, status, now) => Deliveries.AdvanceStatus(s, user, deliveryId, status, now)
    case CreateIntent(user, orderId) => Payments.CreateIntent(s, user, orderId)
    case Webhook(reference, tx, status, signed, now) => Payments.HandleWebhook(s, reference, tx, status, signed, now)
    case GenerateSettlement(query) => Success(Settlements.GenerateSettlement(s, query))
    case MarkPaid(settlementId) => Settlements.MarkPaid(s, settlementId)
    case CreateReview(user, orderId, targetType, stars) => Reviews.CreateReview(s, user, orderId, targetType, stars)
    case BecomeCollaborator(user) => Collaborators.BecomeCollaborator(s, user)
    case SetAvailability(user, status, located) => Collaborators.SetAvailability(s, user, status, located)
    case Verify(target, status) => Collaborators.Verify(s, target, status)
    case Subscribe(user, storeId) => Subscriptions.Subscribe(s, user, storeId)
    case CancelSubscription(user, storeId) => Subscriptions.Cancel(s, user, storeId)
    case CreateErrand(user, fee) => Success(Errands.CreateErrand(s, user, fee))
    case AcceptErrand(user, errandId) => Errands.Accept(s, user, errandId)
    case AdvanceErrand(user, errandId, status, now) => Errands.AdvanceStatus(s, user, errandId, status, now)
    case CancelErrand(user, errandId) => Errands.Cancel(s, user, errandId)
  }

  /** A call that raises changes nothing. */
  function Step(s: State, c: Call): State {
    match Try(s, c)
    case Success(s') => s'
    case Failure(_) => s
  }

  function Run(s: State, calls: seq<Call>): State {
    if calls == [] then s else Step(Run(s, calls[..|calls| - 1]), calls[|calls| - 1])
  }

  predicate AllWellFormed(calls: seq<Call>) {
    forall i :: 0 <= i < |calls| ==> WellFormed(calls[i])
  }
}
