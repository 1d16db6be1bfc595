/** The smaller services around the order: stores, catalog, collaborators, subscriptions, errands. */
module Stores {
  import opened Wrappers
  import opened Documents

  function CreateStore(s: State, user: User, delivery: DeliveryConfig): Result<State, Error> {
    if user.role != Seller then Failure(Forbidden)
    else Success(s.(stores := s.stores + [Store(user.id, Closed, delivery, None, Rating(0.0, 0))]))
  }

  function UpdateStore(s: State, user: User, storeId: Id, delivery: DeliveryConfig): Result<State, Error> {
    if storeId >= |s.stores| then Failure(NotFound)
    else if s.stores[storeId].ownerId != user.id && !user.IsAdmin() then Failure(Forbidden)
    else Success(s.(stores := s.stores[storeId := s.stores[storeId].(delivery := delivery)]))
  }

  function SetStatus(s: State, user: User, storeId: Id, status: StoreStatus): Result<State, Error> {
    if storeId >= |s.stores| then Failure(NotFound)
    else
      var store := s.stores[storeId];
      var suspension := status == Suspended || store.status == Suspended;
      if suspension && !user.IsAdmin() then Failure(Forbidden)
      else if !suspension && store.ownerId != user.id && !user.IsAdmin() then Failure(Forbidden)
      else Success(s.(stores := s.stores[storeId := store.(status := status)]))
  }
}

module Catalog {
  import opened Wrappers
  import opened Documents
  import Orders

  /** The fields of `ProductUpdate` that were set. */
  datatype ProductUpdate = ProductUpdate(price: Option<int>, stock: Option<Option<int>>, isAvailable: Option<bool>)

  function CreateProduct(s: State, user: User, storeId: Id, price: int, stock: Option<int>): Result<State, Error> {
    match Orders.StoreGuard(s, user, storeId)
    case Some(error) => Failure(error)
    case None => Success(s.(products := s.products + [Some(Product(storeId, price, stock, true))]))
  }

  function UpdateProduct(s: State, user: User, productId: Id, update: ProductUpdate): Result<State, Error> {
    var found := Orders.GetProduct(s.products, productId);
    if found.None? then Failure(NotFound)
    else match Orders.StoreGuard(s, user, found.value.storeId)
         case Some(error) => Failure(error)
         case None => Success(s.(products := s.products[productId := Some(found.value.(
             price := if update.price.Some? then update.price.value else found.value.price,
             stock := if update.stock.Some? then update.stock.value else found.value.stock,
             isAvailable := if update.isAvailable.Some? then update.isAvailable.value else found.value.isAvailable))]))
  }

  function DeleteProduct(s: State, user: User, productId: Id): Result<State, Error> {
    var found := Orders.GetProduct(s.products, productId);
    if found.None? then Failure(NotFound)
    else match Orders.StoreGuard(s, user, found.value.storeId)
         case Some(error) => Failure(error)
         case None => Success(s.(products := s.products[productId := None]))
  }
}

module Collaborators {
  import opened Wrappers
  import opened Documents

  function BecomeCollaborator(s: State, user: User): Result<State, Error> {
    if user.role != Collaborator then Failure(Forbidden)
    else if user.id in s.profiles then Failure(AlreadyCollaborator)
    else Success(s.(profiles := s.profiles[user.id := Profile(Unverified, Offline, Rating(0.0, 0))]))
  }

  /** Going online needs coordinates; `OnDelivery` is not for the collaborator to set. */
  function ResolveAvailability(status: Availability, located: bool): Result<Availability, Error> {
    match status
    case Online => if located then Success(Online) else Failure(LocationRequired)
    case Offline => Success(Offline)
    case OnDelivery => Failure(InvalidStatus)
  }

  function SetAvailability(s: State, user: User, status: Availability, located: bool): Result<State, Error> {
    if user.id !in s.profiles then Failure(NotFound)
    else if s.profiles[user.id].verification != VerificationStatus.Approved then Failure(NotApproved)
    else
      var availability :- ResolveAvailability(status, located);
      Success(s.(profiles := s.profiles[user.id := s.profiles[user.id].(availability := availability)]))
  }

  function Verify(s: State, target: Id, status: VerificationStatus): Result<State, Error> {
    if target !in s.profiles then Failure(NotFound)
    else Success(s.(profiles := s.profiles[target := s.profiles[target].(verification := status)]))
  }
}

module Subscriptions {
  import opened Wrappers
  import opened Documents
  import Orders

  function SetRate(stores: seq<Store>, storeId: Id, rate: Option<real>): seq<Store>
    requires storeId < |stores|
  {
    stores[storeId := stores[storeId].(commissionRate := rate)]
  }

  function Subscribe(s: State, user: User, storeId: Id): Result<State, Error> {
    match Orders.StoreGuard(s, user, storeId)
    case Some(error) => Failure(error)
    case None =>
      var rate := s.settings.premiumCommissionRate;
      Success(s.(subscriptions := s.subscriptions[storeId := Subscription(Active, rate)],
                 stores := SetRate(s.stores, storeId, Some(rate))))
  }

  function Cancel(s: State, user: User, storeId: Id): Result<State, Error> {
    match Orders.StoreGuard(s, user, storeId)
    case Some(error) => Failure(error)
    case None =>
      if storeId !in s.subscriptions || s.subscriptions[storeId].status != Active then Failure(NoActiveSubscription)
      else Success(s.(subscriptions := s.subscriptions[storeId := s.subscriptions[storeId].(status := Lapsed)],
                      stores := SetRate(s.stores, storeId, None)))
  }
}

module Errands {
  import opened Wrappers
  import opened Documents
  import Payments

  function NextStatus(current: ErrandStatus): Option<ErrandStatus> {
    match current
    case Assigned => Some(ErrandStatus.InProgress)
    case InProgress => Some(ErrandStatus.Completed)
    case _ => None
  }

  predicate CanCancel(current: ErrandStatus) {
    current in {ErrandStatus.Open, ErrandStatus.Assigned}
  }

  function RecordStatus(errand: Errand, status: ErrandStatus): Errand {
    errand.(status := status, history := errand.history + [status])
  }

  function CreateErrand(s: State, user: User, offeredFee: int): State {
    s.(errands := s.errands +
      [RecordStatus(Errand(user.id, offeredFee, ErrandStatus.Open, [], None, None), ErrandStatus.Open)])
  }

  function Accept(s: State, user: User, errandId: Id): Result<State, Error> {
    if user.role != Collaborator then Failure(Forbidden)
    else if errandId >= |s.errands| then Failure(NotFound)
    else if s.errands[errandId].status != ErrandStatus.Open then Failure(InvalidTransition)
    else Success(s.(errands := s.errands[errandId :=
      RecordStatus(s.errands[errandId].(collaboratorId := Some(user.id)), ErrandStatus.Assigned)]))
  }

  /** On completion the errand is paid and keeps the id of the payment, if one was made. */
  function AdvanceStatus(s: State, user: User, errandId: Id, target: ErrandStatus, now: int): Result<State, Error> {
    if errandId >= |s.errands| then Failure(NotFound)
    else
      var errand := s.errands[errandId];
      if errand.collaboratorId != Some(user.id) then Failure(Forbidden)
      else if NextStatus(errand.status) != Some(target) then Failure(InvalidTransition)
      else
        var s1 := s.(errands := s.errands[errandId := RecordStatus(errand, target)]);
        if target != ErrandStatus.Completed then Success(s1)
        else
          var s2 := Payments.SettleErrandPayment(s1, errandId, now);
          if |s2.payments| == |s.payments| then Success(s2)
          else Success(s2.(errands := s2.errands[errandId := s2.errands[errandId].(paymentId := Some(|s.payments|))]))
  }

  function Cancel(s: State, user: User, errandId: Id): Result<State, Error> {
    if errandId >= |s.errands| then Failure(NotFound)
    else
      var errand := s.errands[errandId];
      if errand.clientId != user.id && !user.IsAdmin() then Failure(Forbidden)
      else if !CanCancel(errand.status) then Failure(InvalidTransition)
      else Success(s.(errands := s.errands[errandId := RecordStatus(errand, ErrandStatus.Cancelled)]))
  }
}
