/** What each family of calls leaves alone. */
module Frames {
  import opened Documents
  import opened Platform
  import Deliveries
  import Payments

  /** Calls that touch stores and their subscriptions. */
  predicate IsStoreCall(c: Call) {
    c.CreateStore? || c.UpdateStore? || c.SetStoreStatus? || c.Subscribe? || c.CancelSubscription?
  }

  predicate IsCatalogCall(c: Call) {
    c.CreateProduct? || c.UpdateProduct? || c.DeleteProduct?
  }

  predicate IsProfileCall(c: Call) {
    c.BecomeCollaborator? || c.SetAvailability? || c.Verify?
  }

  predicate IsSettlementCall(c: Call) {
    c.GenerateSettlement? || c.MarkPaid?
  }

  predicate IsErrandCall(c: Call) {
    c.CreateErrand? || c.AcceptErrand? || c.AdvanceErrand? || c.CancelErrand?
  }

  /** Calls by which a seller or client moves an order before it is dispatched. */
  predicate IsOrderMove(c: Call) {
    c.AcceptOrder? || c.AdvanceOrder? || c.CancelOrder?
  }

  predicate IsOrderCall(c: Call) {
    c.CreateOrder? || IsOrderMove(c) || c.AssignOrder? || c.AdvanceDelivery? || c.Webhook?
  }

  lemma StoreFrame(s: State, c: Call)
    requires IsStoreCall(c)
    ensures Step(s, c) == s.(stores := Step(s, c).stores, subscriptions := Step(s, c).subscriptions)
    ensures |s.stores| <= |Step(s, c).stores|
    ensures forall i :: 0 <= i < |s.stores| ==>
      Step(s, c).stores[i].ownerId == s.stores[i].ownerId && Step(s, c).stores[i].rating == s.stores[i].rating
  {
  }

  lemma CatalogFrame(s: State, c: Call)
    requires IsCatalogCall(c)
    ensures Step(s, c) == s.(products := Step(s, c).products)
  {
  }

  lemma ProfileFrame(s: State, c: Call)
    requires IsProfileCall(c)
    ensures Step(s, c) == s.(profiles := Step(s, c).profiles)
    ensures s.profiles.Keys <= Step(s, c).profiles.Keys
    ensures forall u :: u in s.profiles ==> Step(s, c).profiles[u].rating == s.profiles[u].rating
  {
  }

  lemma SettlementFrame(s: State, c: Call)
    requires IsSettlementCall(c)
    ensures Step(s, c) == s.(settlements := Step(s, c).settlements, ledger := Step(s, c).ledger)
    ensures c.MarkPaid? ==> Step(s, c).ledger == s.ledger
  {
  }

  lemma ReviewFrame(s: State, c: Call)
    requires c.CreateReview?
    ensures Step(s, c) ==
      s.(reviews := Step(s, c).reviews, stores := Step(s, c).stores, profiles := Step(s, c).profiles)
    ensures |Step(s, c).stores| == |s.stores| && Step(s, c).profiles.Keys == s.profiles.Keys
    ensures forall i :: 0 <= i < |s.stores| ==> Step(s, c).stores[i].(rating := s.stores[i].rating) == s.stores[i]
    ensures forall u :: u in s.profiles ==> Step(s, c).profiles[u].(rating := s.profiles[u].rating) == s.profiles[u]
  {
  }

  lemma ErrandFrame(s: State, c: Call)
    requires IsErrandCall(c)
    ensures Step(s, c) ==
      s.(errands := Step(s, c).errands, payments := Step(s, c).payments, ledger := Step(s, c).ledger)
  {
  }

  lemma IntentFrame(s: State, c: Call)
    requires c.CreateIntent?
    ensures Step(s, c) == s.(payments := Step(s, c).payments)
  {
  }

  /** Nothing changed but products, orders, deliveries, profiles, payments and the ledger. */
  predicate OrderSide(s: State, s': State) {
    && s'.settings == s.settings && s'.stores == s.stores && s'.subscriptions == s.subscriptions
    && s'.settlements == s.settlements && s'.errands == s.errands && s'.reviews == s.reviews
  }

  lemma DeliverySide(s: State, user: User, d: Id, status: DeliveryStatus, now: int)
    requires Deliveries.AdvanceStatus(s, user, d, status, now).Success?
    ensures OrderSide(s, Deliveries.AdvanceStatus(s, user, d, status, now).value)
  {
  }

  lemma WebhookSide(s: State, reference: Id, tx: string, status: string, signed: bool, now: int)
    requires Payments.HandleWebhook(s, reference, tx, status, signed, now).Success?
    ensures OrderSide(s, Payments.HandleWebhook(s, reference, tx, status, signed, now).value)
  {
  }

  lemma OrderFrame(s: State, c: Call)
    requires IsOrderCall(c)
    ensures OrderSide(s, Step(s, c))
  {
    if Try(s, c).Failure? {}
    else if c.AdvanceDelivery? { DeliverySide(s, c.user, c.deliveryId, c.deliveryStatus, c.now); }
    else if c.Webhook? { WebhookSide(s, c.reference, c.transactionId, c.wompiStatus, c.signed, c.now); }
  }

  /** The calls that neither write an order or a delivery nor take a store away. */
  lemma OrdersFrame(s: State, c: Call)
    requires !IsOrderCall(c)
    ensures Step(s, c).orders == s.orders && Step(s, c).deliveries == s.deliveries
    ensures |s.stores| <= |Step(s, c).stores|
    ensures forall i :: 0 <= i < |s.stores| ==> Step(s, c).stores[i].ownerId == s.stores[i].ownerId
  {
    if IsStoreCall(c) { StoreFrame(s, c); }
    else if IsCatalogCall(c) { CatalogFrame(s, c); }
    else if IsProfileCall(c) { ProfileFrame(s, c); }
    else if IsSettlementCall(c) { SettlementFrame(s, c); }
    else if IsErrandCall(c) { ErrandFrame(s, c); }
    else if c.CreateReview? { ReviewFrame(s, c); }
    else { IntentFrame(s, c); }
  }

  /** The calls that move neither an order nor a delivery. */
  lemma StatusFrame(s: State, c: Call)
    requires !IsOrderMove(c) && !c.AssignOrder? && !c.AdvanceDelivery?
    ensures Step(s, c).deliveries == s.deliveries && |s.orders| <= |Step(s, c).orders|
    ensures forall o :: 0 <= o < |s.orders| ==>
      Step(s, c).orders[o] == s.orders[o].(paymentId := Step(s, c).orders[o].paymentId)
  {
    if !IsOrderCall(c) { OrdersFrame(s, c); }
  }
}
