/** Each remaining call in plain terms: exactly when it succeeds, with which error otherwise, and every
    field of what it leaves behind. */
module Effects {
  import opened Wrappers
  import opened Documents
  import opened Platform
  import opened DeliveryLogic
  import Orders
  import Deliveries
  import Payments
  import Reviews
  import Collaborators
  import Subscriptions
  import Errands
  import Stores
  import Catalog
  import Lifecycle
  import Accounts
  import Webhooks

  // ----- dispatch

  /** The nearest free collaborator gets the delivery, and is named by the order. */
  lemma AssignEffect(s: State, user: User, o: Id, near: seq<Id>) returns (i: nat)
    requires Deliveries.AssignOrder(s, user, o, near).Success?
    ensures i < |near| && Deliveries.Available(s.profiles, near[i])
    ensures forall j :: 0 <= j < i ==> !Deliveries.Available(s.profiles, near[j])
    ensures o < |s.orders|
    ensures var order := s.orders[o];
      Deliveries.AssignOrder(s, user, o, near).value == s.(
        deliveries := s.deliveries + [Delivery(OrderRef, o, near[i], DeliveryStatus.Assigned)],
        orders := s.orders[o := order.(
          collaboratorId := Some(near[i]), status := OrderStatus.Assigned,
          history := order.history + [StatusEvent(OrderStatus.Assigned, user.id)])],
        profiles := s.profiles[near[i] := s.profiles[near[i]].(availability := OnDelivery)])
  {
    i := Deliveries.NearestIsChosen(s.profiles, near);
  }

  lemma AssignErrors(s: State, user: User, o: Id, near: seq<Id>)
    requires Lifecycle.Valid(s) && Deliveries.AssignOrder(s, user, o, near).Failure?
    ensures Deliveries.AssignOrder(s, user, o, near).error ==
      if o >= |s.orders| then NotFound
      else if !Lifecycle.Runs(s, user, o) then Forbidden
      else if s.orders[o].status != OrderStatus.Ready then OrderNotReady
      else NoCollaborator
  {
    Lifecycle.AssignIff(s, user, o, near);
  }

  /** A delivery is advanced exactly by its collaborator and exactly one step. */
  lemma AdvanceDeliveryIff(s: State, user: User, d: Id, target: DeliveryStatus, now: int)
    ensures var r := Deliveries.AdvanceStatus(s, user, d, target, now);
      && (r.Success? <==>
            && d < |s.deliveries| && s.deliveries[d].collaboratorId == user.id
            && Lifecycle.DeliveryRank(target) == Lifecycle.DeliveryRank(s.deliveries[d].status) + 1)
      && (r.Failure? ==>
            r.error == if d >= |s.deliveries| then NotFound
                       else if s.deliveries[d].collaboratorId != user.id then Forbidden
                       else InvalidTransition)
  {
  }

  /** The order after its delivery reached a status. */
  predicate Synced(before: Order, after: Order, target: DeliveryStatus, actor: Id) {
    match target
    case PickedUp =>
      after == before.(status := OrderStatus.PickedUp,
                       history := before.history + [StatusEvent(OrderStatus.PickedUp, actor)])
    case Delivered =>
      after == before.(status := OrderStatus.Delivered, paymentId := after.paymentId,
                       history := before.history + [StatusEvent(OrderStatus.Delivered, actor)])
    case _ => after == before
  }

  /** Picking up and arriving are recorded on the order, in the collaborator's name. */
  lemma DeliverySyncs(s: State, user: User, d: Id, target: DeliveryStatus, now: int)
    requires Accounts.Valid(s) && Deliveries.AdvanceStatus(s, user, d, target, now).Success?
    ensures d < |s.deliveries| && s.deliveries[d].refId < |s.orders|
    ensures var s', o := Deliveries.AdvanceStatus(s, user, d, target, now).value, s.deliveries[d].refId;
      && |s'.orders| == |s.orders| && s'.orders == s.orders[o := s'.orders[o]]
      && s'.deliveries == s.deliveries[d := s.deliveries[d].(status := target)]
      && Synced(s.orders[o], s'.orders[o], target, user.id)
  {
    var o, order := Accounts.AdvanceDeliveryMoney(s, user, d, target, now);
    Lifecycle.SyncIsGuarded(s, d, target);
  }

  /** Arrival, and only arrival, pays a cash order, in full, once. */
  lemma DeliveryPays(s: State, user: User, d: Id, target: DeliveryStatus, now: int)
    requires Accounts.Valid(s) && Deliveries.AdvanceStatus(s, user, d, target, now).Success?
    ensures d < |s.deliveries| && s.deliveries[d].refId < |s.orders|
    ensures var s', o := Deliveries.AdvanceStatus(s, user, d, target, now).value, s.deliveries[d].refId;
      var order := s.orders[o];
      && o < |s'.orders|
      && if target == DeliveryStatus.Delivered && order.payBy == Cash then
           && s'.payments == s.payments +
                [Payment(OrderRef, o, order.clientId, order.amounts.total, Cash, PaymentStatus.Approved, None)]
           && s'.orders[o].paymentId == Some(|s.payments|)
         else s'.payments == s.payments && s'.orders[o].paymentId == order.paymentId
  {
    var o, order := Accounts.AdvanceDeliveryMoney(s, user, d, target, now);
  }

  /** Arrival, and only arrival, frees a collaborator who is on delivery: they are online again. */
  lemma DeliveryFrees(s: State, user: User, d: Id, target: DeliveryStatus, now: int)
    requires Accounts.Valid(s) && Deliveries.AdvanceStatus(s, user, d, target, now).Success?
    ensures var s' := Deliveries.AdvanceStatus(s, user, d, target, now).value;
      s'.profiles ==
        if target == DeliveryStatus.Delivered && user.id in s.profiles && s.profiles[user.id].availability == OnDelivery
        then s.profiles[user.id := s.profiles[user.id].(availability := Online)] else s.profiles
  {
  }

  // ----- payments

  /** An intent is given exactly to the client of a Wompi order; the assertion on the payment's provider
      never fails. A first intent creates one pending payment of the order's total under its reference;
      another one changes nothing. */
  lemma IntentIff(s: State, user: User, o: Id)
    requires Accounts.Valid(s)
    ensures var r := Payments.CreateIntent(s, user, o);
      && (r.Success? <==> o < |s.orders| && s.orders[o].clientId == user.id && s.orders[o].payBy == Wompi)
      && (r.Failure? ==>
            r.error == if o >= |s.orders| then NotFound
                       else if s.orders[o].clientId != user.id then Forbidden else NotWompi)
      && (r.Success? ==>
            if exists k :: 0 <= k < |s.payments| && s.payments[k].refType == OrderRef && s.payments[k].refId == o
            then r.value == s
            else r.value == s.(payments := s.payments +
              [Payment(OrderRef, o, s.orders[o].clientId, s.orders[o].amounts.total, Wompi, PaymentStatus.Pending,
                       Some(WompiProvider(o, None, "PENDING")))]))
  {
    var k := Payments.PaymentByRef(s.payments, OrderRef, o);
    if k.Some? {
      assert Accounts.GoodPayment(s.payments[k.value], k.value, s.orders, s.errands);
    }
  }

  /** From a first intent on, whatever is called, the payment is what its signed events say: pending
      exactly while there are none, approved exactly if one approves. */
  lemma IntentThenEvents(s: State, user: User, o: Id, calls: seq<Call>)
    requires Accounts.Valid(s) && AllWellFormed(calls)
    requires Payments.PaymentByRef(s.payments, OrderRef, o).None? && Payments.CreateIntent(s, user, o).Success?
    ensures var s', events := Run(Payments.CreateIntent(s, user, o).value, calls), Webhooks.EventsIn(calls, o);
      var k := |s.payments|;
      && k < |s'.payments| && s'.payments[k].refType == OrderRef && s'.payments[k].refId == o
      && (s'.payments[k].status == PaymentStatus.Pending <==> events == [])
      && (s'.payments[k].status == PaymentStatus.Approved <==> Webhooks.AnyApproves(events))
      && (events == [] ==> s'.payments[k].provider == Some(WompiProvider(o, None, "PENDING")))
  {
    var s1, k := Payments.CreateIntent(s, user, o).value, |s.payments|;
    IntentKept(s, user, o);
    Accounts.PaymentIsFound(s1.orders, s1.errands, s1.payments, k);
    Accounts.ReferenceIsFound(s1.orders, s1.errands, s1.payments, o);
    assert Payments.HasReference(s1.payments[k], o);
    Webhooks.PaymentIsItsEvents(s1, calls, o, k);
    Webhooks.ClosedForm(s1.payments[k], Webhooks.EventsIn(calls, o));
  }

  lemma IntentKept(s: State, user: User, o: Id)
    requires Accounts.Valid(s)
    requires Payments.PaymentByRef(s.payments, OrderRef, o).None? && Payments.CreateIntent(s, user, o).Success?
    ensures var s' := Payments.CreateIntent(s, user, o).value;
      && Accounts.Valid(s') && |s'.payments| == |s.payments| + 1
      && s'.payments[|s.payments|] ==
           Payment(OrderRef, o, s.orders[o].clientId, s.orders[o].amounts.total, Wompi, PaymentStatus.Pending,
                   Some(WompiProvider(o, None, "PENDING")))
  {
    IntentIff(s, user, o);
    assert Step(s, Call.CreateIntent(user, o)) == Payments.CreateIntent(s, user, o).value;
    Accounts.StepKeepsValid(s, Call.CreateIntent(user, o));
  }

  /** A webhook is heard exactly if it is signed and names the reference of an order with an intent; an
      approved payment ignores it, another one records it and is approved exactly by "APPROVED". */
  lemma WebhookIff(s: State, reference: Id, tx: string, status: string, signed: bool, now: int)
    requires Accounts.Valid(s)
    ensures var r := Payments.HandleWebhook(s, reference, tx, status, signed, now);
      var known := exists k :: 0 <= k < |s.payments| && Payments.HasReference(s.payments[k], reference);
      && (r.Success? <==> signed && known)
      && (r.Failure? ==> r.error == if signed then NotFound else InvalidSignature)
      && (r.Success? ==>
            exists k :: 0 <= k < |s.payments| && Payments.HasReference(s.payments[k], reference)
                        && Heard(s, r.value, k, tx, status))
  {
    var r := Payments.HandleWebhook(s, reference, tx, status, signed, now);
    if r.Success? {
      Accounts.ReferenceIsFound(s.orders, s.errands, s.payments, reference);
      var k := Payments.PaymentByReference(s.payments, reference).value;
      assert Accounts.GoodPayment(s.payments[k], k, s.orders, s.errands);
      if r.value != s {
        var j := Accounts.WebhookMoney(s, reference, tx, status, signed, now);
      }
      assert Heard(s, r.value, k, tx, status);
    }
  }

  predicate Heard(s: State, s': State, k: Id, tx: string, status: string)
    requires k < |s.payments|
  {
    var payment := s.payments[k];
    if payment.status == PaymentStatus.Approved then s' == s
    else
      && payment.provider.Some? && payment.refId < |s.orders|
      && s'.payments == s.payments[k := payment.(
           status := if status == "APPROVED" then PaymentStatus.Approved else PaymentStatus.Declined,
           provider := Some(payment.provider.value.(transactionId := Some(tx), wompiStatus := status)))]
      && s'.orders == (if status == "APPROVED"
                       then s.orders[payment.refId := s.orders[payment.refId].(paymentId := Some(k))] else s.orders)
      && s' == s.(payments := s'.payments, orders := s'.orders, ledger := s'.ledger)
  }

  /** Completing an errand records one cash payment of its fee by its client, and points at it. */
  lemma ErrandPays(s: State, user: User, e: Id, target: ErrandStatus, now: int)
    requires Accounts.Valid(s) && Errands.AdvanceStatus(s, user, e, target, now).Success?
    ensures e < |s.errands|
    ensures var s', errand := Errands.AdvanceStatus(s, user, e, target, now).value, s.errands[e];
      && e < |s'.errands|
      && if target == ErrandStatus.Completed then
           && s'.payments == s.payments +
                [Payment(ErrandRef, e, errand.clientId, errand.offeredFee, Cash, PaymentStatus.Approved, None)]
           && s'.errands[e].paymentId == Some(|s.payments|)
         else s'.payments == s.payments && s'.errands[e].paymentId == errand.paymentId
  {
    if target == ErrandStatus.Completed {
      var errand := Accounts.CompleteErrandMoney(s, user, e, now);
    }
  }

  lemma NewErrand(s: State, user: User, fee: int)
    ensures Errands.CreateErrand(s, user, fee) == s.(errands := s.errands +
      [Errand(user.id, fee, ErrandStatus.Open, [ErrandStatus.Open], None, None)])
  {
    assert [] + [ErrandStatus.Open] == [ErrandStatus.Open];
  }

  /** Every refusal says whether the errand is missing, the caller wrong, or the moment. */
  lemma ErrandErrors(s: State, user: User, e: Id, target: ErrandStatus, now: int)
    ensures var r := Errands.Accept(s, user, e);
      r.Failure? ==>
        r.error == if user.role != Role.Collaborator then Forbidden
                   else if e >= |s.errands| then NotFound else InvalidTransition
    ensures var r := Errands.AdvanceStatus(s, user, e, target, now);
      r.Failure? ==>
        r.error == if e >= |s.errands| then NotFound
                   else if s.errands[e].collaboratorId != Some(user.id) then Forbidden else InvalidTransition
    ensures var r := Errands.Cancel(s, user, e);
      r.Failure? ==>
        r.error == if e >= |s.errands| then NotFound
                   else if s.errands[e].clientId != user.id && !user.IsAdmin() then Forbidden else InvalidTransition
  {
  }

  // ----- orders

  /** Likewise for orders. */
  lemma OrderErrors(s: State, user: User, o: Id, target: OrderStatus)
    requires Lifecycle.Valid(s)
    ensures var r := Orders.AcceptOrder(s, user, o);
      r.Failure? ==>
        r.error == if o >= |s.orders| then NotFound
                   else if !Lifecycle.Runs(s, user, o) then Forbidden else InvalidTransition
    ensures var r := Orders.AdvanceStatus(s, user, o, target);
      r.Failure? ==>
        r.error == if o >= |s.orders| then NotFound
                   else if !Lifecycle.Runs(s, user, o) then Forbidden else InvalidTransition
    ensures var r := Orders.CancelOrder(s, user, o);
      r.Failure? ==>
        r.error == if o >= |s.orders| then NotFound
                   else if s.orders[o].clientId != user.id && !Lifecycle.Runs(s, user, o) then Forbidden
                   else InvalidTransition
  {
    assert o < |s.orders| ==> Lifecycle.GoodHistory(s.orders[o]);
  }

  // ----- reviews

  predicate Reviewed(reviews: seq<Review>, user: User, targetType: TargetType, targetId: Id, o: Id) {
    exists i :: 0 <= i < |reviews| && reviews[i].fromUserId == user.id && reviews[i].targetType == targetType
                && reviews[i].targetId == targetId && reviews[i].orderId == o
  }

  predicate MayReview(s: State, user: User, o: Id, targetType: TargetType) {
    && o < |s.orders| && s.orders[o].clientId == user.id && s.orders[o].status == OrderStatus.Delivered
    && (targetType == CollaboratorTarget ==> s.orders[o].collaboratorId.Some?)
  }

  /** Who is reviewed: the order's store or its collaborator. */
  function Subject(order: Order, targetType: TargetType): Id
    requires targetType == CollaboratorTarget ==> order.collaboratorId.Some?
  {
    if targetType == StoreTarget then order.storeId else order.collaboratorId.value
  }

  /** A review is accepted exactly from the client of a delivered order, of its store or collaborator,
      if they have not reviewed the same one for the same order. */
  lemma ReviewIff(s: State, user: User, o: Id, targetType: TargetType, stars: int)
    ensures var r := Reviews.CreateReview(s, user, o, targetType, stars);
      && (r.Success? <==>
            && MayReview(s, user, o, targetType)
            && !Reviewed(s.reviews, user, targetType, Subject(s.orders[o], targetType), o))
      && (r.Success? ==>
            r.value.reviews == s.reviews + [Review(user.id, targetType, Subject(s.orders[o], targetType), o, stars)])
      && (r.Failure? ==>
            r.error == if o >= |s.orders| then NotFound
                       else if s.orders[o].clientId != user.id then Forbidden
                       else if s.orders[o].status != OrderStatus.Delivered then NotDelivered
                       else if targetType == CollaboratorTarget && s.orders[o].collaboratorId.None? then NoCollaborator
                       else AlreadyReviewed)
  {
    if MayReview(s, user, o, targetType) {
      var targetId := Subject(s.orders[o], targetType);
      assert Reviewed(s.reviews, user, targetType, targetId, o) ==
        exists i :: 0 <= i < |s.reviews| && Reviews.SameReview(s.reviews[i], user.id, targetType, targetId, o) by {
        if Reviewed(s.reviews, user, targetType, targetId, o) {
          var i :| 0 <= i < |s.reviews| && s.reviews[i].fromUserId == user.id && s.reviews[i].targetType == targetType
                   && s.reviews[i].targetId == targetId && s.reviews[i].orderId == o;
          assert Reviews.SameReview(s.reviews[i], user.id, targetType, targetId, o);
        }
      }
    }
  }

  /** One delivered order earns the store and the collaborator one review each: reviewing one never
      stands in the way of reviewing the other, and always of reviewing the same again. */
  lemma OneReviewEach(s: State, user: User, o: Id, targetType: TargetType, stars: int, other: TargetType, more: int)
    requires Reviews.CreateReview(s, user, o, targetType, stars).Success?
    ensures var s' := Reviews.CreateReview(s, user, o, targetType, stars).value;
      && (other != targetType ==>
            (Reviews.CreateReview(s', user, o, other, more).Success? <==>
             Reviews.CreateReview(s, user, o, other, more).Success?))
      && Reviews.CreateReview(s', user, o, targetType, more) == Failure(AlreadyReviewed)
  {
    var s' := Reviews.CreateReview(s, user, o, targetType, stars).value;
    ReviewIff(s, user, o, targetType, stars);
    ReviewIff(s, user, o, other, more);
    ReviewIff(s', user, o, other, more);
    ReviewIff(s', user, o, targetType, more);
    assert s'.reviews[|s.reviews|].targetType == targetType;
    assert Reviewed(s'.reviews, user, targetType, Subject(s.orders[o], targetType), o);
    if MayReview(s, user, o, other) && other != targetType {
      StillReviewed(s.reviews, s'.reviews[|s.reviews|], user, other, Subject(s.orders[o], other), o);
    }
  }

  lemma StillReviewed(reviews: seq<Review>, r: Review, user: User, targetType: TargetType, targetId: Id, o: Id)
    requires r.targetType != targetType
    ensures Reviewed(reviews + [r], user, targetType, targetId, o) <==> Reviewed(reviews, user, targetType, targetId, o)
  {
    if Reviewed(reviews, user, targetType, targetId, o) {
      var i :| 0 <= i < |reviews| && reviews[i].fromUserId == user.id && reviews[i].targetType == targetType
               && reviews[i].targetId == targetId && reviews[i].orderId == o;
      assert (reviews + [r])[i] == reviews[i];
    }
  }

  // ----- collaborators

  /** Only collaborator accounts join, and only once; they start unverified, offline and unrated. */
  lemma JoinIff(s: State, user: User)
    ensures var r := Collaborators.BecomeCollaborator(s, user);
      && (r.Success? <==> user.role == Collaborator && user.id !in s.profiles)
      && (r.Failure? ==> r.error == if user.role != Collaborator then Forbidden else AlreadyCollaborator)
      && (r.Success? ==>
            r.value == s.(profiles := s.profiles[user.id := Profile(Unverified, Offline, Rating(0.0, 0))]))
  {
  }

  /** Approved collaborators go online, if they say where, or offline; the flag is then what they asked. */
  lemma AvailabilityIff(s: State, user: User, asked: Availability, located: bool)
    ensures var r := Collaborators.SetAvailability(s, user, asked, located);
      && (r.Success? <==>
            && user.id in s.profiles && s.profiles[user.id].verification == VerificationStatus.Approved
            && (asked == Offline || (asked == Online && located)))
      && (r.Failure? ==>
            r.error == if user.id !in s.profiles then NotFound
                       else if s.profiles[user.id].verification != VerificationStatus.Approved then NotApproved
                       else if asked == Online then LocationRequired else InvalidStatus)
      && (r.Success? ==>
            r.value == s.(profiles := s.profiles[user.id := s.profiles[user.id].(availability := asked)]))
  {
  }

  lemma VerifyIff(s: State, target: Id, status: VerificationStatus)
    ensures var r := Collaborators.Verify(s, target, status);
      && (r.Success? <==> target in s.profiles)
      && (r.Failure? ==> r.error == NotFound)
      && (r.Success? ==>
            r.value == s.(profiles := s.profiles[target := s.profiles[target].(verification := status)]))
  {
  }

  // ----- stores

  predicate Owns(s: State, user: User, storeId: Id) {
    storeId < |s.stores| && (s.stores[storeId].ownerId == user.id || user.IsAdmin())
  }

  /** Whoever runs a store can subscribe it at any time; it is then active, at the premium rate. */
  lemma SubscribeIff(s: State, user: User, storeId: Id)
    ensures var r, rate := Subscriptions.Subscribe(s, user, storeId), s.settings.premiumCommissionRate;
      && (r.Success? <==> Owns(s, user, storeId))
      && (r.Failure? ==> r.error == if storeId >= |s.stores| then NotFound else Forbidden)
      && (r.Success? ==>
            r.value == s.(subscriptions := s.subscriptions[storeId := Subscription(Active, rate)],
                          stores := s.stores[storeId := s.stores[storeId].(commissionRate := Some(rate))]))
  {
  }

  /** An active subscription, and no other, can be cancelled; the store is then back at the default rate. */
  lemma UnsubscribeIff(s: State, user: User, storeId: Id)
    ensures var r := Subscriptions.Cancel(s, user, storeId);
      && (r.Success? <==>
            && Owns(s, user, storeId) && storeId in s.subscriptions && s.subscriptions[storeId].status == Active)
      && (r.Failure? ==>
            r.error == if storeId >= |s.stores| then NotFound
                       else if !Owns(s, user, storeId) then Forbidden else NoActiveSubscription)
      && (r.Success? ==>
            r.value == s.(
              subscriptions := s.subscriptions[storeId := s.subscriptions[storeId].(status := Lapsed)],
              stores := s.stores[storeId := s.stores[storeId].(commissionRate := None)]))
  {
  }

  lemma StoreCalls(s: State, user: User, storeId: Id, delivery: DeliveryConfig, status: StoreStatus)
    ensures var r := Stores.CreateStore(s, user, delivery);
      && (r.Success? <==> user.role == Seller)
      && (r.Success? ==>
            r.value == s.(stores := s.stores + [Store(user.id, StoreStatus.Closed, delivery, None, Rating(0.0, 0))]))
    ensures var r := Stores.UpdateStore(s, user, storeId, delivery);
      && (r.Success? <==> Owns(s, user, storeId))
      && (r.Success? ==> r.value == s.(stores := s.stores[storeId := s.stores[storeId].(delivery := delivery)]))
    ensures var r := Stores.SetStatus(s, user, storeId, status);
      && (r.Success? <==>
            && Owns(s, user, storeId)
            && (status == Suspended || s.stores[storeId].status == Suspended ==> user.IsAdmin()))
      && (r.Success? ==> r.value == s.(stores := s.stores[storeId := s.stores[storeId].(status := status)]))
  {
  }

  predicate Sells(s: State, user: User, p: Id) {
    p < |s.products| && s.products[p].Some? && Owns(s, user, s.products[p].value.storeId)
  }

  /** A product's price, stock or availability changes exactly where the update sets it. */
  lemma ProductCalls(s: State, user: User, storeId: Id, price: int, stock: Option<int>, p: Id,
                     update: Catalog.ProductUpdate)
    ensures var r := Catalog.CreateProduct(s, user, storeId, price, stock);
      && (r.Success? <==> Owns(s, user, storeId))
      && (r.Success? ==> r.value == s.(products := s.products + [Some(Product(storeId, price, stock, true))]))
    ensures var r := Catalog.UpdateProduct(s, user, p, update);
      && (r.Success? <==> Sells(s, user, p))
      && (r.Success? ==>
            && |r.value.products| == |s.products| && r.value.products[p].Some?
            && var before, after := s.products[p].value, r.value.products[p].value;
            && r.value == s.(products := s.products[p := Some(after)])
            && after.storeId == before.storeId
            && (if update.price.Some? then Some(after.price) == update.price else after.price == before.price)
            && (if update.stock.Some? then Some(after.stock) == update.stock else after.stock == before.stock)
            && (if update.isAvailable.Some? then Some(after.isAvailable) == update.isAvailable
                else after.isAvailable == before.isAvailable))
    ensures var r := Catalog.DeleteProduct(s, user, p);
      && (r.Success? <==> Sells(s, user, p))
      && (r.Success? ==> r.value == s.(products := s.products[p := None]))
  {
  }
}
