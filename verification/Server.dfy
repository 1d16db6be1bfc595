/** Requests reach the services one after the other: the runs of the platform are what the services do. */
module Server {
  import opened Wrappers
  import opened Documents
  import opened Platform
  import opened Frames
  import opened Backend
  import Reachable

  /** A service that meets the specification of a call does what the platform's step does. */
  lemma StepMeets<T>(r: Result<T, Error>, c: Call, before: State, after: State)
    requires Meets(r, Try(before, c), before, after)
    ensures after == Step(before, c)
  {
  }

  method PerformStoreCall(services: Services, c: Call)
    requires IsStoreCall(c)
    modifies services
    ensures services.Db() == Step(old(services.Db()), c)
  {
    ghost var before := services.Db();
    match c {
      case CreateStore(user, delivery) =>
        var r := services.CreateStore(user, delivery);
        StepMeets(r, c, before, services.Db());
      case UpdateStore(user, storeId, delivery) =>
        var r := services.UpdateStore(user, storeId, delivery);
        StepMeets(r, c, before, services.Db());
      case SetStoreStatus(user, storeId, status) =>
        var r := services.SetStoreStatus(user, storeId, status);
        StepMeets(r, c, before, services.Db());
      case Subscribe(user, storeId) =>
        var r := services.Subscribe(user, storeId);
        StepMeets(r, c, before, services.Db());
      case CancelSubscription(user, storeId) =>
        var r := services.CancelSubscription(user, storeId);
        StepMeets(r, c, before, services.Db());
    }
  }

  method PerformCatalogCall(services: Services, c: Call)
    requires IsCatalogCall(c)
    modifies services
    ensures services.Db() == Step(old(services.Db()), c)
  {
    ghost var before := services.Db();
    match c {
      case CreateProduct(user, storeId, price, stock) =>
        var r := services.CreateProduct(user, storeId, price, stock);
        StepMeets(r, c, before, services.Db());
      case UpdateProduct(user, productId, update) =>
        var r := services.UpdateProduct(user, productId, update);
        StepMeets(r, c, before, services.Db());
      case DeleteProduct(user, productId) =>
        var r := services.DeleteProduct(user, productId);
        StepMeets(r, c, before, services.Db());
    }
  }

  method PerformOrderCall(services: Services, c: Call)
    requires IsOrderMove(c) || c.CreateOrder? || c.AssignOrder?
    modifies services
    ensures services.Db() == Step(old(services.Db()), c)
  {
    ghost var before := services.Db();
    match c {
      case CreateOrder(user, storeId, lines, payBy) =>
        var r := services.CreateOrder(user, storeId, lines, payBy);
        StepMeets(r, c, before, services.Db());
      case AcceptOrder(user, orderId) =>
        var r := services.AcceptOrder(user, orderId);
        StepMeets(r, c, before, services.Db());
      case AdvanceOrder(user, orderId, status) =>
        var r := services.AdvanceOrder(user, orderId, status);
        StepMeets(r, c, before, services.Db());
      case CancelOrder(user, orderId) =>
        var r := services.CancelOrder(user, orderId);
        StepMeets(r, c, before, services.Db());
      case AssignOrder(user, orderId, near) =>
        var r := services.AssignOrder(user, orderId, near);
        StepMeets(r, c, before, services.Db());
    }
  }

  method PerformMoneyCall(services: Services, c: Call)
    requires c.AdvanceDelivery? || c.CreateIntent? || c.Webhook? || c.AdvanceErrand?
    modifies services
    ensures services.Db() == Step(old(services.Db()), c)
  {
    ghost var before := services.Db();
    match c {
      case AdvanceDelivery(user, d, status, now) =>
        var r := services.AdvanceDelivery(user, d, status, now);
        StepMeets(r, c, before, services.Db());
      case CreateIntent(user, orderId) =>
        var r := services.CreateIntent(user, orderId);
        StepMeets(r, c, before, services.Db());
      case Webhook(reference, tx, status, signed, now) =>
        var r := services.HandleWompiWebhook(reference, tx, status, signed, now);
        StepMeets(r, c, before, services.Db());
      case AdvanceErrand(user, errandId, status, now) =>
        var r := services.AdvanceErrand(user, errandId, status, now);
        StepMeets(r, c, before, services.Db());
    }
  }

  method PerformProfileCall(services: Services, c: Call)
    requires IsProfileCall(c)
    modifies services
    ensures services.Db() == Step(old(services.Db()), c)
  {
    ghost var before := services.Db();
    match c {
      case BecomeCollaborator(user) =>
        var r := services.BecomeCollaborator(user);
        StepMeets(r, c, before, services.Db());
      case SetAvailability(user, status, located) =>
        var r := services.SetAvailability(user, status, located);
        StepMeets(r, c, before, services.Db());
      case Verify(target, status) =>
        var r := services.Verify(target, status);
        StepMeets(r, c, before, services.Db());
    }
  }

  method PerformErrandCall(services: Services, c: Call)
    requires IsErrandCall(c) && !c.AdvanceErrand?
    modifies services
    ensures services.Db() == Step(old(services.Db()), c)
  {
    ghost var before := services.Db();
    match c {
      case CreateErrand(user, fee) =>
        var errandId := services.CreateErrand(user, fee);
      case AcceptErrand(user, errandId) =>
        var r := services.AcceptErrand(user, errandId);
        StepMeets(r, c, before, services.Db());
      case CancelErrand(user, errandId) =>
        var r := services.CancelErrand(user, errandId);
        StepMeets(r, c, before, services.Db());
    }
  }

  method PerformRecordCall(services: Services, c: Call)
    requires IsSettlementCall(c) || c.CreateReview?
    modifies services
    ensures services.Db() == Step(old(services.Db()), c)
  {
    ghost var before := services.Db();
    match c {
      case GenerateSettlement(query) =>
        var settlementId := services.GenerateSettlement(query);
      case CreateReview(user, orderId, targetType, stars) =>
        var r := services.CreateReview(user, orderId, targetType, stars);
        StepMeets(r, c, before, services.Db());
      case MarkPaid(settlementId) =>
        var r := services.MarkPaid(settlementId);
        StepMeets(r, c, before, services.Db());
    }
  }

  method Perform(services: Services, c: Call)
    modifies services
    ensures services.Db() == Step(old(services.Db()), c)
  {
    if IsStoreCall(c) { PerformStoreCall(services, c); }
    else if IsCatalogCall(c) { PerformCatalogCall(services, c); }
    else if IsOrderMove(c) || c.CreateOrder? || c.AssignOrder? { PerformOrderCall(services, c); }
    else if IsProfileCall(c) { PerformProfileCall(services, c); }
    else if IsErrandCall(c) && !c.AdvanceErrand? { PerformErrandCall(services, c); }
    else if IsSettlementCall(c) || c.CreateReview? { PerformRecordCall(services, c); }
    else { PerformMoneyCall(services, c); }
  }

  /** Any sequence of requests leaves the services in the state of the platform's run of them. */
  method Serve(services: Services, calls: seq<Call>)
    modifies services
    ensures services.Db() == Run(old(services.Db()), calls)
  {
    for i := 0 to |calls|
      invariant services.Db() == Run(old(services.Db()), calls[..i])
    {
      var c := calls[i];
      assert calls[..i + 1][..i] == calls[..i];
      Perform(services, c);
    }
    assert calls[..|calls|] == calls;
  }

  /** A platform started empty is sound after whatever requests its schemas let through. */
  method Launch(settings: Settings, calls: seq<Call>) returns (services: Services)
    requires AllWellFormed(calls)
    ensures fresh(services) && services.Db() == Run(EmptyState(settings), calls)
    ensures Reachable.Sound(services.Db())
  {
    services := new Services(settings);
    Serve(services, calls);
    Reachable.EveryReachableStateIsSound(settings, calls);
  }
}
