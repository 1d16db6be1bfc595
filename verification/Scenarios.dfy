/** Runs from an empty platform that reach what one might hope is impossible. */
module Scenarios {
  import opened Wrappers
  import opened Documents
  import opened Sequences
  import opened Platform
  import Orders
  import OrderLogic
  import Payments
  import Deliveries
  import DeliveryLogic
  import Collaborators
  import Lifecycle
  import Accounts
  import Books
  import Conservation
  import Metrics
  import Dispatch
  import Reachable

  const SELLER := User(1, Seller)
  const CLIENT := User(2, Client)
  const COURIER := User(3, Role.Collaborator)
  const ADMIN := User(4, SuperAdmin)

  // ----- runs call by call

  lemma {:induction false} RunConcat(s: State, a: seq<Call>, b: seq<Call>)
    ensures Run(s, a + b) == Run(Run(s, a), b)
  {
    if b == [] {
      assert a + b == a;
    } else {
      var n := |b| - 1;
      assert (a + b)[..|a| + n] == a + b[..n];
      RunConcat(s, a, b[..n]);
    }
  }

  lemma RunOne(s: State, c: Call)
    ensures Run(s, [c]) == Step(s, c)
  {
    assert [c][..0] == [];
    assert Run(s, []) == s;
  }

  lemma RunTwo(s: State, a: Call, b: Call)
    ensures Run(s, [a, b]) == Step(Step(s, a), b)
  {
    assert [a, b][..1] == [a];
    RunOne(s, a);
  }

  lemma RunThree(s: State, a: Call, b: Call, c: Call)
    ensures Run(s, [a, b, c]) == Step(Step(Step(s, a), b), c)
  {
    assert [a, b, c][..2] == [a, b];
    RunTwo(s, a, b);
  }

  // ----- a store with one product, and a courier who is online

  function Shop(baseFee: int): seq<Call> {
    [CreateStore(SELLER, DeliveryConfig(baseFee, 0, None)),
     SetStoreStatus(SELLER, 0, StoreStatus.Open),
     CreateProduct(SELLER, 0, 10, None)]
  }

  function Hire(): seq<Call> {
    [BecomeCollaborator(COURIER),
     Verify(COURIER.id, VerificationStatus.Approved),
     SetAvailability(COURIER, Online, true)]
  }

  function Opened(settings: Settings, baseFee: int): State {
    EmptyState(settings).(
      stores := [Store(SELLER.id, StoreStatus.Open, DeliveryConfig(baseFee, 0, None), None, Rating(0.0, 0))],
      products := [Some(Product(0, 10, None, true))],
      profiles := Courier(VerificationStatus.Approved, Online))
  }

  lemma OpeningRuns(settings: Settings, baseFee: int)
    ensures Run(EmptyState(settings), Shop(baseFee) + Hire()) == Opened(settings, baseFee)
  {
    var s := EmptyState(settings);
    RunConcat(s, Shop(baseFee), Hire());
    ShopOpens(settings, baseFee);
    CourierHired(Run(s, Shop(baseFee)));
  }

  lemma ShopOpens(settings: Settings, baseFee: int)
    ensures Run(EmptyState(settings), Shop(baseFee)) == Opened(settings, baseFee).(profiles := map[])
  {
    var s, calls := EmptyState(settings), Shop(baseFee);
    RunThree(s, calls[0], calls[1], calls[2]);
  }

  function Courier(verification: VerificationStatus, availability: Availability): map<Id, Profile> {
    map[COURIER.id := Profile(verification, availability, Rating(0.0, 0))]
  }

  lemma CourierJoins(s: State)
    requires s.profiles == map[]
    ensures Step(s, Hire()[0]) == s.(profiles := Courier(Unverified, Offline))
  {
  }

  lemma CourierVerified(s: State)
    requires s.profiles == Courier(Unverified, Offline)
    ensures Step(s, Hire()[1]) == s.(profiles := Courier(VerificationStatus.Approved, Offline))
  {
  }

  lemma CourierOnline(s: State)
    requires s.profiles == Courier(VerificationStatus.Approved, Offline)
    ensures Step(s, Hire()[2]) == s.(profiles := Courier(VerificationStatus.Approved, Online))
  {
  }

  lemma CourierHired(s: State)
    requires s.profiles == map[]
    ensures Run(s, Hire()) == s.(profiles := Courier(VerificationStatus.Approved, Online))
  {
    RunThree(s, Hire()[0], Hire()[1], Hire()[2]);
    CourierJoins(s);
    CourierVerified(Step(s, Hire()[0]));
    CourierOnline(Step(Step(s, Hire()[0]), Hire()[1]));
  }

  // ----- an order, placed and made ready

  function Placing(payBy: PaymentMethod): Call {
    Call.CreateOrder(CLIENT, 0, [Orders.Line(0, 1)], payBy)
  }

  const ITEM := OrderItem(0, 10, 1, 10)

  function Placed(settings: Settings, baseFee: int, payBy: PaymentMethod): Order {
    var amounts := OrderLogic.ComputeAmounts(10, baseFee, None, settings.defaultCommissionRate);
    Orders.NewOrder(CLIENT, 0, [ITEM], amounts, payBy)
  }

  predicate Sells(s: State, baseFee: int) {
    s.stores == Opened(s.settings, baseFee).stores && s.products == Opened(s.settings, baseFee).products
  }

  lemma OrderPlaced(s: State, baseFee: int, payBy: PaymentMethod)
    requires Sells(s, baseFee)
    ensures Step(s, Placing(payBy)) == s.(orders := s.orders + [Placed(s.settings, baseFee, payBy)])
  {
    var lines := [Orders.Line(0, 1)];
    assert lines[1..] == [];
    assert Orders.ValidateLines(s.products, 0, lines) == Success([ITEM] + []);
    assert [ITEM] + [] == [ITEM];
    assert Orders.Decrements(s.products, lines) == [];
    SumCons(ITEM, [], Orders.Subtotal());
    assert Sum([ITEM], Orders.Subtotal()) == 10;
    assert Orders.CreateOrder(s, CLIENT, 0, lines, payBy).Success?;
  }

  function Readying(o: Id): seq<Call> {
    [Call.AcceptOrder(SELLER, o),
     AdvanceOrder(SELLER, o, OrderStatus.Preparing),
     AdvanceOrder(SELLER, o, OrderStatus.Ready)]
  }

  function Recorded(s: State, o: Id, status: OrderStatus): State
    requires o < |s.orders|
  {
    s.(orders := s.orders[o := Orders.RecordStatus(s.orders[o], status, SELLER.id)])
  }

  predicate Sold(s: State, o: Id) {
    && o < |s.orders| && s.orders[o].storeId < |s.stores|
    && s.stores[s.orders[o].storeId].ownerId == SELLER.id
  }

  lemma OrderAccepted(s: State, o: Id)
    requires Sold(s, o) && s.orders[o].status == OrderStatus.Pending
    ensures Step(s, Call.AcceptOrder(SELLER, o)) == Recorded(s, o, OrderStatus.Accepted)
  {
  }

  lemma OrderAdvanced(s: State, o: Id, status: OrderStatus)
    requires Sold(s, o) && OrderLogic.NextSellerStatus(s.orders[o].status) == Some(status)
    ensures Step(s, AdvanceOrder(SELLER, o, status)) == Recorded(s, o, status)
  {
  }

  function Readied(order: Order): Order {
    Orders.RecordStatus(
      Orders.RecordStatus(
        Orders.RecordStatus(order, OrderStatus.Accepted, SELLER.id), OrderStatus.Preparing, SELLER.id),
      OrderStatus.Ready, SELLER.id)
  }

  lemma OrderReadied(s: State, o: Id)
    requires Sold(s, o) && s.orders[o].status == OrderStatus.Pending
    ensures Run(s, Readying(o)) == s.(orders := s.orders[o := Readied(s.orders[o])])
  {
    RunThree(s, Readying(o)[0], Readying(o)[1], Readying(o)[2]);
    OrderAccepted(s, o);
    var s1 := Recorded(s, o, OrderStatus.Accepted);
    OrderAdvanced(s1, o, OrderStatus.Preparing);
    var s2 := Recorded(s1, o, OrderStatus.Preparing);
    OrderAdvanced(s2, o, OrderStatus.Ready);
  }

  function Assigning(o: Id): Call {
    Call.AssignOrder(SELLER, o, [COURIER.id])
  }

  lemma OrderAssigned(s: State, o: Id)
    requires Lifecycle.Valid(s) && o < |s.orders| && s.orders[o].status == OrderStatus.Ready
    requires s.stores[s.orders[o].storeId].ownerId == SELLER.id && Deliveries.Available(s.profiles, COURIER.id)
    ensures var s', order := Step(s, Assigning(o)), s.orders[o];
      && s' == s.(orders := s'.orders, deliveries := s'.deliveries, profiles := s'.profiles)
      && s'.orders == s.orders[o :=
           Orders.RecordStatus(order.(collaboratorId := Some(COURIER.id)), OrderStatus.Assigned, SELLER.id)]
      && s'.deliveries == s.deliveries + [Delivery(OrderRef, o, COURIER.id, DeliveryStatus.Assigned)]
      && COURIER.id in s'.profiles
      && s'.profiles[COURIER.id] == s.profiles[COURIER.id].(availability := OnDelivery)
  {
    assert !Lifecycle.HasDelivery(s.deliveries, o);
    assert Deliveries.FindAvailable(s.profiles, [COURIER.id]) == [] + [COURIER.id];
  }

  // ----- a delivery, taken to its end

  function Advancing(d: Id, status: DeliveryStatus): Call {
    AdvanceDelivery(COURIER, d, status, 0)
  }

  function Delivering(d: Id): seq<Call> {
    [Advancing(d, DeliveryStatus.EnRoutePickup), Advancing(d, DeliveryStatus.PickedUp)]
    + [Advancing(d, DeliveryStatus.EnRouteDropoff), Advancing(d, DeliveryStatus.Delivered)]
  }

  /** What is left of an order on its way. */
  ghost predicate OnItsWay(s: State, s': State, d: Id) {
    && Accounts.Valid(s')
    && d < |s.deliveries| && d < |s'.deliveries|
    && s'.deliveries[d].(status := s.deliveries[d].status) == s.deliveries[d]
    && |s'.orders| == |s.orders|
    && s.deliveries[d].refId < |s.orders|
    && var a, b := s.orders[s.deliveries[d].refId], s'.orders[s.deliveries[d].refId];
    && b.amounts == a.amounts && b.payBy == a.payBy && (a.payBy == Wompi ==> s'.payments == s.payments)
  }

  lemma DeliveryAdvanced(s: State, d: Id, status: DeliveryStatus)
    requires Accounts.Valid(s) && d < |s.deliveries| && s.deliveries[d].collaboratorId == COURIER.id
    requires DeliveryLogic.NextDeliveryStatus(s.deliveries[d].status) == Some(status)
    ensures OnItsWay(s, Step(s, Advancing(d, status)), d)
    ensures Step(s, Advancing(d, status)).deliveries[d].status == status
  {
    var o, order := Accounts.AdvanceDeliveryMoney(s, COURIER, d, status, 0);
    var effect := Lifecycle.AdvanceDeliveryEffect(s, COURIER, d, status, 0);
    Accounts.StepKeepsValid(s, Advancing(d, status));
  }

  lemma DeliveryDone(s: State, d: Id)
    requires Accounts.Valid(s) && d < |s.deliveries| && s.deliveries[d].collaboratorId == COURIER.id
    requires s.deliveries[d].status == DeliveryStatus.Assigned
    ensures OnItsWay(s, Run(s, Delivering(d)), d)
    ensures Run(s, Delivering(d)).orders[s.deliveries[d].refId].status == OrderStatus.Delivered
  {
    var calls := Delivering(d);
    RunConcat(s, calls[..2], calls[2..]);
    assert calls == calls[..2] + calls[2..];
    var s2 := Run(s, calls[..2]);
    RunTwo(s, calls[0], calls[1]);
    RunTwo(s2, calls[2], calls[3]);
    DeliveryAdvanced(s, d, DeliveryStatus.EnRoutePickup);
    DeliveryAdvanced(Step(s, calls[0]), d, DeliveryStatus.PickedUp);
    DeliveryAdvanced(s2, d, DeliveryStatus.EnRouteDropoff);
    DeliveryAdvanced(Step(s2, calls[2]), d, DeliveryStatus.Delivered);
    assert Lifecycle.Serves(Run(s, calls).deliveries[d], Run(s, calls).orders);
  }

  // ----- the whole story of one order

  function Ready(baseFee: int, payBy: PaymentMethod): seq<Call> {
    Shop(baseFee) + Hire() + [Placing(payBy)] + Readying(0)
  }

  lemma ReadyRuns(settings: Settings, baseFee: int, payBy: PaymentMethod)
    ensures Run(EmptyState(settings), Ready(baseFee, payBy)) ==
      Opened(settings, baseFee).(orders := [Readied(Placed(settings, baseFee, payBy))])
  {
    var s, opening := EmptyState(settings), Shop(baseFee) + Hire();
    OpeningRuns(settings, baseFee);
    RunConcat(s, opening, [Placing(payBy)]);
    RunOne(Opened(settings, baseFee), Placing(payBy));
    OrderPlaced(Opened(settings, baseFee), baseFee, payBy);
    var s1 := Run(s, opening + [Placing(payBy)]);
    assert s1.orders == [Placed(settings, baseFee, payBy)];
    RunConcat(s, opening + [Placing(payBy)], Readying(0));
    OrderReadied(s1, 0);
  }

  function Story(baseFee: int, payBy: PaymentMethod): seq<Call> {
    Ready(baseFee, payBy) + [Assigning(0)] + Delivering(0)
  }

  lemma WellFormedConcat(a: seq<Call>, b: seq<Call>)
    requires AllWellFormed(a) && AllWellFormed(b)
    ensures AllWellFormed(a + b)
  {
  }

  lemma OpeningIsWellFormed(baseFee: int)
    ensures AllWellFormed(Shop(baseFee) + Hire()) && AllWellFormed(Readying(0)) && AllWellFormed(Readying(1))
    ensures forall payBy :: AllWellFormed([Placing(payBy)])
  {
    WellFormedConcat(Shop(baseFee), Hire());
  }

  lemma StoryIsWellFormed(baseFee: int, payBy: PaymentMethod)
    ensures AllWellFormed(Ready(baseFee, payBy)) && AllWellFormed(Ready(baseFee, payBy) + [Assigning(0)])
    ensures AllWellFormed(Story(baseFee, payBy))
  {
    OpeningIsWellFormed(baseFee);
    WellFormedConcat(Shop(baseFee) + Hire(), [Placing(payBy)]);
    WellFormedConcat(Shop(baseFee) + Hire() + [Placing(payBy)], Readying(0));
    WellFormedConcat(Ready(baseFee, payBy), [Assigning(0)]);
    WellFormedConcat(Ready(baseFee, payBy) + [Assigning(0)], Delivering(0));
  }

  lemma AssignedRuns(settings: Settings, baseFee: int, payBy: PaymentMethod) returns (s: State)
    ensures s == Run(EmptyState(settings), Ready(baseFee, payBy) + [Assigning(0)])
    ensures Accounts.Valid(s) && s.payments == [] && |s.orders| == 1 && |s.deliveries| == 1
    ensures s.deliveries[0] == Delivery(OrderRef, 0, COURIER.id, DeliveryStatus.Assigned)
    ensures s.orders[0].amounts == Placed(settings, baseFee, payBy).amounts && s.orders[0].payBy == payBy
  {
    var start := EmptyState(settings);
    ReadyRuns(settings, baseFee, payBy);
    StoryIsWellFormed(baseFee, payBy);
    Reachable.EveryReachableStateIsSound(settings, Ready(baseFee, payBy));
    RunConcat(start, Ready(baseFee, payBy), [Assigning(0)]);
    var s1 := Run(start, Ready(baseFee, payBy));
    RunOne(s1, Assigning(0));
    OrderAssigned(s1, 0);
    s := Run(start, Ready(baseFee, payBy) + [Assigning(0)]);
    Reachable.EveryReachableStateIsSound(settings, Ready(baseFee, payBy) + [Assigning(0)]);
  }

  /** The story ends with the order delivered, and nothing paid unless it was cash. */
  lemma StoryRuns(settings: Settings, baseFee: int, payBy: PaymentMethod) returns (s: State)
    ensures s == Run(EmptyState(settings), Story(baseFee, payBy)) && Reachable.Sound(s)
    ensures |s.orders| == 1 && s.orders[0].status == OrderStatus.Delivered && s.orders[0].payBy == payBy
    ensures s.orders[0].amounts == Placed(settings, baseFee, payBy).amounts
    ensures payBy == Wompi ==> s.payments == []
  {
    var s1 := AssignedRuns(settings, baseFee, payBy);
    RunConcat(EmptyState(settings), Ready(baseFee, payBy) + [Assigning(0)], Delivering(0));
    DeliveryDone(s1, 0);
    s := Run(EmptyState(settings), Story(baseFee, payBy));
    StoryIsWellFormed(baseFee, payBy);
    Reachable.EveryReachableStateIsSound(settings, Story(baseFee, payBy));
  }

  // ----- what they show

  /** Cash, delivered, of a store with a negative fee: the ledger exceeds what the client paid. */
  lemma NegativeFeeLeavesAGap(settings: Settings, baseFee: int)
    requires baseFee < 0
    ensures var s := Run(EmptyState(settings), Story(baseFee, Cash));
      |s.orders| == 1 && s.orders[0].status == OrderStatus.Delivered && Conservation.Shortfall(s, 0) == baseFee
  {
    var s := StoryRuns(settings, baseFee, Cash);
    assert Accounts.CashOnDelivery(s.orders[0]);
    Conservation.MoneyConserved(s, 0);
  }

  /** Wompi, delivered, never paid: its total is reported as volume although nothing was collected. */
  lemma UnpaidVolumeIsReported(settings: Settings, baseFee: int)
    ensures var s := Run(EmptyState(settings), Story(baseFee, Wompi));
      Metrics.Collected(s) == 0 && Metrics.Gmv(s) == 10 + baseFee
  {
    var s := StoryRuns(settings, baseFee, Wompi);
    assert s.orders == [] + [s.orders[0]];
    SumSnoc([], s.orders[0], Metrics.DeliveredTotal());
  }

  function Prepaying(): seq<Call> {
    [Call.CreateIntent(CLIENT, 0), Webhook(0, "tx", Payments.APPROVED, true, 0)]
  }

  lemma IntentCreated(s: State)
    requires |s.orders| == 1 && s.orders[0].clientId == CLIENT.id && s.orders[0].payBy == Wompi && s.payments == []
    ensures Step(s, Prepaying()[0]) == s.(payments := [Payments.IntentPayment(CLIENT, s.orders[0], 0)])
  {
  }

  /** Wompi, approved before dispatch: the delivery fee the client paid is not in the ledger, whatever
      is called from then on. */
  lemma PrepaidFeeIsLost(settings: Settings, baseFee: int, calls: seq<Call>)
    requires AllWellFormed(calls)
    ensures var s := Run(Run(EmptyState(settings), Ready(baseFee, Wompi) + Prepaying()), calls);
      |s.orders| >= 1 && Conservation.Shortfall(s, 0) == baseFee
  {
    var start, ready := EmptyState(settings), Ready(baseFee, Wompi);
    ReadyRuns(settings, baseFee, Wompi);
    var s1 := Run(start, ready);
    RunConcat(start, ready, Prepaying());
    RunTwo(s1, Prepaying()[0], Prepaying()[1]);
    IntentCreated(s1);
    var s2 := Step(s1, Prepaying()[0]);
    StoryIsWellFormed(baseFee, Wompi);
    Reachable.EveryReachableStateIsSound(settings, ready);
    Books.StepKeepsValid(s1, Prepaying()[0]);
    ApprovalApplies(s2);
    Conservation.ApprovalDecidesForever(s2, 0, "tx", 0, calls);
  }

  lemma ApprovalApplies(s: State)
    requires |s.orders| == 1 && s.payments == [Payments.IntentPayment(CLIENT, s.orders[0], 0)]
    ensures var r := Payments.HandleWebhook(s, 0, "tx", Payments.APPROVED, true, 0);
      && r.Success? && r.value != s && Step(s, Prepaying()[1]) == r.value
  {
    var k := Payments.PaymentByReference(s.payments, 0);
    assert Payments.HasReference(s.payments[0], 0);
    assert k == Some(0);
    var r := Payments.HandleWebhook(s, 0, "tx", Payments.APPROVED, true, 0);
    assert r.value.payments[0].status == PaymentStatus.Approved;
  }

  // ----- a courier with two deliveries

  function TwoReady(): seq<Call> {
    Shop(0) + Hire() + [Placing(Cash)] + [Placing(Cash)] + Readying(0) + Readying(1)
  }

  lemma TwoReadyRuns(settings: Settings)
    ensures AllWellFormed(TwoReady())
    ensures var order := Readied(Placed(settings, 0, Cash));
      Run(EmptyState(settings), TwoReady()) == Opened(settings, 0).(orders := [order, order])
  {
    var s, opening, placing := EmptyState(settings), Shop(0) + Hire(), [Placing(Cash)];
    OpeningRuns(settings, 0);
    OpeningIsWellFormed(0);
    WellFormedConcat(opening, placing);
    WellFormedConcat(opening + placing, placing);
    WellFormedConcat(opening + placing + placing, Readying(0));
    WellFormedConcat(opening + placing + placing + Readying(0), Readying(1));
    var s0 := Opened(settings, 0);
    RunConcat(s, opening, placing);
    RunOne(s0, placing[0]);
    OrderPlaced(s0, 0, Cash);
    var s1 := Run(s, opening + placing);
    RunConcat(s, opening + placing, placing);
    RunOne(s1, placing[0]);
    OrderPlaced(s1, 0, Cash);
    var s2 := Run(s, opening + placing + placing);
    RunConcat(s, opening + placing + placing, Readying(0));
    OrderReadied(s2, 0);
    var s3 := Run(s, opening + placing + placing + Readying(0));
    RunConcat(s, opening + placing + placing + Readying(0), Readying(1));
    OrderReadied(s3, 1);
  }

  function OnlineAgain(): seq<Call> {
    [SetAvailability(COURIER, Online, true), Assigning(1)]
  }

  lemma OneTaken(settings: Settings) returns (s: State)
    ensures s == Run(EmptyState(settings), TwoReady() + [Assigning(0)])
    ensures Dispatch.Valid(s) && Dispatch.ActiveOf(s.deliveries, COURIER.id) == 1
    ensures COURIER.id in s.profiles && s.profiles[COURIER.id].verification == VerificationStatus.Approved
    ensures |s.orders| == 2 && s.orders[1].status == OrderStatus.Ready && s.orders[1].storeId < |s.stores|
    ensures s.stores[s.orders[1].storeId].ownerId == SELLER.id
  {
    var start, calls := EmptyState(settings), TwoReady() + [Assigning(0)];
    TwoReadyRuns(settings);
    var s0 := Run(start, TwoReady());
    Reachable.EveryReachableStateIsSound(settings, TwoReady());
    RunConcat(start, TwoReady(), [Assigning(0)]);
    RunOne(s0, Assigning(0));
    OrderAssigned(s0, 0);
    s := Run(start, calls);
    WellFormedConcat(TwoReady(), [Assigning(0)]);
    Reachable.EveryReachableStateIsSound(settings, calls);
    SumSnoc(s0.deliveries, s.deliveries[0], Dispatch.ActiveFor(COURIER.id));
  }

  lemma OnlineStep(s: State)
    requires Collaborators.SetAvailability(s, COURIER, Online, true).Success?
    ensures Step(s, SetAvailability(COURIER, Online, true)) ==
      Collaborators.SetAvailability(s, COURIER, Online, true).value
  {
  }

  lemma AssignStep(s: State, o: Id)
    requires Deliveries.AssignOrder(s, SELLER, o, [COURIER.id]).Success?
    ensures Step(s, Assigning(o)) == Deliveries.AssignOrder(s, SELLER, o, [COURIER.id]).value
  {
  }

  lemma AnotherTaken(s: State)
    requires Dispatch.Valid(s) && Dispatch.ActiveOf(s.deliveries, COURIER.id) == 1
    requires COURIER.id in s.profiles && s.profiles[COURIER.id].verification == VerificationStatus.Approved
    requires |s.orders| == 2 && s.orders[1].status == OrderStatus.Ready
    requires s.stores[s.orders[1].storeId].ownerId == SELLER.id
    ensures Dispatch.ActiveOf(Run(s, OnlineAgain()).deliveries, COURIER.id) == 2
  {
    Dispatch.OnlineTooSoon(s, COURIER, SELLER, 1);
    OnlineStep(s);
    AssignStep(Collaborators.SetAvailability(s, COURIER, Online, true).value, 1);
    RunTwo(s, SetAvailability(COURIER, Online, true), Assigning(1));
  }

  /** The courier takes one order, goes online again, and is given the other: two undelivered deliveries. */
  lemma TwoDeliveriesAtOnce(settings: Settings)
    ensures var s := Run(EmptyState(settings), TwoReady() + [Assigning(0)] + OnlineAgain());
      Dispatch.ActiveOf(s.deliveries, COURIER.id) == 2
  {
    var s := OneTaken(settings);
    RunConcat(EmptyState(settings), TwoReady() + [Assigning(0)], OnlineAgain());
    AnotherTaken(s);
  }
}
