/** The order and delivery machines together: why the unguarded order sync is safe. */
module Lifecycle {
  import opened Wrappers
  import opened Documents
  import opened Platform
  import opened Frames
  import Orders
  import Deliveries
  import Payments
  import opened OrderLogic
  import opened DeliveryLogic

  /** The transitions an order's history may show. */
  predicate Allowed(a: OrderStatus, b: OrderStatus) {
    match b
    case Pending => false
    case Accepted => a == OrderStatus.Pending
    case Preparing => a == OrderStatus.Accepted
    case Ready => a == OrderStatus.Preparing
    case Assigned => a == OrderStatus.Ready
    case PickedUp => a == OrderStatus.Assigned
    case Delivered => a == OrderStatus.PickedUp
    case Cancelled => a in {OrderStatus.Pending, OrderStatus.Accepted, OrderStatus.Preparing, OrderStatus.Ready}
  }

  /** The tables of both machines allow these transitions and no others. */
  lemma TransitionsAreExact(a: OrderStatus, b: OrderStatus)
    ensures Allowed(a, b) <==>
      || (a == OrderStatus.Pending && b == OrderStatus.Accepted)
      || NextSellerStatus(a) == Some(b)
      || (a == OrderStatus.Ready && b == OrderStatus.Assigned)
      || (CanCancel(a) && b == OrderStatus.Cancelled)
      || exists d: DeliveryStatus ::
           SyncedStatus(d) == a && NextDeliveryStatus(d).Some? && OrderStatusFor(NextDeliveryStatus(d).value) == Some(b)
  {
    assert SyncedStatus(DeliveryStatus.EnRoutePickup) == OrderStatus.Assigned;
    assert SyncedStatus(DeliveryStatus.EnRouteDropoff) == OrderStatus.PickedUp;
  }

  function Rank(status: OrderStatus): nat {
    match status
    case Pending => 0
    case Accepted => 1
    case Preparing => 2
    case Ready => 3
    case Assigned => 4
    case PickedUp => 5
    case Delivered => 6
    case Cancelled => 4
  }

  ghost predicate GoodHistory(order: Order) {
    && order.history != []
    && order.history[0].status == OrderStatus.Pending
    && order.history[|order.history| - 1].status == order.status
    && forall i :: 0 < i < |order.history| ==> Allowed(order.history[i - 1].status, order.history[i].status)
  }

  /** What an order's status must be while its delivery is in a given status. */
  function SyncedStatus(status: DeliveryStatus): OrderStatus {
    match status
    case Assigned => OrderStatus.Assigned
    case EnRoutePickup => OrderStatus.Assigned
    case PickedUp => OrderStatus.PickedUp
    case EnRouteDropoff => OrderStatus.PickedUp
    case Delivered => OrderStatus.Delivered
  }

  predicate Dispatched(status: OrderStatus) {
    status in {OrderStatus.Assigned, OrderStatus.PickedUp, OrderStatus.Delivered}
  }

  predicate Serves(d: Delivery, orders: seq<Order>) {
    && d.refType == OrderRef
    && d.refId < |orders|
    && orders[d.refId].collaboratorId == Some(d.collaboratorId)
    && orders[d.refId].status == SyncedStatus(d.status)
  }

  predicate HasDelivery(deliveries: seq<Delivery>, orderId: Id) {
    exists d :: 0 <= d < |deliveries| && deliveries[d].refId == orderId
  }

  /** The coupling of the two machines. */
  ghost predicate Coupled(orders: seq<Order>, deliveries: seq<Delivery>) {
    && (forall d :: 0 <= d < |deliveries| ==> Serves(deliveries[d], orders))
    && (forall d, e :: 0 <= d < e < |deliveries| ==> deliveries[d].refId != deliveries[e].refId)
    && (forall o :: 0 <= o < |orders| ==> (Dispatched(orders[o].status) <==> HasDelivery(deliveries, o)))
    && (forall o :: 0 <= o < |orders| ==> (Dispatched(orders[o].status) <==> orders[o].collaboratorId.Some?))
  }

  /** Every order has a good history and names an existing store. */
  ghost predicate WellKept(orders: seq<Order>, stores: nat) {
    forall o :: 0 <= o < |orders| ==> GoodHistory(orders[o]) && orders[o].storeId < stores
  }

  ghost predicate Valid(s: State) {
    WellKept(s.orders, |s.stores|) && Coupled(s.orders, s.deliveries)
  }

  lemma RecordKeepsHistory(order: Order, status: OrderStatus, actor: Id)
    requires GoodHistory(order) && Allowed(order.status, status)
    ensures GoodHistory(Orders.RecordStatus(order, status, actor))
  {
  }

  lemma CreateKeepsCoupling(orders: seq<Order>, deliveries: seq<Delivery>, order: Order)
    requires Coupled(orders, deliveries) && order.status == OrderStatus.Pending && order.collaboratorId == None
    ensures Coupled(orders + [order], deliveries)
  {
    forall d | 0 <= d < |deliveries| ensures Serves(deliveries[d], orders + [order]) {
      assert Serves(deliveries[d], orders);
    }
    assert forall d :: 0 <= d < |deliveries| ==> deliveries[d].refId < |orders|;
  }

  /** Any change that keeps the dispatched part of an order. */
  lemma UpdateKeepsCoupling(orders: seq<Order>, deliveries: seq<Delivery>, o: Id, order: Order)
    requires Coupled(orders, deliveries) && o < |orders|
    requires order.collaboratorId == orders[o].collaboratorId
    requires order.status == orders[o].status || (!Dispatched(order.status) && !Dispatched(orders[o].status))
    ensures Coupled(orders[o := order], deliveries)
  {
    forall d | 0 <= d < |deliveries| ensures Serves(deliveries[d], orders[o := order]) {
      assert Serves(deliveries[d], orders);
      assert HasDelivery(deliveries, deliveries[d].refId);
    }
  }

  lemma AssignKeepsCoupling(orders: seq<Order>, deliveries: seq<Delivery>, o: Id, order: Order, d: Delivery)
    requires Coupled(orders, deliveries) && o < |orders| && !Dispatched(orders[o].status)
    requires d == Delivery(OrderRef, o, d.collaboratorId, DeliveryStatus.Assigned)
    requires order.collaboratorId == Some(d.collaboratorId) && order.status == OrderStatus.Assigned
    ensures Coupled(orders[o := order], deliveries + [d])
  {
    var orders', deliveries' := orders[o := order], deliveries + [d];
    assert !HasDelivery(deliveries, o);
    forall e | 0 <= e < |deliveries'| ensures Serves(deliveries'[e], orders') {
      if e < |deliveries| { assert Serves(deliveries[e], orders); }
    }
    forall p | 0 <= p < |orders| ensures Dispatched(orders'[p].status) <==> HasDelivery(deliveries', p) {
      if p == o {
        assert deliveries'[|deliveries|].refId == o;
      } else if HasDelivery(deliveries, p) {
        var e :| 0 <= e < |deliveries| && deliveries[e].refId == p;
        assert deliveries'[e].refId == p;
      }
    }
  }

  lemma AdvanceKeepsCoupling(orders: seq<Order>, deliveries: seq<Delivery>, d: Id, order: Order, status: DeliveryStatus)
    requires Coupled(orders, deliveries) && d < |deliveries|
    requires order.collaboratorId == Some(deliveries[d].collaboratorId) && order.status == SyncedStatus(status)
    ensures deliveries[d].refId < |orders|
    ensures Coupled(orders[deliveries[d].refId := order], deliveries[d := deliveries[d].(status := status)])
  {
    assert Serves(deliveries[d], orders);
    var o := deliveries[d].refId;
    var orders', deliveries' := orders[o := order], deliveries[d := deliveries[d].(status := status)];
    forall e | 0 <= e < |deliveries| ensures Serves(deliveries'[e], orders') {
      assert Serves(deliveries[e], orders);
    }
    forall p | 0 <= p < |orders| ensures HasDelivery(deliveries', p) <==> HasDelivery(deliveries, p) {
      if HasDelivery(deliveries, p) {
        var e :| 0 <= e < |deliveries| && deliveries[e].refId == p;
        assert deliveries'[e].refId == p;
      }
      if HasDelivery(deliveries', p) {
        var e :| 0 <= e < |deliveries| && deliveries'[e].refId == p;
        assert deliveries[e].refId == p;
      }
    }
    assert HasDelivery(deliveries, o) by { assert deliveries[d].refId == o; }
  }

  /** The milestone a delivery reaches is a legal next step of its order, which therefore is never
      moved backwards nor brought back from cancellation. */
  lemma SyncIsGuarded(s: State, d: Id, target: DeliveryStatus)
    requires Valid(s) && d < |s.deliveries| && NextDeliveryStatus(s.deliveries[d].status) == Some(target)
    ensures s.deliveries[d].refId < |s.orders|
    ensures var current := s.orders[s.deliveries[d].refId].status;
      match OrderStatusFor(target)
      case Some(next) => next == SyncedStatus(target) && Allowed(current, next)
      case None => current == SyncedStatus(target)
  {
    assert Serves(s.deliveries[d], s.orders);
  }

  /** What a successful delivery step does to the two machines. */
  lemma AdvanceDeliveryEffect(s: State, user: User, d: Id, target: DeliveryStatus, now: int) returns (order: Order)
    requires Valid(s) && Deliveries.AdvanceStatus(s, user, d, target, now).Success?
    ensures d < |s.deliveries| && s.deliveries[d].refId < |s.orders|
    ensures NextDeliveryStatus(s.deliveries[d].status) == Some(target)
    ensures var s' := Deliveries.AdvanceStatus(s, user, d, target, now).value;
      && s'.deliveries == s.deliveries[d := s.deliveries[d].(status := target)]
      && s'.orders == s.orders[s.deliveries[d].refId := order]
      && s'.stores == s.stores
    ensures order.status == SyncedStatus(target) && GoodHistory(order)
    ensures order.collaboratorId == Some(s.deliveries[d].collaboratorId)
  {
    SyncIsGuarded(s, d, target);
    assert Serves(s.deliveries[d], s.orders);
    var o := s.deliveries[d].refId;
    order := Deliveries.AdvanceStatus(s, user, d, target, now).value.orders[o];
    if OrderStatusFor(target).Some? {
      RecordKeepsHistory(s.orders[o], SyncedStatus(target), user.id);
    }
  }

  /** Rewriting one order without dispatching it, or bringing back a dispatched one. */
  lemma OrderUpdateKeepsValid(s: State, o: Id, order: Order, s': State)
    requires Valid(s) && o < |s.orders| && s'.orders == s.orders[o := order] && s'.deliveries == s.deliveries
    requires |s'.stores| == |s.stores| && order.storeId == s.orders[o].storeId && GoodHistory(order)
    requires order.collaboratorId == s.orders[o].collaboratorId
    requires order.status == s.orders[o].status || (!Dispatched(order.status) && !Dispatched(s.orders[o].status))
    ensures Valid(s')
  {
    UpdateKeepsCoupling(s.orders, s.deliveries, o, order);
  }

  /** The moves of seller and client: accepted, advanced or cancelled, always before dispatch. */
  lemma MoveKeepsValid(s: State, o: Id, status: OrderStatus, actor: Id, s': State)
    requires Valid(s) && o < |s.orders| && Allowed(s.orders[o].status, status) && !Dispatched(status)
    requires s'.orders == s.orders[o := Orders.RecordStatus(s.orders[o], status, actor)]
    requires s'.deliveries == s.deliveries && s'.stores == s.stores
    ensures Valid(s')
  {
    RecordKeepsHistory(s.orders[o], status, actor);
    OrderUpdateKeepsValid(s, o, s'.orders[o], s');
  }

  lemma AssignKeepsValid(s: State, user: User, o: Id, near: seq<Id>)
    requires Valid(s) && Deliveries.AssignOrder(s, user, o, near).Success?
    ensures Valid(Deliveries.AssignOrder(s, user, o, near).value)
  {
    var s' := Deliveries.AssignOrder(s, user, o, near).value;
    RecordKeepsHistory(s.orders[o].(collaboratorId := s'.orders[o].collaboratorId), OrderStatus.Assigned, user.id);
    AssignKeepsCoupling(s.orders, s.deliveries, o, s'.orders[o], s'.deliveries[|s.deliveries|]);
  }

  // ----- the calls, exactly

  /** The order exists and the user owns its store or is an admin. */
  predicate Runs(s: State, user: User, o: Id) {
    && o < |s.orders| && s.orders[o].storeId < |s.stores|
    && (s.stores[s.orders[o].storeId].ownerId == user.id || user.IsAdmin())
  }

  /** One order has a new status, appended to its history with who set it; all else is as it was. */
  predicate MovedOnly(s: State, s': State, o: Id, status: OrderStatus, actor: Id)
    requires o < |s.orders|
  {
    && s' == s.(orders := s'.orders, products := s'.products)
    && s'.orders ==
      s.orders[o := s.orders[o].(status := status, history := s.orders[o].history + [StatusEvent(status, actor)])]
  }

  /** An order is accepted exactly by whoever runs its store, and exactly while it may be. */
  lemma AcceptIff(s: State, user: User, o: Id)
    requires Valid(s)
    ensures Orders.AcceptOrder(s, user, o).Success? <==>
      Runs(s, user, o) && Allowed(s.orders[o].status, OrderStatus.Accepted)
    ensures Orders.AcceptOrder(s, user, o).Success? ==>
      var s' := Orders.AcceptOrder(s, user, o).value;
      s'.products == s.products && MovedOnly(s, s', o, OrderStatus.Accepted, user.id) && Valid(s')
  {
    if Orders.AcceptOrder(s, user, o).Success? {
      MoveKeepsValid(s, o, OrderStatus.Accepted, user.id, Orders.AcceptOrder(s, user, o).value);
    }
  }

  /** It is advanced exactly by whoever runs its store, exactly to preparing or ready, and never skipping. */
  lemma AdvanceIff(s: State, user: User, o: Id, target: OrderStatus)
    requires Valid(s)
    ensures Orders.AdvanceStatus(s, user, o, target).Success? <==>
      && Runs(s, user, o)
      && target in {OrderStatus.Preparing, OrderStatus.Ready} && Allowed(s.orders[o].status, target)
    ensures Orders.AdvanceStatus(s, user, o, target).Success? ==>
      var s' := Orders.AdvanceStatus(s, user, o, target).value;
      s'.products == s.products && MovedOnly(s, s', o, target, user.id) && Valid(s')
  {
    if Orders.AdvanceStatus(s, user, o, target).Success? {
      MoveKeepsValid(s, o, target, user.id, Orders.AdvanceStatus(s, user, o, target).value);
    }
  }

  /** It is cancelled exactly by its client or whoever runs its store, and exactly while it may be. */
  lemma CancelIff(s: State, user: User, o: Id)
    requires Valid(s)
    ensures Orders.CancelOrder(s, user, o).Success? <==>
      && o < |s.orders| && (s.orders[o].clientId == user.id || Runs(s, user, o))
      && Allowed(s.orders[o].status, OrderStatus.Cancelled)
    ensures Orders.CancelOrder(s, user, o).Success? ==>
      var s' := Orders.CancelOrder(s, user, o).value;
      MovedOnly(s, s', o, OrderStatus.Cancelled, user.id) && Valid(s')
  {
    if Orders.CancelOrder(s, user, o).Success? {
      MoveKeepsValid(s, o, OrderStatus.Cancelled, user.id, Orders.CancelOrder(s, user, o).value);
    }
  }

  /** It is assigned exactly by whoever runs its store, while it may be, if anybody nearby is free: the
      check for an existing delivery never fires. */
  lemma AssignIff(s: State, user: User, o: Id, near: seq<Id>)
    requires Valid(s)
    ensures Deliveries.AssignOrder(s, user, o, near).Success? <==>
      && Runs(s, user, o) && Allowed(s.orders[o].status, OrderStatus.Assigned)
      && exists u :: u in near && Deliveries.Available(s.profiles, u)
    ensures Deliveries.AssignOrder(s, user, o, near) != Failure(AlreadyAssigned)
  {
    var candidates := Deliveries.FindAvailable(s.profiles, near);
    assert candidates != [] ==> candidates[0] in candidates;
    assert o < |s.orders| ==> (Dispatched(s.orders[o].status) <==> HasDelivery(s.deliveries, o));
  }

  lemma AdvanceDeliveryKeepsValid(s: State, user: User, d: Id, status: DeliveryStatus, now: int)
    requires Valid(s) && Deliveries.AdvanceStatus(s, user, d, status, now).Success?
    ensures Valid(Deliveries.AdvanceStatus(s, user, d, status, now).value)
  {
    var order := AdvanceDeliveryEffect(s, user, d, status, now);
    AdvanceKeepsCoupling(s.orders, s.deliveries, d, order, status);
  }

  lemma WebhookKeepsValid(s: State, reference: Id, tx: string, status: string, signed: bool, now: int)
    requires Valid(s) && Payments.HandleWebhook(s, reference, tx, status, signed, now).Success?
    ensures Valid(Payments.HandleWebhook(s, reference, tx, status, signed, now).value)
  {
    var s' := Payments.HandleWebhook(s, reference, tx, status, signed, now).value;
    if s'.orders != s.orders {
      var o := s.payments[Payments.PaymentByReference(s.payments, reference).value].refId;
      OrderUpdateKeepsValid(s, o, s'.orders[o], s');
    }
  }

  lemma CreateKeepsValid(s: State, order: Order, s': State)
    requires Valid(s) && s'.orders == s.orders + [order] && s'.deliveries == s.deliveries && s'.stores == s.stores
    requires GoodHistory(order) && order.storeId < |s.stores|
    requires order.status == OrderStatus.Pending && order.collaboratorId == None
    ensures Valid(s')
  {
    CreateKeepsCoupling(s.orders, s.deliveries, order);
  }

  lemma MoveCallKeepsValid(s: State, c: Call)
    requires Valid(s) && IsOrderMove(c) && Try(s, c).Success?
    ensures Valid(Step(s, c))
  {
    MoveKeepsValid(s, c.orderId, Step(s, c).orders[c.orderId].status, c.user.id, Step(s, c));
  }

  lemma StepKeepsValid(s: State, c: Call)
    requires Valid(s)
    ensures Valid(Step(s, c))
  {
    if !IsOrderCall(c) {
      OrdersFrame(s, c);
    } else if Try(s, c).Success? {
      match c
      case CreateOrder(_, _, _, _) => CreateKeepsValid(s, Step(s, c).orders[|s.orders|], Step(s, c));
      case AssignOrder(user, o, near) => AssignKeepsValid(s, user, o, near);
      case AdvanceDelivery(user, d, status, now) => AdvanceDeliveryKeepsValid(s, user, d, status, now);
      case Webhook(reference, tx, status, signed, now) => WebhookKeepsValid(s, reference, tx, status, signed, now);
      case _ => MoveCallKeepsValid(s, c);
    }
  }

  /** In every state the platform can reach, from any valid one, the two machines are coupled. */
  lemma {:induction false} RunKeepsValid(s: State, calls: seq<Call>)
    requires Valid(s)
    ensures Valid(Run(s, calls))
  {
    if calls != [] {
      RunKeepsValid(s, calls[..|calls| - 1]);
      StepKeepsValid(Run(s, calls[..|calls| - 1]), calls[|calls| - 1]);
    }
  }

  // ----- how long an order can live

  lemma {:induction false} RanksIncrease(order: Order, i: nat, j: nat)
    requires GoodHistory(order) && i < j < |order.history|
    ensures Rank(order.history[i].status) < Rank(order.history[j].status)
    ensures order.history[i].status != OrderStatus.Cancelled && order.history[i].status != OrderStatus.Delivered
    decreases j
  {
    assert Allowed(order.history[j - 1].status, order.history[j].status);
    if i < j - 1 {
      RanksIncrease(order, i, j - 1);
    }
  }

  lemma {:induction false} RankCounts(order: Order, j: nat)
    requires GoodHistory(order) && j < |order.history|
    ensures j <= Rank(order.history[j].status)
    ensures order.history[j].status != OrderStatus.Cancelled ==> j == Rank(order.history[j].status)
    decreases j
  {
    if j > 0 {
      RankCounts(order, j - 1);
      assert Allowed(order.history[j - 1].status, order.history[j].status);
    }
  }

  /** A history visits no status twice; it has at most seven entries, at most five if cancelled,
      and the length is told by the status when it was not cancelled. */
  lemma HistoryIsShort(order: Order)
    requires GoodHistory(order)
    ensures forall i, j :: 0 <= i < j < |order.history| ==> order.history[i].status != order.history[j].status
    ensures |order.history| <= Rank(order.status) + 1 <= 7
    ensures order.status != OrderStatus.Cancelled ==> |order.history| == Rank(order.status) + 1
    ensures order.status == OrderStatus.Cancelled ==> |order.history| <= 5
  {
    RankCounts(order, |order.history| - 1);
    forall i, j | 0 <= i < j < |order.history| ensures order.history[i].status != order.history[j].status {
      RanksIncrease(order, i, j);
    }
  }

  function DeliveryRank(status: DeliveryStatus): nat {
    match status
    case Assigned => 0
    case EnRoutePickup => 1
    case PickedUp => 2
    case EnRouteDropoff => 3
    case Delivered => 4
  }

  /** How far an order and its delivery have come together: 8 is the end of both. */
  function Progress(s: State, o: Id): (p: nat)
    requires o < |s.orders|
    ensures p <= 8
  {
    Stage(s.orders[o].status, s.deliveries, o)
  }

  function Stage(status: OrderStatus, deliveries: seq<Delivery>, o: Id): (p: nat)
    ensures p <= 8
  {
    match status
    case Pending => 0
    case Accepted => 1
    case Preparing => 2
    case Ready => 3
    case Cancelled => 8
    case _ =>
      var d := Deliveries.DeliveryByRef(deliveries, OrderRef, o);
      if d.Some? then 4 + DeliveryRank(deliveries[d.value].status) else 4
  }

  lemma DeliveryIsFound(s: State, d: Id)
    requires Valid(s) && d < |s.deliveries|
    ensures Deliveries.DeliveryByRef(s.deliveries, OrderRef, s.deliveries[d].refId) == Some(d)
  {
    assert Serves(s.deliveries[d], s.orders);
  }

  /** A call that succeeds in moving the order or its delivery. */
  predicate Moves(s: State, c: Call, o: Id) {
    && Try(s, c).Success?
    && match c
       case AcceptOrder(_, id) => id == o
       case AdvanceOrder(_, id, _) => id == o
       case CancelOrder(_, id) => id == o
       case AssignOrder(_, id, _) => id == o
       case AdvanceDelivery(_, d, _, _) => d < |s.deliveries| && s.deliveries[d].refId == o
       case _ => false
  }

  /** A delivery that is still there, still for the same order, is still the one found. */
  lemma StageOfDelivery(s: State, d: Id, s': State)
    requires Valid(s) && Valid(s') && d < |s.deliveries| && d < |s'.deliveries|
    requires s'.deliveries[d].refId == s.deliveries[d].refId < |s.orders|
    ensures Progress(s, s.deliveries[d].refId) == 4 + DeliveryRank(s.deliveries[d].status)
    ensures s.deliveries[d].refId < |s'.orders|
    ensures Progress(s', s.deliveries[d].refId) == 4 + DeliveryRank(s'.deliveries[d].status)
  {
    DeliveryIsFound(s, d);
    DeliveryIsFound(s', d);
    assert Serves(s.deliveries[d], s.orders) && Serves(s'.deliveries[d], s'.orders);
  }

  lemma AdvanceProgress(s: State, user: User, d: Id, target: DeliveryStatus, now: int, o: Id)
    requires Valid(s) && o < |s.orders| && Deliveries.AdvanceStatus(s, user, d, target, now).Success?
    ensures d < |s.deliveries|
    ensures var s' := Deliveries.AdvanceStatus(s, user, d, target, now).value;
      o < |s'.orders| && Progress(s', o) == Progress(s, o) + if s.deliveries[d].refId == o then 1 else 0
  {
    var s' := Deliveries.AdvanceStatus(s, user, d, target, now).value;
    var order := AdvanceDeliveryEffect(s, user, d, target, now);
    AdvanceDeliveryKeepsValid(s, user, d, target, now);
    if HasDelivery(s.deliveries, o) {
      var e :| 0 <= e < |s.deliveries| && s.deliveries[e].refId == o;
      StageOfDelivery(s, e, s');
    } else {
      assert s.deliveries[d].refId != o;
      assert !Dispatched(s.orders[o].status);
    }
  }

  lemma AssignProgress(s: State, user: User, id: Id, near: seq<Id>, o: Id)
    requires Valid(s) && o < |s.orders| && Deliveries.AssignOrder(s, user, id, near).Success?
    ensures var s' := Deliveries.AssignOrder(s, user, id, near).value;
      o < |s'.orders| && Progress(s', o) == Progress(s, o) + if id == o then 1 else 0
  {
    var s' := Deliveries.AssignOrder(s, user, id, near).value;
    AssignKeepsValid(s, user, id, near);
    if HasDelivery(s.deliveries, o) {
      var e :| 0 <= e < |s.deliveries| && s.deliveries[e].refId == o;
      StageOfDelivery(s, e, s');
    } else if id == o {
      assert s'.deliveries[|s.deliveries|].refId == o;
      DeliveryIsFound(s', |s.deliveries|);
    } else {
      assert !Dispatched(s.orders[o].status);
    }
  }

  lemma MoveProgress(s: State, c: Call, o: Id)
    requires o < |s.orders| && IsOrderMove(c) && Try(s, c).Success?
    ensures o < |Step(s, c).orders|
    ensures if c.orderId == o then Progress(Step(s, c), o) > Progress(s, o)
            else Progress(Step(s, c), o) == Progress(s, o)
  {
    var status := Step(s, c).orders[c.orderId].status;
    assert Step(s, c).deliveries == s.deliveries;
    assert Step(s, c).orders == s.orders[c.orderId := Step(s, c).orders[c.orderId]];
    assert Allowed(s.orders[c.orderId].status, status) && !Dispatched(status);
  }

  /** Every move of an order makes progress, and nothing else changes its progress. */
  lemma StepProgress(s: State, c: Call, o: Id)
    requires Valid(s) && o < |s.orders|
    ensures o < |Step(s, c).orders|
    ensures if Moves(s, c, o) then Progress(Step(s, c), o) > Progress(s, o)
            else Progress(Step(s, c), o) == Progress(s, o)
  {
    if Try(s, c).Failure? {
    } else if c.AssignOrder? {
      AssignProgress(s, c.user, c.orderId, c.near, o);
    } else if c.AdvanceDelivery? {
      AdvanceProgress(s, c.user, c.deliveryId, c.deliveryStatus, c.now, o);
    } else if IsOrderMove(c) {
      MoveProgress(s, c, o);
    } else {
      StatusFrame(s, c);
    }
  }

  /** The number of calls of a run that move order `o`. */
  function CountMoves(s: State, calls: seq<Call>, o: Id): nat {
    if calls == [] then 0
    else
      var front := calls[..|calls| - 1];
      CountMoves(s, front, o) + if Moves(Run(s, front), calls[|calls| - 1], o) then 1 else 0
  }

  /** Whatever is tried, and in whatever order, at most eight calls ever move an order. */
  lemma {:induction false} AtMostEightMoves(s: State, calls: seq<Call>, o: Id)
    requires Valid(s) && o < |s.orders|
    ensures o < |Run(s, calls).orders|
    ensures CountMoves(s, calls, o) + Progress(s, o) <= Progress(Run(s, calls), o) <= 8
  {
    if calls != [] {
      var front := calls[..|calls| - 1];
      AtMostEightMoves(s, front, o);
      RunKeepsValid(s, front);
      StepProgress(Run(s, front), calls[|calls| - 1], o);
    }
  }
}
