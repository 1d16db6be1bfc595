/** Who has paid what: payments against orders and errands, in every reachable state. */
module Accounts {
  import opened Wrappers
  import opened Documents
  import opened Platform
  import opened Frames
  import opened PaymentLogic
  import opened DeliveryLogic
  import opened Payments
  import Orders
  import Deliveries
  import Errands
  import Lifecycle

  /** An order payment has the order's payer, total and method; it is approved exactly when the order
      points back at it; cash ones are born approved and Wompi ones carry the order's reference. */
  predicate PaysOrder(p: Payment, k: Id, orders: seq<Order>) {
    && p.refId < |orders|
    && var order := orders[p.refId];
    && p.payerId == order.clientId && p.amount == order.amounts.total && p.payBy == order.payBy
    && (p.status == PaymentStatus.Approved <==> order.paymentId == Some(k))
    && (p.payBy == Cash ==> p.status == PaymentStatus.Approved && p.provider.None?)
    && (p.payBy == Wompi ==> HasReference(p, p.refId))
  }

  predicate PaysErrand(p: Payment, k: Id, errands: seq<Errand>) {
    && p.refId < |errands|
    && p == ErrandPayment(errands[p.refId], p.refId)
    && errands[p.refId].paymentId == Some(k)
  }

  predicate GoodPayment(p: Payment, k: Id, orders: seq<Order>, errands: seq<Errand>) {
    match p.refType
    case OrderRef => PaysOrder(p, k, orders)
    case ErrandRef => PaysErrand(p, k, errands)
  }

  predicate SameDocument(p: Payment, q: Payment) {
    p.refType == q.refType && p.refId == q.refId
  }

  predicate PointsTo(payments: seq<Payment>, refType: RefType, refId: Id, paymentId: Option<Id>) {
    paymentId.Some? ==>
      && paymentId.value < |payments|
      && payments[paymentId.value].refType == refType && payments[paymentId.value].refId == refId
      && payments[paymentId.value].status == PaymentStatus.Approved
  }

  /** A cash order is paid exactly when it is delivered. */
  predicate CashOnDelivery(order: Order) {
    order.payBy == Cash ==> (order.paymentId.Some? <==> order.status == OrderStatus.Delivered)
  }

  /** An errand is paid exactly when it is completed, and has a collaborator from acceptance on. */
  predicate PaidWhenDone(errand: Errand) {
    && (errand.paymentId.Some? <==> errand.status == ErrandStatus.Completed)
    && (errand.status in {ErrandStatus.Assigned, ErrandStatus.InProgress, ErrandStatus.Completed} ==>
      errand.collaboratorId.Some?)
    && errand.offeredFee >= 1
  }

  ghost predicate Accounted(orders: seq<Order>, errands: seq<Errand>, payments: seq<Payment>) {
    && (forall k :: 0 <= k < |payments| ==> GoodPayment(payments[k], k, orders, errands))
    && (forall j, k :: 0 <= j < k < |payments| ==> !SameDocument(payments[j], payments[k]))
    && (forall o :: 0 <= o < |orders| ==>
          PointsTo(payments, OrderRef, o, orders[o].paymentId) && CashOnDelivery(orders[o]))
    && (forall e :: 0 <= e < |errands| ==>
          PointsTo(payments, ErrandRef, e, errands[e].paymentId) && PaidWhenDone(errands[e]))
  }

  /** The payment a document has, if any, is unique. */
  lemma PaymentIsFound(orders: seq<Order>, errands: seq<Errand>, payments: seq<Payment>, k: Id)
    requires Accounted(orders, errands, payments) && k < |payments|
    ensures PaymentByRef(payments, payments[k].refType, payments[k].refId) == Some(k)
  {
    var j := PaymentByRef(payments, payments[k].refType, payments[k].refId).value;
    assert SameDocument(payments[j], payments[k]) && SameDocument(payments[k], payments[j]);
  }

  /** A Wompi reference leads to the one payment of the order it names. */
  lemma ReferenceIsFound(orders: seq<Order>, errands: seq<Errand>, payments: seq<Payment>, reference: Id)
    requires Accounted(orders, errands, payments)
    ensures var r := PaymentByReference(payments, reference);
      r.Some? ==>
        && payments[r.value].refType == OrderRef && payments[r.value].refId == reference < |orders|
        && payments[r.value].payBy == Wompi
        && PaymentByRef(payments, OrderRef, reference) == r
  {
    var r := PaymentByReference(payments, reference);
    if r.Some? {
      assert GoodPayment(payments[r.value], r.value, orders, errands);
      PaymentIsFound(orders, errands, payments, r.value);
    }
  }

  lemma NewOrderAccounted(orders: seq<Order>, errands: seq<Errand>, payments: seq<Payment>, order: Order)
    requires Accounted(orders, errands, payments)
    requires order.paymentId.None? && order.status == OrderStatus.Pending
    ensures Accounted(orders + [order], errands, payments)
  {
    forall k | 0 <= k < |payments| ensures GoodPayment(payments[k], k, orders + [order], errands) {
      assert GoodPayment(payments[k], k, orders, errands);
    }
  }

  /** An update of an order that money does not notice. */
  predicate SameMoney(a: Order, b: Order) {
    && a.clientId == b.clientId && a.storeId == b.storeId && a.amounts == b.amounts && a.payBy == b.payBy
    && a.paymentId == b.paymentId
  }

  lemma OrderUpdateAccounted(orders: seq<Order>, errands: seq<Errand>, payments: seq<Payment>, o: Id, order: Order)
    requires Accounted(orders, errands, payments) && o < |orders|
    requires SameMoney(orders[o], order) && CashOnDelivery(order)
    ensures Accounted(orders[o := order], errands, payments)
  {
    forall k | 0 <= k < |payments| ensures GoodPayment(payments[k], k, orders[o := order], errands) {
      assert GoodPayment(payments[k], k, orders, errands);
    }
  }

  /** An order without a payment gets one. */
  lemma NewPaymentAccounted(orders: seq<Order>, errands: seq<Errand>, payments: seq<Payment>, o: Id, order: Order,
                            p: Payment)
    requires Accounted(orders, errands, payments) && o < |orders| && PaymentByRef(payments, OrderRef, o).None?
    requires SameMoney(orders[o], order.(paymentId := orders[o].paymentId)) && CashOnDelivery(order)
    requires p.refType == OrderRef && p.refId == o && PaysOrder(p, |payments|, orders[o := order])
    requires p.status != PaymentStatus.Approved ==> order.paymentId.None?
    ensures Accounted(orders[o := order], errands, payments + [p])
  {
    var orders', payments' := orders[o := order], payments + [p];
    assert PointsTo(payments, OrderRef, o, orders[o].paymentId);
    forall k | 0 <= k < |payments'| ensures GoodPayment(payments'[k], k, orders', errands) {
      if k < |payments| { assert GoodPayment(payments[k], k, orders, errands); }
    }
    forall i | 0 <= i < |orders|
      ensures PointsTo(payments', OrderRef, i, orders'[i].paymentId) && CashOnDelivery(orders'[i])
    {
      assert PointsTo(payments, OrderRef, i, orders[i].paymentId);
    }
    forall e | 0 <= e < |errands| ensures PointsTo(payments', ErrandRef, e, errands[e].paymentId) {
      assert PointsTo(payments, ErrandRef, e, errands[e].paymentId);
    }
  }

  /** A payment that is not approved yet takes an event; its order points at it once it is. */
  lemma EventAccounted(orders: seq<Order>, errands: seq<Errand>, payments: seq<Payment>, k: Id, tx: string,
                       status: string)
    requires Accounted(orders, errands, payments) && k < |payments| && payments[k].provider.Some?
    requires payments[k].status != PaymentStatus.Approved
    ensures payments[k].refId < |orders| && orders[payments[k].refId].paymentId.None?
    ensures var o := payments[k].refId;
      Accounted(if status == APPROVED then orders[o := orders[o].(paymentId := Some(k))] else orders,
                errands, payments[k := ApplyEvent(payments[k], tx, status)])
  {
    assert GoodPayment(payments[k], k, orders, errands);
    var o := payments[k].refId;
    var orders' := if status == APPROVED then orders[o := orders[o].(paymentId := Some(k))] else orders;
    var payments' := payments[k := ApplyEvent(payments[k], tx, status)];
    assert PointsTo(payments, OrderRef, o, orders[o].paymentId);
    if orders[o].paymentId.Some? {
      assert SameDocument(payments[orders[o].paymentId.value], payments[k])
        && SameDocument(payments[k], payments[orders[o].paymentId.value]);
    }
    forall j | 0 <= j < |payments'| ensures GoodPayment(payments'[j], j, orders', errands) {
      assert GoodPayment(payments[j], j, orders, errands);
      if j != k { assert SameDocument(payments[j], payments[k]) <==> SameDocument(payments[k], payments[j]); }
    }
    forall i | 0 <= i < |orders|
      ensures PointsTo(payments', OrderRef, i, orders'[i].paymentId) && CashOnDelivery(orders'[i])
    {
      assert PointsTo(payments, OrderRef, i, orders[i].paymentId) && CashOnDelivery(orders[i]);
    }
    forall e | 0 <= e < |errands| ensures PointsTo(payments', ErrandRef, e, errands[e].paymentId) {
      assert PointsTo(payments, ErrandRef, e, errands[e].paymentId);
    }
    forall i, j | 0 <= i < j < |payments'| ensures !SameDocument(payments'[i], payments'[j]) {
      assert !SameDocument(payments[i], payments[j]);
    }
  }

  lemma NewErrandAccounted(orders: seq<Order>, errands: seq<Errand>, payments: seq<Payment>, errand: Errand)
    requires Accounted(orders, errands, payments) && errand.paymentId.None? && PaidWhenDone(errand)
    ensures Accounted(orders, errands + [errand], payments)
  {
    forall k | 0 <= k < |payments| ensures GoodPayment(payments[k], k, orders, errands + [errand]) {
      assert GoodPayment(payments[k], k, orders, errands);
    }
  }

  lemma ErrandUpdateAccounted(orders: seq<Order>, errands: seq<Errand>, payments: seq<Payment>, e: Id, errand: Errand)
    requires Accounted(orders, errands, payments) && e < |errands| && errands[e].paymentId.None?
    requires errand.paymentId.None? && PaidWhenDone(errand)
    ensures Accounted(orders, errands[e := errand], payments)
  {
    forall k | 0 <= k < |payments| ensures GoodPayment(payments[k], k, orders, errands[e := errand]) {
      assert GoodPayment(payments[k], k, orders, errands);
    }
  }

  lemma ErrandPaidAccounted(orders: seq<Order>, errands: seq<Errand>, payments: seq<Payment>, e: Id, errand: Errand)
    requires Accounted(orders, errands, payments) && e < |errands| && errands[e].paymentId.None?
    requires errand.paymentId == Some(|payments|) && PaidWhenDone(errand)
    ensures PaymentByRef(payments, ErrandRef, e).None?
    ensures Accounted(orders, errands[e := errand], payments + [ErrandPayment(errand, e)])
  {
    var errands', payments' := errands[e := errand], payments + [ErrandPayment(errand, e)];
    assert forall k :: 0 <= k < |payments| ==> GoodPayment(payments[k], k, orders, errands);
    forall k | 0 <= k < |payments'| ensures GoodPayment(payments'[k], k, orders, errands') {
      if k < |payments| { assert GoodPayment(payments[k], k, orders, errands); }
    }
    forall i | 0 <= i < |orders| ensures PointsTo(payments', OrderRef, i, orders[i].paymentId) {
      assert PointsTo(payments, OrderRef, i, orders[i].paymentId);
    }
    forall i | 0 <= i < |errands|
      ensures PointsTo(payments', ErrandRef, i, errands'[i].paymentId) && PaidWhenDone(errands'[i])
    {
      assert PointsTo(payments, ErrandRef, i, errands[i].paymentId);
    }
  }

  ghost predicate InAccount(s: State) {
    Accounted(s.orders, s.errands, s.payments)
  }

  ghost predicate Valid(s: State) {
    Lifecycle.Valid(s) && InAccount(s)
  }

  /** What a successful delivery step does to the money: a cash order that arrives is paid and booked
      with its collaborator; nothing else is. */
  lemma AdvanceDeliveryMoney(s: State, user: User, d: Id, status: DeliveryStatus, now: int)
    returns (o: Id, order: Order)
    requires Valid(s) && Deliveries.AdvanceStatus(s, user, d, status, now).Success?
    ensures d < |s.deliveries| && o == s.deliveries[d].refId < |s.orders| && order.storeId < |s.stores|
    ensures SameMoney(s.orders[o], order.(paymentId := s.orders[o].paymentId)) && CashOnDelivery(order)
    ensures order.items == s.orders[o].items && s.orders[o].history <= order.history
    ensures order.collaboratorId == s.orders[o].collaboratorId && order.collaboratorId.Some?
    ensures var s' := Deliveries.AdvanceStatus(s, user, d, status, now).value;
      && s' == s.(orders := s.orders[o := order], deliveries := s'.deliveries, payments := s'.payments,
                  ledger := s'.ledger, profiles := s'.profiles)
      && if status == DeliveryStatus.Delivered && order.payBy == Cash then
        && PaymentByRef(s.payments, OrderRef, o).None? && s.orders[o].paymentId.None?
        && order.paymentId == Some(|s.payments|)
        && s'.payments == s.payments + [CashPayment(order, o)]
        && s'.ledger == s.ledger +
          EntriesOf(OrderLines(order, s.stores[order.storeId], false), OrderRef, o, Some(order.storeId), now)
      else
        order.paymentId == s.orders[o].paymentId && s'.payments == s.payments && s'.ledger == s.ledger
  {
    order := Lifecycle.AdvanceDeliveryEffect(s, user, d, status, now);
    Lifecycle.SyncIsGuarded(s, d, status);
    assert Lifecycle.Serves(s.deliveries[d], s.orders);
    o := s.deliveries[d].refId;
    assert Lifecycle.GoodHistory(s.orders[o]) && CashOnDelivery(s.orders[o]);
    assert forall k :: 0 <= k < |s.payments| ==> GoodPayment(s.payments[k], k, s.orders, s.errands);
    assert order == Deliveries.AdvanceStatus(s, user, d, status, now).value.orders[o];
  }

  lemma AdvanceDeliveryAccounted(s: State, user: User, d: Id, status: DeliveryStatus, now: int)
    requires Valid(s) && Deliveries.AdvanceStatus(s, user, d, status, now).Success?
    ensures InAccount(Deliveries.AdvanceStatus(s, user, d, status, now).value)
  {
    var s' := Deliveries.AdvanceStatus(s, user, d, status, now).value;
    var o, order := AdvanceDeliveryMoney(s, user, d, status, now);
    if s'.payments == s.payments {
      OrderUpdateAccounted(s.orders, s.errands, s.payments, o, order);
    } else {
      NewPaymentAccounted(s.orders, s.errands, s.payments, o, order, CashPayment(order, o));
    }
  }

  /** A new intent: the payment added when the order has none. */
  lemma IntentAccounted(s: State, c: Call)
    requires Valid(s) && c.CreateIntent? && Try(s, c).Success?
    ensures InAccount(Step(s, c))
  {
    var o := c.orderId;
    if PaymentByRef(s.payments, OrderRef, o).None? {
      assert PointsTo(s.payments, OrderRef, o, s.orders[o].paymentId);
      assert s.orders[o := s.orders[o]] == s.orders;
      NewPaymentAccounted(s.orders, s.errands, s.payments, o, s.orders[o], IntentPayment(c.user, s.orders[o], o));
    }
  }

  /** What a webhook that changes anything does. */
  lemma WebhookMoney(s: State, reference: Id, tx: string, status: string, signed: bool, now: int) returns (k: Id)
    requires Valid(s) && HandleWebhook(s, reference, tx, status, signed, now).Success?
    requires HandleWebhook(s, reference, tx, status, signed, now).value != s
    ensures PaymentByReference(s.payments, reference) == Some(k) && k < |s.payments|
    ensures s.payments[k].status != PaymentStatus.Approved && s.payments[k].provider.Some?
      && s.payments[k].refType == OrderRef
    ensures reference < |s.orders| && s.payments[k].refId == reference && s.orders[reference].storeId < |s.stores|
    ensures s.orders[reference].payBy == Wompi && s.orders[reference].paymentId.None?
    ensures var s' := HandleWebhook(s, reference, tx, status, signed, now).value;
      && s' ==
        s.(payments := s.payments[k := ApplyEvent(s.payments[k], tx, status)], orders := s'.orders, ledger := s'.ledger)
      && if status == APPROVED then
        && var order := s.orders[reference].(paymentId := Some(k));
        && s'.orders == s.orders[reference := order]
        && s'.ledger == s.ledger +
          EntriesOf(OrderLines(order, s.stores[order.storeId], true), OrderRef, reference, Some(order.storeId), now)
      else s'.orders == s.orders && s'.ledger == s.ledger
  {
    ReferenceIsFound(s.orders, s.errands, s.payments, reference);
    k := PaymentByReference(s.payments, reference).value;
    assert GoodPayment(s.payments[k], k, s.orders, s.errands);
    EventAccounted(s.orders, s.errands, s.payments, k, tx, status);
    assert Lifecycle.GoodHistory(s.orders[reference]);
  }

  lemma WebhookAccounted(s: State, reference: Id, tx: string, status: string, signed: bool, now: int)
    requires Valid(s) && HandleWebhook(s, reference, tx, status, signed, now).Success?
    ensures InAccount(HandleWebhook(s, reference, tx, status, signed, now).value)
  {
    if HandleWebhook(s, reference, tx, status, signed, now).value != s {
      var k := WebhookMoney(s, reference, tx, status, signed, now);
      EventAccounted(s.orders, s.errands, s.payments, k, tx, status);
    }
  }

  /** An errand that is completed is paid once, and its collaborator earns the whole offered fee. */
  lemma CompleteErrandMoney(s: State, user: User, e: Id, now: int) returns (errand: Errand)
    requires Valid(s) && Errands.AdvanceStatus(s, user, e, ErrandStatus.Completed, now).Success?
    ensures e < |s.errands| && s.errands[e].paymentId.None? && s.errands[e].status != ErrandStatus.Completed
    ensures errand.status == ErrandStatus.Completed && errand.collaboratorId == s.errands[e].collaboratorId
    ensures errand.offeredFee == s.errands[e].offeredFee && errand.clientId == s.errands[e].clientId
    ensures errand.collaboratorId.Some? && errand.offeredFee >= 1 && errand.paymentId == Some(|s.payments|)
    ensures Errands.AdvanceStatus(s, user, e, ErrandStatus.Completed, now).value == s.(
      errands := s.errands[e := errand],
      payments := s.payments + [ErrandPayment(errand, e)],
      ledger := s.ledger + EntriesOf(ErrandLines(errand.collaboratorId, errand.offeredFee), ErrandRef, e, None, now))
  {
    assert PointsTo(s.payments, ErrandRef, e, s.errands[e].paymentId) && PaidWhenDone(s.errands[e]);
    errand := Errands.RecordStatus(s.errands[e], ErrandStatus.Completed).(paymentId := Some(|s.payments|));
    ErrandPaidAccounted(s.orders, s.errands, s.payments, e, errand);
  }

  lemma ErrandCallAccounted(s: State, c: Call)
    requires Valid(s) && WellFormed(c) && IsErrandCall(c) && Try(s, c).Success?
    ensures InAccount(Step(s, c))
  {
    var s' := Step(s, c);
    if c.CreateErrand? {
      NewErrandAccounted(s.orders, s.errands, s.payments, s'.errands[|s.errands|]);
    } else {
      var e := c.errandId;
      assert PaidWhenDone(s.errands[e]);
      if c.AdvanceErrand? && c.errandStatus == ErrandStatus.Completed {
        var errand := CompleteErrandMoney(s, c.user, e, c.now);
        ErrandPaidAccounted(s.orders, s.errands, s.payments, e, errand);
      } else {
        ErrandUpdateAccounted(s.orders, s.errands, s.payments, e, s'.errands[e]);
      }
    }
  }

  lemma OrderCallAccounted(s: State, c: Call)
    requires Valid(s) && Try(s, c).Success? && (c.AcceptOrder? || c.AdvanceOrder? || c.CancelOrder? || c.AssignOrder?)
    ensures InAccount(Step(s, c))
  {
    assert CashOnDelivery(s.orders[c.orderId]);
    OrderUpdateAccounted(s.orders, s.errands, s.payments, c.orderId, Step(s, c).orders[c.orderId]);
  }

  /** The calls that are not about orders, payments or errands. */
  predicate Aside(c: Call) {
    !IsOrderCall(c) && !IsErrandCall(c) && !c.CreateIntent?
  }

  lemma AsideFrame(s: State, c: Call)
    requires Aside(c)
    ensures Step(s, c).orders == s.orders && Step(s, c).errands == s.errands && Step(s, c).payments == s.payments
    ensures c.GenerateSettlement? || Step(s, c).ledger == s.ledger
  {
    if IsStoreCall(c) { StoreFrame(s, c); }
    else if IsCatalogCall(c) { CatalogFrame(s, c); }
    else if IsProfileCall(c) { ProfileFrame(s, c); }
    else if IsSettlementCall(c) { SettlementFrame(s, c); }
    else { ReviewFrame(s, c); }
  }

  lemma CreateOrderAccounted(s: State, c: Call)
    requires Valid(s) && c.CreateOrder? && Try(s, c).Success?
    ensures InAccount(Step(s, c))
  {
    NewOrderAccounted(s.orders, s.errands, s.payments, Step(s, c).orders[|s.orders|]);
  }

  lemma StepKeepsAccount(s: State, c: Call)
    requires Valid(s) && WellFormed(c) && Try(s, c).Success?
    ensures InAccount(Step(s, c))
  {
    if Aside(c) { AsideFrame(s, c); }
    else if IsErrandCall(c) { ErrandCallAccounted(s, c); }
    else if c.CreateOrder? { CreateOrderAccounted(s, c); }
    else if c.AdvanceDelivery? { AdvanceDeliveryAccounted(s, c.user, c.deliveryId, c.deliveryStatus, c.now); }
    else if c.CreateIntent? { IntentAccounted(s, c); }
    else if c.Webhook? { WebhookAccounted(s, c.reference, c.transactionId, c.wompiStatus, c.signed, c.now); }
    else { OrderCallAccounted(s, c); }
  }

  lemma StepKeepsValid(s: State, c: Call)
    requires Valid(s) && WellFormed(c)
    ensures Valid(Step(s, c))
  {
    Lifecycle.StepKeepsValid(s, c);
    if Try(s, c).Success? {
      StepKeepsAccount(s, c);
    }
  }

  lemma {:induction false} RunKeepsValid(s: State, calls: seq<Call>)
    requires Valid(s) && AllWellFormed(calls)
    ensures Valid(Run(s, calls))
  {
    if calls != [] {
      var front := calls[..|calls| - 1];
      assert forall i :: 0 <= i < |front| ==> front[i] == calls[i];
      RunKeepsValid(s, front);
      StepKeepsValid(Run(s, front), calls[|calls| - 1]);
    }
  }
}
