/** What no call ever takes back: the parts of the database that only grow. */
module Evolution {
  import opened Wrappers
  import opened Documents
  import opened Platform
  import opened Frames
  import opened Payments
  import Orders
  import Deliveries
  import Settlements
  import Errands
  import Lifecycle
  import Accounts

  /** Client, store, items, amounts and payment method are frozen; the history is only appended to;
      a collaborator and a payment, once set, stay. */
  predicate OrderEvolves(a: Order, b: Order) {
    && a.clientId == b.clientId && a.storeId == b.storeId && a.items == b.items && a.amounts == b.amounts
    && a.payBy == b.payBy
    && a.history <= b.history
    && (a.collaboratorId.Some? ==> b.collaboratorId == a.collaboratorId)
    && (a.paymentId.Some? ==> b.paymentId == a.paymentId)
  }

  predicate DeliveryEvolves(a: Delivery, b: Delivery) {
    b.(status := a.status) == a
  }

  /** An approved payment is final; a declined one is not. */
  predicate PaymentEvolves(a: Payment, b: Payment) {
    && b.(status := a.status, provider := a.provider) == a
    && (a.status == PaymentStatus.Approved ==> a == b)
  }

  /** A ledger entry never changes, except that it may become settled. */
  predicate EntryEvolves(a: LedgerEntry, b: LedgerEntry) {
    b == a || b == a.(settled := true)
  }

  ghost predicate OrdersEvolve(a: seq<Order>, b: seq<Order>) {
    |a| <= |b| && forall i :: 0 <= i < |a| ==> OrderEvolves(a[i], b[i])
  }

  ghost predicate DeliveriesEvolve(a: seq<Delivery>, b: seq<Delivery>) {
    |a| <= |b| && forall i :: 0 <= i < |a| ==> DeliveryEvolves(a[i], b[i])
  }

  ghost predicate PaymentsEvolve(a: seq<Payment>, b: seq<Payment>) {
    |a| <= |b| && forall i :: 0 <= i < |a| ==> PaymentEvolves(a[i], b[i])
  }

  ghost predicate LedgerEvolves(a: seq<LedgerEntry>, b: seq<LedgerEntry>) {
    |a| <= |b| && forall i :: 0 <= i < |a| ==> EntryEvolves(a[i], b[i])
  }

  ghost predicate OwnersStay(a: seq<Store>, b: seq<Store>) {
    |a| <= |b| && forall i :: 0 <= i < |a| ==> a[i].ownerId == b[i].ownerId
  }

  ghost predicate Evolves(a: State, b: State) {
    && OwnersStay(a.stores, b.stores)
    && OrdersEvolve(a.orders, b.orders)
    && DeliveriesEvolve(a.deliveries, b.deliveries)
    && PaymentsEvolve(a.payments, b.payments)
    && LedgerEvolves(a.ledger, b.ledger)
  }

  lemma EvolvesTransitive(a: State, b: State, c: State)
    requires Evolves(a, b) && Evolves(b, c)
    ensures Evolves(a, c)
  {
    forall i | 0 <= i < |a.orders| ensures OrderEvolves(a.orders[i], c.orders[i]) {
      assert OrderEvolves(a.orders[i], b.orders[i]) && OrderEvolves(b.orders[i], c.orders[i]);
    }
    forall i | 0 <= i < |a.deliveries| ensures DeliveryEvolves(a.deliveries[i], c.deliveries[i]) {
      assert DeliveryEvolves(a.deliveries[i], b.deliveries[i]) && DeliveryEvolves(b.deliveries[i], c.deliveries[i]);
    }
    forall i | 0 <= i < |a.payments| ensures PaymentEvolves(a.payments[i], c.payments[i]) {
      assert PaymentEvolves(a.payments[i], b.payments[i]) && PaymentEvolves(b.payments[i], c.payments[i]);
    }
    forall i | 0 <= i < |a.ledger| ensures EntryEvolves(a.ledger[i], c.ledger[i]) {
      assert EntryEvolves(a.ledger[i], b.ledger[i]) && EntryEvolves(b.ledger[i], c.ledger[i]);
    }
  }

  lemma OneOrderEvolves(a: seq<Order>, o: Id, order: Order)
    requires o < |a| && OrderEvolves(a[o], order)
    ensures OrdersEvolve(a, a[o := order])
  {
  }

  lemma AdvanceDeliveryEvolves(s: State, user: User, d: Id, status: DeliveryStatus, now: int)
    requires Accounts.Valid(s) && Deliveries.AdvanceStatus(s, user, d, status, now).Success?
    ensures Evolves(s, Deliveries.AdvanceStatus(s, user, d, status, now).value)
  {
    var o, order := Accounts.AdvanceDeliveryMoney(s, user, d, status, now);
    OneOrderEvolves(s.orders, o, order);
    var effect := Lifecycle.AdvanceDeliveryEffect(s, user, d, status, now);
  }

  lemma WebhookEvolves(s: State, reference: Id, tx: string, status: string, signed: bool, now: int)
    requires Accounts.Valid(s) && HandleWebhook(s, reference, tx, status, signed, now).Success?
    ensures Evolves(s, HandleWebhook(s, reference, tx, status, signed, now).value)
  {
    if HandleWebhook(s, reference, tx, status, signed, now).value != s {
      var k := Accounts.WebhookMoney(s, reference, tx, status, signed, now);
      OneOrderEvolves(s.orders, reference, s.orders[reference].(paymentId := Some(k)));
    }
  }

  lemma ErrandCallEvolves(s: State, c: Call)
    requires Accounts.Valid(s) && IsErrandCall(c) && Try(s, c).Success?
    ensures Evolves(s, Step(s, c))
  {
    if c.AdvanceErrand? && c.errandStatus == ErrandStatus.Completed {
      var errand := Accounts.CompleteErrandMoney(s, c.user, c.errandId, c.now);
    }
  }

  lemma OrderCallEvolves(s: State, c: Call)
    requires Accounts.Valid(s) && Try(s, c).Success? && (IsOrderMove(c) || c.AssignOrder? || c.CreateOrder?)
    ensures Evolves(s, Step(s, c))
  {
    if !c.CreateOrder? {
      assert Lifecycle.Dispatched(s.orders[c.orderId].status) <==> s.orders[c.orderId].collaboratorId.Some?;
      OneOrderEvolves(s.orders, c.orderId, Step(s, c).orders[c.orderId]);
    }
  }

  lemma AsideEvolves(s: State, c: Call)
    requires Accounts.Aside(c)
    ensures Evolves(s, Step(s, c))
  {
    OrdersFrame(s, c);
    Accounts.AsideFrame(s, c);
  }

  lemma StepEvolves(s: State, c: Call)
    requires Accounts.Valid(s)
    ensures Evolves(s, Step(s, c))
  {
    if Try(s, c).Failure? {}
    else if Accounts.Aside(c) { AsideEvolves(s, c); }
    else if IsErrandCall(c) { ErrandCallEvolves(s, c); }
    else if c.AdvanceDelivery? { AdvanceDeliveryEvolves(s, c.user, c.deliveryId, c.deliveryStatus, c.now); }
    else if c.CreateIntent? { IntentFrame(s, c); }
    else if c.Webhook? { WebhookEvolves(s, c.reference, c.transactionId, c.wompiStatus, c.signed, c.now); }
    else { OrderCallEvolves(s, c); }
  }

  /** Every state of a run evolves into every later one. */
  lemma {:induction false} RunEvolves(s: State, calls: seq<Call>)
    requires Accounts.Valid(s) && AllWellFormed(calls)
    ensures Evolves(s, Run(s, calls))
  {
    if calls != [] {
      var front := calls[..|calls| - 1];
      assert forall i :: 0 <= i < |front| ==> front[i] == calls[i];
      RunEvolves(s, front);
      Accounts.RunKeepsValid(s, front);
      StepEvolves(Run(s, front), calls[|calls| - 1]);
      EvolvesTransitive(s, Run(s, front), Run(s, calls));
    }
  }

  /** A delivered or cancelled order stays so, whatever is called afterwards. */
  lemma TerminalIsForever(s: State, calls: seq<Call>, o: Id)
    requires Accounts.Valid(s) && AllWellFormed(calls) && o < |s.orders|
    requires s.orders[o].status == OrderStatus.Delivered || s.orders[o].status == OrderStatus.Cancelled
    ensures o < |Run(s, calls).orders|
    ensures Run(s, calls).orders[o].status == s.orders[o].status
      && Run(s, calls).orders[o].history == s.orders[o].history
  {
    RunEvolves(s, calls);
    Accounts.RunKeepsValid(s, calls);
    var a, b := s.orders[o], Run(s, calls).orders[o];
    assert OrderEvolves(a, b) && Lifecycle.GoodHistory(a) && Lifecycle.GoodHistory(b);
    var n := |a.history| - 1;
    assert b.history[n] == a.history[n];
    if |b.history| > |a.history| {
      Lifecycle.RanksIncrease(b, n, n + 1);
      assert false;
    }
  }
}
