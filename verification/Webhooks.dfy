/** What a payment becomes under any sequence of Wompi events, alone and in the middle of any run. */
module Webhooks {
  import opened Wrappers
  import opened Documents
  import opened Platform
  import opened Frames
  import opened Payments
  import Orders
  import Accounts
  import Books
  import Conservation
  import Evolution

  datatype Event = Event(transactionId: string, status: string) {
    predicate Approves() { status == APPROVED }
  }

  /** The payment after a sequence of events. */
  function Fold(payment: Payment, events: seq<Event>): (r: Payment)
    requires payment.provider.Some?
    ensures r.provider.Some?
  {
    if events == [] then payment
    else
      var last := events[|events| - 1];
      ApplyEvent(Fold(payment, events[..|events| - 1]), last.transactionId, last.status)
  }

  predicate AnyApproves(events: seq<Event>) {
    exists i :: 0 <= i < |events| && events[i].Approves()
  }

  /** The first approving event, or the last event when none approves. */
  function Decisive(events: seq<Event>): (i: nat)
    requires events != []
    ensures i < |events|
    ensures AnyApproves(events) ==> events[i].Approves() && forall j :: 0 <= j < i ==> !events[j].Approves()
    ensures !AnyApproves(events) ==> i == |events| - 1
  {
    var n := |events| - 1;
    if n == 0 then 0
    else
      assert forall j :: 0 <= j < n ==> events[..n][j] == events[j];
      var i := Decisive(events[..n]);
      if events[i].Approves() then
        assert AnyApproves(events);
        i
      else
        assert !AnyApproves(events[..n]);
        n
  }

  /** From a pending payment: approved exactly when some event approves, even after declines; declined
      exactly when there were events and none approved; and it shows the decisive event. */
  lemma {:induction false} ClosedForm(payment: Payment, events: seq<Event>)
    requires payment.provider.Some? && payment.status == PaymentStatus.Pending
    ensures var r := Fold(payment, events);
      && (r.status == PaymentStatus.Approved <==> AnyApproves(events))
      && (r.status == PaymentStatus.Declined <==> events != [] && !AnyApproves(events))
      && (events == [] ==> r == payment)
      && (events != [] ==>
          var decisive := events[Decisive(events)];
          r == payment.(status := r.status,
                        provider := Some(WompiProvider(
                          payment.provider.value.reference, Some(decisive.transactionId), decisive.status))))
  {
    if events != [] {
      var n := |events| - 1;
      var front := events[..n];
      assert forall j :: 0 <= j < n ==> front[j] == events[j];
      ClosedForm(payment, front);
      assert AnyApproves(events) <==> AnyApproves(front) || events[n].Approves() by {
        if AnyApproves(front) {
          var i :| 0 <= i < n && front[i].Approves();
          assert events[i].Approves();
        }
      }
      if front != [] && AnyApproves(front) {
        SameDecisive(events);
      }
    }
  }

  lemma SameDecisive(events: seq<Event>)
    requires |events| > 1 && AnyApproves(events[..|events| - 1])
    ensures Decisive(events) == Decisive(events[..|events| - 1])
  {
    var front := events[..|events| - 1];
    assert forall j :: 0 <= j < |front| ==> front[j] == events[j];
    var i, j := Decisive(events), Decisive(front);
    assert events[j].Approves() && AnyApproves(events);
  }

  /** The validly signed events of a run that name a reference. */
  function EventsIn(calls: seq<Call>, reference: Id): seq<Event> {
    if calls == [] then []
    else
      var last := calls[|calls| - 1];
      EventsIn(calls[..|calls| - 1], reference) +
      if last.Webhook? && last.signed && last.reference == reference
      then [Event(last.transactionId, last.wompiStatus)] else []
  }

  /** Apart from webhooks, calls only add payments. */
  lemma PaymentsAreAppended(s: State, c: Call)
    requires Accounts.Valid(s) && !c.Webhook?
    ensures s.payments <= Step(s, c).payments
  {
    if Try(s, c).Failure? {}
    else if Accounts.Aside(c) { Accounts.AsideFrame(s, c); }
    else if c.AdvanceDelivery? {
      var o, order := Accounts.AdvanceDeliveryMoney(s, c.user, c.deliveryId, c.deliveryStatus, c.now);
    } else if IsErrandCall(c) { ErrandPaymentsAppended(s, c); }
    else { OrderPaymentsAppended(s, c); }
  }

  lemma ErrandPaymentsAppended(s: State, c: Call)
    requires Accounts.Valid(s) && IsErrandCall(c) && Try(s, c).Success?
    ensures s.payments <= Step(s, c).payments
  {
    if c.AdvanceErrand? && c.errandStatus == ErrandStatus.Completed {
      var errand := Accounts.CompleteErrandMoney(s, c.user, c.errandId, c.now);
    }
  }

  lemma OrderPaymentsAppended(s: State, c: Call)
    requires c.CreateIntent? || c.CreateOrder? || IsOrderMove(c) || c.AssignOrder?
    ensures s.payments <= Step(s, c).payments
  {
  }

  /** A webhook is folded into the payment of its reference, and into no other. */
  lemma WebhookFolds(s: State, c: Call, reference: Id, k: Id)
    requires Accounts.Valid(s) && c.Webhook? && PaymentByReference(s.payments, reference) == Some(k)
    ensures k < |Step(s, c).payments|
    ensures Step(s, c).payments[k] ==
      if c.signed && c.reference == reference
      then ApplyEvent(s.payments[k], c.transactionId, c.wompiStatus) else s.payments[k]
  {
    if Try(s, c).Success? && Step(s, c) != s {
      var j := Accounts.WebhookMoney(s, c.reference, c.transactionId, c.wompiStatus, c.signed, c.now);
      Accounts.ReferenceIsFound(s.orders, s.errands, s.payments, reference);
    }
  }

  lemma ReferenceStays(s: State, s': State, reference: Id, k: Id)
    requires Accounts.Valid(s) && Accounts.Valid(s') && PaymentByReference(s.payments, reference) == Some(k)
    requires k < |s'.payments| && s'.payments[k].refType == OrderRef && s'.payments[k].refId == reference
    requires HasReference(s'.payments[k], reference)
    ensures PaymentByReference(s'.payments, reference) == Some(k)
  {
    Accounts.ReferenceIsFound(s'.orders, s'.errands, s'.payments, reference);
    Accounts.PaymentIsFound(s'.orders, s'.errands, s'.payments, k);
  }

  /** In the middle of any run, a Wompi payment is its own events folded, in order, and nothing else. */
  lemma {:induction false} PaymentIsItsEvents(s: State, calls: seq<Call>, reference: Id, k: Id)
    requires Accounts.Valid(s) && AllWellFormed(calls) && PaymentByReference(s.payments, reference) == Some(k)
    ensures PaymentByReference(Run(s, calls).payments, reference) == Some(k)
    ensures Run(s, calls).payments[k] == Fold(s.payments[k], EventsIn(calls, reference))
  {
    if calls != [] {
      var front, c := calls[..|calls| - 1], calls[|calls| - 1];
      assert forall i :: 0 <= i < |front| ==> front[i] == calls[i];
      PaymentIsItsEvents(s, front, reference, k);
      var s1 := Run(s, front);
      Accounts.RunKeepsValid(s, front);
      Accounts.StepKeepsValid(s1, c);
      FoldSnoc(s.payments[k], EventsIn(front, reference), c, reference);
      OneCall(s1, c, reference, k);
    }
  }

  lemma FoldSnoc(payment: Payment, events: seq<Event>, c: Call, reference: Id)
    requires payment.provider.Some?
    ensures c.Webhook? ==>
      Fold(payment, events + [Event(c.transactionId, c.wompiStatus)]) ==
        ApplyEvent(Fold(payment, events), c.transactionId, c.wompiStatus)
    ensures events + [] == events
  {
    if c.Webhook? {
      assert (events + [Event(c.transactionId, c.wompiStatus)])[..|events|] == events;
    }
  }

  lemma OneCall(s: State, c: Call, reference: Id, k: Id)
    requires Accounts.Valid(s) && Accounts.Valid(Step(s, c)) && PaymentByReference(s.payments, reference) == Some(k)
    ensures PaymentByReference(Step(s, c).payments, reference) == Some(k)
    ensures Step(s, c).payments[k] ==
      if c.Webhook? && c.signed && c.reference == reference
      then ApplyEvent(s.payments[k], c.transactionId, c.wompiStatus) else s.payments[k]
  {
    Accounts.ReferenceIsFound(s.orders, s.errands, s.payments, reference);
    if c.Webhook? { WebhookFolds(s, c, reference, k); } else { PaymentsAreAppended(s, c); }
    ReferenceStays(s, Step(s, c), reference, k);
  }

  /** Whatever else happens, an order whose payment is pending ends up in the ledger, with one split,
      exactly when one of its events approves. */
  lemma LedgerWrittenOnceOrNever(s: State, calls: seq<Call>, reference: Id, k: Id)
    requires Books.Valid(s) && AllWellFormed(calls) && PaymentByReference(s.payments, reference) == Some(k)
    requires s.payments[k].status == PaymentStatus.Pending
    ensures var s', events := Run(s, calls), EventsIn(calls, reference);
      && reference < |s'.orders| && s'.orders[reference].storeId < |s'.stores|
      && (Books.MovementsFor(s'.ledger, OrderRef, reference) == [] <==> !AnyApproves(events))
      && Books.OrderBooked(s'.orders[reference], s'.stores[s'.orders[reference].storeId].ownerId,
                           Books.MovementsFor(s'.ledger, OrderRef, reference))
  {
    var s' := Run(s, calls);
    PaymentIsItsEvents(s, calls, reference, k);
    ClosedForm(s.payments[k], EventsIn(calls, reference));
    Books.RunKeepsValid(s, calls);
    Accounts.ReferenceIsFound(s'.orders, s'.errands, s'.payments, reference);
    assert Accounts.GoodPayment(s'.payments[k], k, s'.orders, s'.errands);
    Conservation.LedgerIffPaid(s', reference);
    assert Books.OrderBooked(s'.orders[reference], s'.stores[s'.orders[reference].storeId].ownerId,
                             Books.MovementsFor(s'.ledger, OrderRef, reference));
  }
}
