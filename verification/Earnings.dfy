/** What collaborators earn from errands. */
module Earnings {
  import opened Wrappers
  import opened Documents
  import opened Sequences
  import opened Platform
  import opened Frames
  import opened Payments
  import Deliveries
  import Errands
  import Settlements
  import Accounts
  import Books

  /** One collaborator, or all of them. */
  datatype Payee = Everyone | Only(user: Id) {
    predicate Is(user': Option<Id>) {
      user'.Some? && (Everyone? || user'.value == user)
    }
  }

  function EarningOf(payee: Payee): LedgerEntry -> int {
    (e: LedgerEntry) => if e.refType == ErrandRef && payee.Is(e.userId) then e.amount else 0
  }

  function FeeOf(payee: Payee): Errand -> int {
    (e: Errand) => if e.status == ErrandStatus.Completed && payee.Is(e.collaboratorId) then e.offeredFee else 0
  }

  /** Errand earnings in the ledger are the offered fees of the completed errands. */
  ghost predicate EarnedWhatWasOffered(errands: seq<Errand>, ledger: seq<LedgerEntry>) {
    forall payee: Payee :: Sum(ledger, EarningOf(payee)) == Sum(errands, FeeOf(payee))
  }

  ghost predicate Valid(s: State) {
    Books.Valid(s) && EarnedWhatWasOffered(s.errands, s.ledger)
  }

  lemma SplitsAreNotErrands(ledger: seq<LedgerEntry>, order: Order, store: Store, settled: bool, o: Id, now: int,
                            payee: Payee)
    ensures Sum(ledger + EntriesOf(OrderLines(order, store, settled), OrderRef, o, Some(order.storeId), now),
                EarningOf(payee))
         == Sum(ledger, EarningOf(payee))
  {
    var entries := EntriesOf(OrderLines(order, store, settled), OrderRef, o, Some(order.storeId), now);
    SumConcat(ledger, entries, EarningOf(payee));
    SumNonNegative(entries, EarningOf(payee));
  }

  lemma StatementsEarnNothing(ledger: seq<LedgerEntry>, q: Settlements.Query, payee: Payee)
    ensures Sum(Settlements.MarkSettled(ledger, q), EarningOf(payee)) == Sum(ledger, EarningOf(payee))
  {
    SumPointwise(Settlements.MarkSettled(ledger, q), ledger, EarningOf(payee));
  }

  /** The collaborator earns the offered fee, and nobody else earns anything. */
  lemma CompletionEarns(s: State, user: User, e: Id, now: int)
    requires Valid(s) && Errands.AdvanceStatus(s, user, e, ErrandStatus.Completed, now).Success?
    ensures e < |s.errands|
    ensures var s', errand := Errands.AdvanceStatus(s, user, e, ErrandStatus.Completed, now).value, s.errands[e];
      && EarnedWhatWasOffered(s'.errands, s'.ledger)
      && forall payee: Payee :: Sum(s'.ledger, EarningOf(payee)) ==
           Sum(s.ledger, EarningOf(payee)) + if payee.Is(errand.collaboratorId) then errand.offeredFee else 0
  {
    var errand := Accounts.CompleteErrandMoney(s, user, e, now);
    var entries := EntriesOf(ErrandLines(errand.collaboratorId, errand.offeredFee), ErrandRef, e, None, now);
    assert entries == [entries[0]];
    forall payee: Payee
      ensures Sum(s.ledger + entries, EarningOf(payee)) == Sum(s.errands[e := errand], FeeOf(payee))
      ensures Sum(s.ledger + entries, EarningOf(payee)) ==
        Sum(s.ledger, EarningOf(payee)) + if payee.Is(errand.collaboratorId) then errand.offeredFee else 0
    {
      SumSnoc(s.ledger, entries[0], EarningOf(payee));
      SumUpdate(s.errands, e, errand, FeeOf(payee));
    }
  }

  lemma CreateErrandEarns(s: State, user: User, fee: int)
    requires EarnedWhatWasOffered(s.errands, s.ledger)
    ensures EarnedWhatWasOffered(Errands.CreateErrand(s, user, fee).errands, s.ledger)
  {
    var errands := Errands.CreateErrand(s, user, fee).errands;
    forall payee: Payee ensures Sum(s.ledger, EarningOf(payee)) == Sum(errands, FeeOf(payee)) {
      SumSnoc(s.errands, errands[|s.errands|], FeeOf(payee));
    }
  }

  /** An errand that is not completed, before and after, earns nothing. */
  lemma OpenErrandEarns(errands: seq<Errand>, ledger: seq<LedgerEntry>, e: Id, errand: Errand)
    requires EarnedWhatWasOffered(errands, ledger) && e < |errands|
    requires errands[e].status != ErrandStatus.Completed && errand.status != ErrandStatus.Completed
    ensures EarnedWhatWasOffered(errands[e := errand], ledger)
  {
    forall payee: Payee ensures Sum(ledger, EarningOf(payee)) == Sum(errands[e := errand], FeeOf(payee)) {
      SumUpdate(errands, e, errand, FeeOf(payee));
    }
  }

  lemma AdvanceErrandEarns(s: State, user: User, e: Id, status: ErrandStatus, now: int)
    requires Valid(s) && Errands.AdvanceStatus(s, user, e, status, now).Success?
    ensures var s' := Errands.AdvanceStatus(s, user, e, status, now).value;
      EarnedWhatWasOffered(s'.errands, s'.ledger)
  {
    if status == ErrandStatus.Completed {
      CompletionEarns(s, user, e, now);
    } else {
      OpenErrandEarns(s.errands, s.ledger, e, Errands.AdvanceStatus(s, user, e, status, now).value.errands[e]);
    }
  }

  lemma ErrandCallEarns(s: State, c: Call)
    requires Valid(s) && IsErrandCall(c) && Try(s, c).Success?
    ensures EarnedWhatWasOffered(Step(s, c).errands, Step(s, c).ledger)
  {
    match c
    case CreateErrand(user, fee) => CreateErrandEarns(s, user, fee);
    case AcceptErrand(_, e) => OpenErrandEarns(s.errands, s.ledger, e, Step(s, c).errands[e]);
    case CancelErrand(_, e) => OpenErrandEarns(s.errands, s.ledger, e, Step(s, c).errands[e]);
    case AdvanceErrand(user, e, status, now) => AdvanceErrandEarns(s, user, e, status, now);
  }

  lemma AdvanceDeliveryEarns(s: State, user: User, d: Id, status: DeliveryStatus, now: int)
    requires Valid(s) && Deliveries.AdvanceStatus(s, user, d, status, now).Success?
    ensures var s' := Deliveries.AdvanceStatus(s, user, d, status, now).value;
      EarnedWhatWasOffered(s'.errands, s'.ledger)
  {
    DeliverySide(s, user, d, status, now);
    var s' := Deliveries.AdvanceStatus(s, user, d, status, now).value;
    var o, order := Accounts.AdvanceDeliveryMoney(s, user, d, status, now);
    forall payee: Payee ensures Sum(s'.ledger, EarningOf(payee)) == Sum(s.ledger, EarningOf(payee)) {
      SplitsAreNotErrands(s.ledger, order, s.stores[order.storeId], false, o, now, payee);
    }
  }

  lemma WebhookEarns(s: State, reference: Id, tx: string, status: string, signed: bool, now: int)
    requires Valid(s) && HandleWebhook(s, reference, tx, status, signed, now).Success?
    ensures var s' := HandleWebhook(s, reference, tx, status, signed, now).value;
      EarnedWhatWasOffered(s'.errands, s'.ledger)
  {
    WebhookSide(s, reference, tx, status, signed, now);
    var s' := HandleWebhook(s, reference, tx, status, signed, now).value;
    if s' != s {
      var k := Accounts.WebhookMoney(s, reference, tx, status, signed, now);
      var order := s.orders[reference].(paymentId := Some(k));
      forall payee: Payee ensures Sum(s'.ledger, EarningOf(payee)) == Sum(s.ledger, EarningOf(payee)) {
        SplitsAreNotErrands(s.ledger, order, s.stores[order.storeId], true, reference, now, payee);
      }
    }
  }

  /** The other order calls leave errands and ledger as they are. */
  lemma QuietCallEarns(s: State, c: Call)
    requires EarnedWhatWasOffered(s.errands, s.ledger)
    requires IsOrderCall(c) && !c.AdvanceDelivery? && !c.Webhook?
    ensures EarnedWhatWasOffered(Step(s, c).errands, Step(s, c).ledger)
  {
    OrderFrame(s, c);
    assert Step(s, c).ledger == s.ledger;
  }

  lemma OrderCallEarns(s: State, c: Call)
    requires Valid(s) && IsOrderCall(c) && Try(s, c).Success?
    ensures EarnedWhatWasOffered(Step(s, c).errands, Step(s, c).ledger)
  {
    match c
    case AdvanceDelivery(user, d, status, now) => AdvanceDeliveryEarns(s, user, d, status, now);
    case Webhook(reference, tx, status, signed, now) => WebhookEarns(s, reference, tx, status, signed, now);
    case _ => QuietCallEarns(s, c);
  }

  lemma StepKeepsValid(s: State, c: Call)
    requires Valid(s) && WellFormed(c)
    ensures Valid(Step(s, c))
  {
    Books.StepKeepsValid(s, c);
    if Try(s, c).Failure? {}
    else if IsErrandCall(c) { ErrandCallEarns(s, c); }
    else if IsOrderCall(c) { OrderCallEarns(s, c); }
    else if c.CreateIntent? { IntentFrame(s, c); }
    else {
      Accounts.AsideFrame(s, c);
      if c.GenerateSettlement? {
        forall payee: Payee ensures Sum(Step(s, c).ledger, EarningOf(payee)) == Sum(s.ledger, EarningOf(payee)) {
          StatementsEarnNothing(s.ledger, c.query, payee);
        }
      }
    }
  }

  lemma {:induction false} RunKeepsValid(s: State, calls: seq<Call>)
    requires Valid(s) && AllWellFormed(calls)
    ensures Valid(Run(s, calls))
  {
    if calls != [] {
      var front := calls[..|calls| - 1];
      assert forall i :: 0 <= i < |front| ==> front[i] == calls[i];
      RunKeepsValid(s, front);
      StepKeepsValid(Run(s, front), calls[|calls| - 1]);
    }
  }

  /** An errand has a payment exactly when it is completed: one payment, of the offered fee, and one
      earning, of the same, for its collaborator. */
  lemma ErrandPaidOnce(s: State, e: Id)
    requires Books.Valid(s) && e < |s.errands|
    ensures var k := PaymentByRef(s.payments, ErrandRef, e);
      && (k.Some? <==> s.errands[e].status == ErrandStatus.Completed)
      && (k.Some? ==> s.errands[e].paymentId == k && s.payments[k.value].amount == s.errands[e].offeredFee
                      && s.payments[k.value].status == PaymentStatus.Approved)
    ensures Books.MovementsFor(s.ledger, ErrandRef, e) ==
      if s.errands[e].status == ErrandStatus.Completed
      then [Books.Movement(Earning, s.errands[e].collaboratorId, s.errands[e].offeredFee)] else []
    ensures forall i, j :: 0 <= i < j < |s.payments| ==>
      !(s.payments[i].refType == s.payments[j].refType == ErrandRef && s.payments[i].refId == s.payments[j].refId == e)
  {
    var errand := s.errands[e];
    assert Accounts.PointsTo(s.payments, ErrandRef, e, errand.paymentId) && Accounts.PaidWhenDone(errand);
    assert Books.ErrandBooked(errand, Books.MovementsFor(s.ledger, ErrandRef, e));
    assert forall k :: 0 <= k < |s.payments| ==> Accounts.GoodPayment(s.payments[k], k, s.orders, s.errands);
    if errand.paymentId.Some? {
      Accounts.PaymentIsFound(s.orders, s.errands, s.payments, errand.paymentId.value);
    }
    forall i, j | 0 <= i < j < |s.payments|
      ensures !(s.payments[i].refType == s.payments[j].refType == ErrandRef
                && s.payments[i].refId == s.payments[j].refId == e)
    {
      assert !Accounts.SameDocument(s.payments[i], s.payments[j]);
    }
  }

}
