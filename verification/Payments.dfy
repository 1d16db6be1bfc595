/** app/payments: the ledger split (logic.py) and the two ways to settle (service.py). */
module PaymentLogic {
  import opened Wrappers
  import opened Documents

  datatype LedgerLine = LedgerLine(kind: LedgerType, userId: Option<Id>, amount: int, settled: bool)

  function ComputeLedgerLines(itemsTotal: int, deliveryFee: int, platformFee: int, collaboratorId: Option<Id>,
                              sellerId: Id, settled: bool): seq<LedgerLine>
  {
    (if collaboratorId.Some? && deliveryFee > 0 then [LedgerLine(Earning, collaboratorId, deliveryFee, true)] else []) +
    [LedgerLine(Commission, None, platformFee, settled)] +
    [LedgerLine(Earning, Some(sellerId), itemsTotal - platformFee, settled)]
  }
}

module Payments {
  import opened Wrappers
  import opened Documents
  import opened PaymentLogic

  /** `get_payment_by_ref`: the first payment for a document. */
  function PaymentByRef(payments: seq<Payment>, refType: RefType, refId: Id): (r: Option<Id>)
    ensures r.Some? ==> r.value < |payments| && payments[r.value].refType == refType && payments[r.value].refId == refId
    ensures r.None? ==> forall k :: 0 <= k < |payments| ==>
      !(payments[k].refType == refType && payments[k].refId == refId)
  {
    if payments == [] then None
    else
      var n := |payments| - 1;
      var earlier := PaymentByRef(payments[..n], refType, refId);
      if earlier.Some? then earlier
      else if payments[n].refType == refType && payments[n].refId == refId then Some(n)
      else
        assert forall k :: 0 <= k < n ==> payments[k] == payments[..n][k];
        None
  }

  predicate HasReference(payment: Payment, reference: Id) {
    payment.provider.Some? && payment.provider.value.reference == reference
  }

  /** `get_payment_by_reference`: the first payment with a Wompi reference. */
  function PaymentByReference(payments: seq<Payment>, reference: Id): (r: Option<Id>)
    ensures r.Some? ==> r.value < |payments| && HasReference(payments[r.value], reference)
    ensures r.None? ==> forall k :: 0 <= k < |payments| ==> !HasReference(payments[k], reference)
  {
    if payments == [] then None
    else
      var n := |payments| - 1;
      var earlier := PaymentByReference(payments[..n], reference);
      if earlier.Some? then earlier
      else if HasReference(payments[n], reference) then Some(n)
      else
        assert forall k :: 0 <= k < n ==> payments[k] == payments[..n][k];
        None
  }

  function EntryOf(line: LedgerLine, refType: RefType, refId: Id, storeId: Option<Id>, now: int): LedgerEntry {
    LedgerEntry(line.userId, line.kind, line.amount, refType, refId, storeId, line.settled, now)
  }

  /** `_write_ledger`: the entries inserted for some lines. */
  function EntriesOf(lines: seq<LedgerLine>, refType: RefType, refId: Id, storeId: Option<Id>,
                     now: int): seq<LedgerEntry>
  {
    seq(|lines|, i requires 0 <= i < |lines| => EntryOf(lines[i], refType, refId, storeId, now))
  }

  function OrderLines(order: Order, store: Store, settled: bool): seq<LedgerLine> {
    ComputeLedgerLines(order.amounts.itemsTotal, order.amounts.deliveryFee, order.amounts.platformFee,
                       order.collaboratorId, store.ownerId, settled)
  }

  /** `_ledger_for_order`: nothing when the store is gone. */
  function LedgerForOrder(s: State, orderId: Id, settled: bool, now: int): State
    requires orderId < |s.orders|
  {
    var order := s.orders[orderId];
    if order.storeId >= |s.stores| then s
    else s.(ledger := s.ledger + EntriesOf(OrderLines(order, s.stores[order.storeId], settled),
                                           OrderRef, orderId, Some(order.storeId), now))
  }

  function CashPayment(order: Order, orderId: Id): Payment {
    Payment(OrderRef, orderId, order.clientId, order.amounts.total, order.payBy, PaymentStatus.Approved, None)
  }

  /** Records an approved payment and writes the ledger, unless the order already has a payment. */
  function SettleOrderPayment(s: State, orderId: Id, now: int): State
    requires orderId < |s.orders|
  {
    if PaymentByRef(s.payments, OrderRef, orderId).Some? then s
    else
      var order := s.orders[orderId];
      LedgerForOrder(
        s.(payments := s.payments + [CashPayment(order, orderId)],
           orders := s.orders[orderId := order.(paymentId := Some(|s.payments|))]),
        orderId, false, now)
  }

  function ErrandPayment(errand: Errand, errandId: Id): Payment {
    Payment(ErrandRef, errandId, errand.clientId, errand.offeredFee, Cash, PaymentStatus.Approved, None)
  }

  function ErrandLines(collaboratorId: Option<Id>, offeredFee: int): seq<LedgerLine> {
    if collaboratorId.Some? && offeredFee > 0 then [LedgerLine(Earning, collaboratorId, offeredFee, true)] else []
  }

  /** Pays an errand in cash, once. Errands carry no commission. */
  function SettleErrandPayment(s: State, errandId: Id, now: int): State
    requires errandId < |s.errands|
  {
    if PaymentByRef(s.payments, ErrandRef, errandId).Some? then s
    else
      var errand := s.errands[errandId];
      s.(payments := s.payments + [ErrandPayment(errand, errandId)],
         ledger := s.ledger +
           EntriesOf(ErrandLines(errand.collaboratorId, errand.offeredFee), ErrandRef, errandId, None, now))
  }

  function IntentPayment(user: User, order: Order, orderId: Id): Payment {
    Payment(OrderRef, orderId, user.id, order.amounts.total, Wompi, PaymentStatus.Pending,
            Some(WompiProvider(orderId, None, "PENDING")))
  }

  /** Looks only at the owner and the method: a cancelled order can still get an intent. */
  function CreateIntent(s: State, user: User, orderId: Id): Result<State, Error> {
    if orderId >= |s.orders| then Failure(NotFound)
    else
      var order := s.orders[orderId];
      if order.clientId != user.id then Failure(Forbidden)
      else if order.payBy != Wompi then Failure(NotWompi)
      else match PaymentByRef(s.payments, OrderRef, orderId)
           case None => Success(s.(payments := s.payments + [IntentPayment(user, order, orderId)]))
           case Some(k) => if s.payments[k].provider.Some? then Success(s) else Failure(AssertionFailed)
  }

  const APPROVED := "APPROVED"

  /** What an event does to the payment it names: nothing once approved, the last word until then. */
  function ApplyEvent(payment: Payment, transactionId: string, status: string): Payment
    requires payment.provider.Some?
  {
    if payment.status == PaymentStatus.Approved then payment
    else payment.(
      provider := Some(payment.provider.value.(transactionId := Some(transactionId), wompiStatus := status)),
      status := if status == APPROVED then PaymentStatus.Approved else PaymentStatus.Declined)
  }

  function HandleWebhook(s: State, reference: Id, transactionId: string, status: string, signed: bool,
                         now: int): Result<State, Error>
  {
    if !signed then Failure(InvalidSignature)
    else match PaymentByReference(s.payments, reference)
         case None => Failure(NotFound)
         case Some(k) =>
           var payment := s.payments[k];
           if payment.status == PaymentStatus.Approved then Success(s)
           else
             var s1 := s.(payments := s.payments[k := ApplyEvent(payment, transactionId, status)]);
             if status == APPROVED && payment.refId < |s.orders|
             then Success(LedgerForOrder(
               s1.(orders := s.orders[payment.refId := s.orders[payment.refId].(paymentId := Some(k))]),
               payment.refId, true, now))
             else Success(s1)
  }
}
