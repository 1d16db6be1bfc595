/** Money conservation: every peso of a paid order is in the ledger, exactly once, for ever. */
module Conservation {
  import opened Wrappers
  import opened Documents
  import opened Sequences
  import opened Platform
  import opened PaymentLogic
  import opened Payments
  import opened Books
  import Deliveries
  import Lifecycle
  import Accounts
  import Evolution

  function Total(movements: seq<Movement>): int {
    Sum(movements, AmountOf())
  }

  /** What the collaborator's line adds to a split. */
  function CollaboratorShare(order: Order, collaboratorId: Option<Id>): int {
    if collaboratorId.Some? && order.amounts.deliveryFee > 0 then order.amounts.deliveryFee else 0
  }

  function CollaboratorLine(order: Order, collaboratorId: Option<Id>): Movement {
    Movement(Earning, collaboratorId, order.amounts.deliveryFee)
  }

  /** A sum over a split, line by line. */
  lemma BatchSum(order: Order, collaboratorId: Option<Id>, owner: Id, f: Movement -> int)
    ensures Sum(Batch(order, collaboratorId, owner), f) ==
      (if collaboratorId.Some? && order.amounts.deliveryFee > 0 then f(CollaboratorLine(order, collaboratorId)) else 0)
      + f(Movement(Commission, None, order.amounts.platformFee))
      + f(Movement(Earning, Some(owner), order.amounts.itemsTotal - order.amounts.platformFee))
  {
    var a := Movement(Commission, None, order.amounts.platformFee);
    var b := Movement(Earning, Some(owner), order.amounts.itemsTotal - order.amounts.platformFee);
    var first := if collaboratorId.Some? && order.amounts.deliveryFee > 0
                 then [CollaboratorLine(order, collaboratorId)] else [];
    assert Batch(order, collaboratorId, owner) == first + [a] + [b];
    SumSnoc(first + [a], b, f);
    SumSnoc(first, a, f);
    if first != [] {
      assert first == [] + [first[0]];
      SumSnoc([], first[0], f);
    }
  }

  /** A split distributes the items, plus the delivery fee if there was a collaborator to earn it. */
  lemma BatchTotal(order: Order, collaboratorId: Option<Id>, owner: Id)
    ensures Total(Batch(order, collaboratorId, owner)) ==
      order.amounts.itemsTotal + CollaboratorShare(order, collaboratorId)
  {
    BatchSum(order, collaboratorId, owner, AmountOf());
  }

  function ReceivedBy(account: Option<Id>): Movement -> int {
    (m: Movement) => if m.userId == account then m.amount else 0
  }

  /** Who gets what: the platform the fee, the seller the items less the fee, the collaborator the
      delivery fee, and nobody else anything. One person may be both seller and collaborator. */
  lemma PartiesGetTheirShare(order: Order, collaboratorId: Option<Id>, owner: Id, account: Option<Id>)
    ensures Sum(Batch(order, collaboratorId, owner), ReceivedBy(account)) ==
      (if account == None then order.amounts.platformFee else 0)
      + (if account == Some(owner) then order.amounts.itemsTotal - order.amounts.platformFee else 0)
      + (if account == collaboratorId then CollaboratorShare(order, collaboratorId) else 0)
  {
    BatchSum(order, collaboratorId, owner, ReceivedBy(account));
  }

  /** What the client paid and the ledger does not show. */
  function Shortfall(s: State, o: Id): int
    requires o < |s.orders|
  {
    s.orders[o].amounts.total - Total(MovementsFor(s.ledger, OrderRef, o))
  }

  /** A paid order's payment is its total, and the ledger shows all of it, unless there was no
      collaborator when it was written: then exactly the delivery fee is missing. */
  lemma MoneyConserved(s: State, o: Id)
    requires Valid(s) && o < |s.orders| && s.orders[o].paymentId.Some?
    ensures s.orders[o].paymentId.value < |s.payments|
    ensures s.payments[s.orders[o].paymentId.value].amount == s.orders[o].amounts.total
    ensures Shortfall(s, o) ==
      s.orders[o].amounts.deliveryFee - CollaboratorShare(s.orders[o], s.orders[o].collaboratorId)
         || (s.orders[o].payBy == Wompi && Shortfall(s, o) == s.orders[o].amounts.deliveryFee)
    ensures s.orders[o].payBy == Cash ==> (Shortfall(s, o) == 0 <==> s.orders[o].amounts.deliveryFee >= 0)
  {
    var order := s.orders[o];
    assert Accounts.PointsTo(s.payments, OrderRef, o, order.paymentId) && Accounts.CashOnDelivery(order);
    assert Accounts.GoodPayment(s.payments[order.paymentId.value], order.paymentId.value, s.orders, s.errands);
    assert Priced(order) && OrderBooked(order, s.stores[order.storeId].ownerId, MovementsFor(s.ledger, OrderRef, o));
    BatchTotal(order, order.collaboratorId, s.stores[order.storeId].ownerId);
    BatchTotal(order, None, s.stores[order.storeId].ownerId);
    assert order.payBy == Cash ==> Lifecycle.Dispatched(order.status);
  }

  /** An order that is not paid has nothing in the ledger; one that is has a single commission. */
  lemma LedgerIffPaid(s: State, o: Id)
    requires Valid(s) && o < |s.orders|
    ensures MovementsFor(s.ledger, OrderRef, o) == [] <==> s.orders[o].paymentId.None?
    ensures s.orders[o].payBy == Cash ==> (s.orders[o].paymentId.Some? <==> s.orders[o].status == OrderStatus.Delivered)
    ensures s.orders[o].payBy == Wompi ==>
      (s.orders[o].paymentId.Some? <==>
        var k := PaymentByRef(s.payments, OrderRef, o); k.Some? && s.payments[k.value].status == PaymentStatus.Approved)
    ensures forall j, k :: 0 <= j < k < |s.payments| ==>
      !(s.payments[j].refType == s.payments[k].refType == OrderRef && s.payments[j].refId == s.payments[k].refId == o)
  {
    var order := s.orders[o];
    assert OrderBooked(order, s.stores[order.storeId].ownerId, MovementsFor(s.ledger, OrderRef, o));
    assert Accounts.PointsTo(s.payments, OrderRef, o, order.paymentId) && Accounts.CashOnDelivery(order);
    if order.paymentId.Some? {
      Accounts.PaymentIsFound(s.orders, s.errands, s.payments, order.paymentId.value);
    }
    var k := PaymentByRef(s.payments, OrderRef, o);
    assert k.Some? ==> Accounts.GoodPayment(s.payments[k.value], k.value, s.orders, s.errands);
    forall j, k | 0 <= j < k < |s.payments|
      ensures !(s.payments[j].refType == s.payments[k].refType == OrderRef
                && s.payments[j].refId == s.payments[k].refId == o)
    {
      assert !Accounts.SameDocument(s.payments[j], s.payments[k]);
    }
  }

  lemma {:induction false} MovementsPrefix(a: seq<LedgerEntry>, b: seq<LedgerEntry>, refType: RefType, refId: Id)
    requires Evolution.LedgerEvolves(a, b)
    ensures MovementsFor(a, refType, refId) <= MovementsFor(b, refType, refId)
  {
    assert b == b[..|a|] + b[|a|..];
    MovementsConcat(b[..|a|], b[|a|..], refType, refId);
    assert forall i :: 0 <= i < |a| ==> SameEntry(a[i], b[..|a|][i]) by {
      assert forall i :: 0 <= i < |a| ==> Evolution.EntryEvolves(a[i], b[i]);
    }
    MovementsIgnoreSettling(a, b[..|a|], refType, refId);
  }

  /** A split that extends a split is the same split. */
  lemma SplitsDoNotExtend(a: Order, b: Order, owner: Id, m: seq<Movement>, m': seq<Movement>)
    requires Evolution.OrderEvolves(a, b) && a.paymentId.Some? && m <= m'
    requires OrderBooked(a, owner, m) && OrderBooked(b, owner, m')
    ensures m == m'
  {
    assert m[0] == m'[0];
  }

  /** Once an order is in the ledger, its movements are never added to, taken from or altered. */
  lemma BooksAreFrozen(s: State, calls: seq<Call>, o: Id)
    requires Valid(s) && AllWellFormed(calls) && o < |s.orders| && s.orders[o].paymentId.Some?
    ensures o < |Run(s, calls).orders|
    ensures MovementsFor(Run(s, calls).ledger, OrderRef, o) == MovementsFor(s.ledger, OrderRef, o)
  {
    var s' := Run(s, calls);
    Evolution.RunEvolves(s, calls);
    RunKeepsValid(s, calls);
    var a, b := s.orders[o], s'.orders[o];
    assert Evolution.OrderEvolves(a, b);
    var owner := s.stores[a.storeId].ownerId;
    var m, m' := MovementsFor(s.ledger, OrderRef, o), MovementsFor(s'.ledger, OrderRef, o);
    assert OrderBooked(a, owner, m) && OrderBooked(b, owner, m');
    MovementsPrefix(s.ledger, s'.ledger, OrderRef, o);
    SplitsDoNotExtend(a, b, owner, m, m');
  }

  lemma ApprovalShortfall(s: State, reference: Id, tx: string, now: int)
    requires Valid(s) && reference < |s.orders|
    requires HandleWebhook(s, reference, tx, APPROVED, true, now).Success?
    requires HandleWebhook(s, reference, tx, APPROVED, true, now).value != s
    ensures var s', order := HandleWebhook(s, reference, tx, APPROVED, true, now).value, s.orders[reference];
      && reference < |s'.orders| && s'.orders[reference].paymentId.Some?
      && s'.orders[reference].amounts == order.amounts
      && Shortfall(s', reference) == order.amounts.deliveryFee - CollaboratorShare(order, order.collaboratorId)
  {
    var k := Accounts.WebhookMoney(s, reference, tx, APPROVED, true, now);
    var order := s.orders[reference].(paymentId := Some(k));
    OrderPaidBooked(s.orders, s.stores, s.errands, s.ledger, reference, order, true, now);
    BatchTotal(order, order.collaboratorId, s.stores[order.storeId].ownerId);
    assert Priced(s.orders[reference]);
  }

  /** When a Wompi order is approved decides for ever what its ledger shows. Without a collaborator at
      that moment the delivery fee is missing, however the order goes on; so the ledger adds up to what
      the client paid exactly when there was one, or no fee. */
  lemma ApprovalDecidesForever(s: State, reference: Id, tx: string, now: int, calls: seq<Call>)
    requires Valid(s) && AllWellFormed(calls) && reference < |s.orders|
    requires HandleWebhook(s, reference, tx, APPROVED, true, now).Success?
    requires HandleWebhook(s, reference, tx, APPROVED, true, now).value != s
    ensures
      var s', order := Run(HandleWebhook(s, reference, tx, APPROVED, true, now).value, calls), s.orders[reference];
      && reference < |s'.orders| && s'.orders[reference].amounts == order.amounts
      && (order.collaboratorId.None? ==> Shortfall(s', reference) == order.amounts.deliveryFee)
      && (Shortfall(s', reference) == 0 <==>
          order.amounts.deliveryFee == 0 || (order.amounts.deliveryFee > 0 && order.collaboratorId.Some?))
  {
    var c := Webhook(reference, tx, APPROVED, true, now);
    var s1 := HandleWebhook(s, reference, tx, APPROVED, true, now).value;
    assert Step(s, c) == s1;
    ApprovalShortfall(s, reference, tx, now);
    StepKeepsValid(s, c);
    BooksAreFrozen(s1, calls, reference);
    Evolution.RunEvolves(s1, calls);
    assert Evolution.OrderEvolves(s1.orders[reference], Run(s1, calls).orders[reference]);
  }
}
