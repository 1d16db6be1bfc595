/** What the ledger holds for each document: nothing, or exactly one split, written once. */
module Books {
  import opened Wrappers
  import opened Documents
  import opened Sequences
  import opened Platform
  import opened Frames
  import opened PaymentLogic
  import opened Payments
  import Orders
  import Deliveries
  import Settlements
  import Lifecycle
  import Accounts

  /** A ledger entry without its bookkeeping: who got what, and why. */
  datatype Movement = Movement(kind: LedgerType, userId: Option<Id>, amount: int)

  predicate About(e: LedgerEntry, refType: RefType, refId: Id) {
    e.refType == refType && e.refId == refId
  }

  /** The movements booked for a document, in the order they were written. */
  function MovementsFor(ledger: seq<LedgerEntry>, refType: RefType, refId: Id): seq<Movement> {
    if ledger == [] then []
    else
      var n := |ledger| - 1;
      MovementsFor(ledger[..n], refType, refId) +
      if About(ledger[n], refType, refId) then [Movement(ledger[n].kind, ledger[n].userId, ledger[n].amount)] else []
  }

  function MovementsOf(lines: seq<LedgerLine>): seq<Movement> {
    seq(|lines|, i requires 0 <= i < |lines| => Movement(lines[i].kind, lines[i].userId, lines[i].amount))
  }

  /** The split of an order, for a given collaborator. */
  function Batch(order: Order, collaboratorId: Option<Id>, owner: Id): seq<Movement> {
    MovementsOf(ComputeLedgerLines(order.amounts.itemsTotal, order.amounts.deliveryFee, order.amounts.platformFee,
                                   collaboratorId, owner, true))
  }

  function AmountOf(): Movement -> int {
    (m: Movement) => m.amount
  }

  // ----- the ledger as a log

  lemma {:induction false} MovementsConcat(a: seq<LedgerEntry>, b: seq<LedgerEntry>, refType: RefType, refId: Id)
    ensures MovementsFor(a + b, refType, refId) == MovementsFor(a, refType, refId) + MovementsFor(b, refType, refId)
  {
    if b == [] {
      assert a + b == a;
    } else {
      var n := |b| - 1;
      assert (a + b)[..|a| + n] == a + b[..n];
      MovementsConcat(a, b[..n], refType, refId);
    }
  }

  lemma {:induction false} MovementsWritten(lines: seq<LedgerLine>, refType: RefType, refId: Id, storeId: Option<Id>,
                                            now: int, refType': RefType, refId': Id)
    ensures MovementsFor(EntriesOf(lines, refType, refId, storeId, now), refType', refId')
         == if refType' == refType && refId' == refId then MovementsOf(lines) else []
  {
    if lines != [] {
      var n := |lines| - 1;
      var entries := EntriesOf(lines, refType, refId, storeId, now);
      assert entries[..n] == EntriesOf(lines[..n], refType, refId, storeId, now);
      assert MovementsOf(lines) ==
        MovementsOf(lines[..n]) + [Movement(lines[n].kind, lines[n].userId, lines[n].amount)];
      MovementsWritten(lines[..n], refType, refId, storeId, now, refType', refId');
    }
  }

  predicate SameEntry(a: LedgerEntry, b: LedgerEntry) {
    b == a.(settled := b.settled)
  }

  /** Settling entries moves no money. */
  lemma {:induction false} MovementsIgnoreSettling(a: seq<LedgerEntry>, b: seq<LedgerEntry>, refType: RefType,
                                                   refId: Id)
    requires |a| == |b| && forall i :: 0 <= i < |a| ==> SameEntry(a[i], b[i])
    ensures MovementsFor(a, refType, refId) == MovementsFor(b, refType, refId)
  {
    if a != [] {
      var n := |a| - 1;
      assert SameEntry(a[n], b[n]);
      assert forall i :: 0 <= i < n ==> SameEntry(a[i], b[i]);
      MovementsIgnoreSettling(a[..n], b[..n], refType, refId);
    }
  }

  // ----- the invariant

  /** Unpaid: nothing. Paid: one split. The collaborator is in it for every cash order; a Wompi order
      approved before it was assigned has none. */
  predicate OrderBooked(order: Order, owner: Id, movements: seq<Movement>) {
    if order.paymentId.None? then movements == []
    else
      || movements == Batch(order, order.collaboratorId, owner)
      || (order.payBy == Wompi && movements == Batch(order, None, owner))
  }

  predicate ErrandBooked(errand: Errand, movements: seq<Movement>) {
    movements == if errand.status == ErrandStatus.Completed
                 then [Movement(Earning, errand.collaboratorId, errand.offeredFee)] else []
  }

  /** What the client owes is what was ordered plus the delivery. */
  predicate Priced(order: Order) {
    && order.amounts.itemsTotal == Sum(order.items, Orders.Subtotal())
    && order.amounts.discount == 0
    && order.amounts.total == order.amounts.itemsTotal + order.amounts.deliveryFee
  }

  /** Commissions are the platform fees of paid orders; only cash ones wait for a statement. */
  predicate GoodEntry(e: LedgerEntry, orders: seq<Order>, errands: seq<Errand>) {
    match e.refType
    case OrderRef =>
      && e.refId < |orders|
      && orders[e.refId].paymentId.Some?
      && e.storeId == Some(orders[e.refId].storeId)
      && (e.kind == Commission ==> e.userId == None && e.amount == orders[e.refId].amounts.platformFee)
      && (e.kind == Commission && !e.settled ==> orders[e.refId].payBy == Cash)
    case ErrandRef => e.refId < |errands| && e.storeId == None && e.kind == Earning
  }

  predicate SameCommission(a: LedgerEntry, b: LedgerEntry) {
    a.kind == Commission && b.kind == Commission && a.refId == b.refId
  }

  ghost predicate OrdersBooked(orders: seq<Order>, stores: seq<Store>, ledger: seq<LedgerEntry>) {
    forall o :: 0 <= o < |orders| ==>
      && orders[o].storeId < |stores|
      && Priced(orders[o])
      && OrderBooked(orders[o], stores[orders[o].storeId].ownerId, MovementsFor(ledger, OrderRef, o))
  }

  ghost predicate ErrandsBooked(errands: seq<Errand>, ledger: seq<LedgerEntry>) {
    forall e :: 0 <= e < |errands| ==> ErrandBooked(errands[e], MovementsFor(ledger, ErrandRef, e))
  }

  ghost predicate EntriesGood(ledger: seq<LedgerEntry>, orders: seq<Order>, errands: seq<Errand>) {
    && (forall i :: 0 <= i < |ledger| ==> GoodEntry(ledger[i], orders, errands))
    && (forall i, j :: 0 <= i < j < |ledger| ==> !SameCommission(ledger[i], ledger[j]))
  }

  ghost predicate Booked(orders: seq<Order>, stores: seq<Store>, errands: seq<Errand>, ledger: seq<LedgerEntry>) {
    OrdersBooked(orders, stores, ledger) && ErrandsBooked(errands, ledger) && EntriesGood(ledger, orders, errands)
  }

  // ----- what keeps it

  lemma {:induction false} NoMovementsBefore(ledger: seq<LedgerEntry>, refType: RefType, refId: Id)
    requires forall i :: 0 <= i < |ledger| ==> !About(ledger[i], refType, refId)
    ensures MovementsFor(ledger, refType, refId) == []
  {
    if ledger != [] {
      assert forall i :: 0 <= i < |ledger| - 1 ==> ledger[..|ledger| - 1][i] == ledger[i];
      NoMovementsBefore(ledger[..|ledger| - 1], refType, refId);
    }
  }

  lemma NewOrderBooked(orders: seq<Order>, stores: seq<Store>, errands: seq<Errand>, ledger: seq<LedgerEntry>,
                       order: Order)
    requires Booked(orders, stores, errands, ledger)
    requires order.paymentId.None? && order.storeId < |stores| && Priced(order)
    ensures Booked(orders + [order], stores, errands, ledger)
  {
    assert forall i :: 0 <= i < |ledger| ==> GoodEntry(ledger[i], orders, errands);
    NoMovementsBefore(ledger, OrderRef, |orders|);
  }

  lemma NewErrandBooked(orders: seq<Order>, stores: seq<Store>, errands: seq<Errand>, ledger: seq<LedgerEntry>,
                        errand: Errand)
    requires Booked(orders, stores, errands, ledger) && errand.status == ErrandStatus.Open
    ensures Booked(orders, stores, errands + [errand], ledger)
  {
    assert forall i :: 0 <= i < |ledger| ==> GoodEntry(ledger[i], orders, errands);
    NoMovementsBefore(ledger, ErrandRef, |errands|);
  }

  lemma ErrandUpdateBooked(orders: seq<Order>, stores: seq<Store>, errands: seq<Errand>, ledger: seq<LedgerEntry>,
                           e: Id, errand: Errand)
    requires Booked(orders, stores, errands, ledger) && e < |errands|
    requires errand.status != ErrandStatus.Completed && errands[e].status != ErrandStatus.Completed
    ensures Booked(orders, stores, errands[e := errand], ledger)
  {
    assert forall i :: 0 <= i < |ledger| ==> GoodEntry(ledger[i], orders, errands);
    assert ErrandBooked(errands[e], MovementsFor(ledger, ErrandRef, e));
  }

  /** The books are unmoved by a change of status, and by an assignment before cash has changed hands. */
  lemma OrderUpdateBooked(orders: seq<Order>, stores: seq<Store>, errands: seq<Errand>, ledger: seq<LedgerEntry>,
                          o: Id, order: Order)
    requires Booked(orders, stores, errands, ledger) && o < |orders|
    requires Accounts.SameMoney(orders[o], order) && order.items == orders[o].items
    requires order.collaboratorId == orders[o].collaboratorId
          || (orders[o].collaboratorId.None? && (order.payBy == Wompi || order.paymentId.None?))
    ensures Booked(orders[o := order], stores, errands, ledger)
  {
    var orders' := orders[o := order];
    assert forall i :: 0 <= i < |ledger| ==> GoodEntry(ledger[i], orders, errands);
    assert OrderBooked(orders[o], stores[orders[o].storeId].ownerId, MovementsFor(ledger, OrderRef, o));
    assert OrderBooked(order, stores[order.storeId].ownerId, MovementsFor(ledger, OrderRef, o));
    assert Priced(orders[o]);
  }

  /** The split written for an order that had none. */
  lemma OrderPaidBooked(orders: seq<Order>, stores: seq<Store>, errands: seq<Errand>, ledger: seq<LedgerEntry>, o: Id,
                        order: Order, settled: bool, now: int)
    requires Booked(orders, stores, errands, ledger) && o < |orders| && orders[o].paymentId.None?
    requires Accounts.SameMoney(orders[o], order.(paymentId := None)) && order.items == orders[o].items
    requires order.paymentId.Some? && (settled || order.payBy == Cash)
    ensures order.storeId < |stores|
    ensures Booked(orders[o := order], stores, errands,
                   ledger + EntriesOf(OrderLines(order, stores[order.storeId], settled), OrderRef, o,
                     Some(order.storeId), now))
    ensures
      var lines := OrderLines(order, stores[order.storeId], settled);
      var ledger' := ledger + EntriesOf(lines, OrderRef, o, Some(order.storeId), now);
      && MovementsFor(ledger', OrderRef, o) == Batch(order, order.collaboratorId, stores[order.storeId].ownerId)
      && forall refType, refId: Id :: refType == ErrandRef || refId != o ==>
           MovementsFor(ledger', refType, refId) == MovementsFor(ledger, refType, refId)
  {
    assert Priced(orders[o])
      && OrderBooked(orders[o], stores[orders[o].storeId].ownerId, MovementsFor(ledger, OrderRef, o));
    var store := stores[order.storeId];
    var lines := OrderLines(order, store, settled);
    var entries := EntriesOf(lines, OrderRef, o, Some(order.storeId), now);
    var orders', ledger' := orders[o := order], ledger + entries;
    assert MovementsOf(lines) == Batch(order, order.collaboratorId, store.ownerId);
    forall refType, refId: Id
      ensures MovementsFor(ledger', refType, refId) ==
        if refType == OrderRef && refId == o then MovementsOf(lines) else MovementsFor(ledger, refType, refId)
    {
      MovementsConcat(ledger, entries, refType, refId);
      MovementsWritten(lines, OrderRef, o, Some(order.storeId), now, refType, refId);
    }
    assert OrdersBooked(orders', stores, ledger') by {
      forall i | 0 <= i < |orders'|
        ensures orders'[i].storeId < |stores| && Priced(orders'[i])
          && OrderBooked(orders'[i], stores[orders'[i].storeId].ownerId, MovementsFor(ledger', OrderRef, i))
      {
        assert Priced(orders[i])
          && OrderBooked(orders[i], stores[orders[i].storeId].ownerId, MovementsFor(ledger, OrderRef, i));
      }
    }
    assert ErrandsBooked(errands, ledger');
    SplitEntriesGood(orders, errands, ledger, o, order, store, settled, now);
  }

  lemma SplitEntriesGood(orders: seq<Order>, errands: seq<Errand>, ledger: seq<LedgerEntry>, o: Id,
                         order: Order, store: Store, settled: bool, now: int)
    requires EntriesGood(ledger, orders, errands) && o < |orders| && orders[o].paymentId.None?
    requires Accounts.SameMoney(orders[o], order.(paymentId := None))
    requires order.paymentId.Some? && (settled || order.payBy == Cash)
    ensures EntriesGood(ledger + EntriesOf(OrderLines(order, store, settled), OrderRef, o, Some(order.storeId), now),
                        orders[o := order], errands)
  {
    var entries := EntriesOf(OrderLines(order, store, settled), OrderRef, o, Some(order.storeId), now);
    var ledger', orders' := ledger + entries, orders[o := order];
    forall i | 0 <= i < |ledger'| ensures GoodEntry(ledger'[i], orders', errands) {
      if i < |ledger| { assert GoodEntry(ledger[i], orders, errands); }
    }
    forall i, j | 0 <= i < j < |ledger'| ensures !SameCommission(ledger'[i], ledger'[j]) {
      if i < |ledger| {
        assert GoodEntry(ledger[i], orders, errands);
        if j < |ledger| { assert !SameCommission(ledger[i], ledger[j]); }
      }
    }
  }

  lemma ErrandPaidBooked(orders: seq<Order>, stores: seq<Store>, errands: seq<Errand>, ledger: seq<LedgerEntry>, e: Id,
                         errand: Errand, now: int)
    requires Booked(orders, stores, errands, ledger) && e < |errands| && errands[e].status != ErrandStatus.Completed
    requires errand.status == ErrandStatus.Completed && errand.collaboratorId.Some? && errand.offeredFee > 0
    ensures Booked(orders, stores, errands[e := errand],
                   ledger + EntriesOf(ErrandLines(errand.collaboratorId, errand.offeredFee), ErrandRef, e, None, now))
  {
    var lines := ErrandLines(errand.collaboratorId, errand.offeredFee);
    var entries := EntriesOf(lines, ErrandRef, e, None, now);
    var errands', ledger' := errands[e := errand], ledger + entries;
    assert OrdersBooked(orders, stores, ledger') by {
      forall i | 0 <= i < |orders| ensures MovementsFor(ledger', OrderRef, i) == MovementsFor(ledger, OrderRef, i) {
        MovementsConcat(ledger, entries, OrderRef, i);
        MovementsWritten(lines, ErrandRef, e, None, now, OrderRef, i);
      }
    }
    assert ErrandsBooked(errands', ledger') by {
      forall i | 0 <= i < |errands'| ensures ErrandBooked(errands'[i], MovementsFor(ledger', ErrandRef, i)) {
        assert ErrandBooked(errands[i], MovementsFor(ledger, ErrandRef, i));
        MovementsConcat(ledger, entries, ErrandRef, i);
        MovementsWritten(lines, ErrandRef, e, None, now, ErrandRef, i);
      }
    }
    forall i | 0 <= i < |ledger'| ensures GoodEntry(ledger'[i], orders, errands') {
      if i < |ledger| { assert GoodEntry(ledger[i], orders, errands); }
    }
  }

  lemma SettlingBooked(orders: seq<Order>, stores: seq<Store>, errands: seq<Errand>, ledger: seq<LedgerEntry>,
                       q: Settlements.Query)
    requires Booked(orders, stores, errands, ledger)
    ensures Booked(orders, stores, errands, Settlements.MarkSettled(ledger, q))
    ensures forall refType, refId: Id ::
      MovementsFor(Settlements.MarkSettled(ledger, q), refType, refId) == MovementsFor(ledger, refType, refId)
  {
    var ledger' := Settlements.MarkSettled(ledger, q);
    assert forall i :: 0 <= i < |ledger| ==> SameEntry(ledger[i], ledger'[i]);
    forall refType, refId: Id ensures MovementsFor(ledger', refType, refId) == MovementsFor(ledger, refType, refId) {
      MovementsIgnoreSettling(ledger, ledger', refType, refId);
    }
    forall i | 0 <= i < |ledger'| ensures GoodEntry(ledger'[i], orders, errands) {
      assert GoodEntry(ledger[i], orders, errands);
    }
    forall i, j | 0 <= i < j < |ledger'| ensures !SameCommission(ledger'[i], ledger'[j]) {
      assert !SameCommission(ledger[i], ledger[j]);
    }
  }

  ghost predicate InBooks(s: State) {
    Booked(s.orders, s.stores, s.errands, s.ledger)
  }

  ghost predicate Valid(s: State) {
    Accounts.Valid(s) && InBooks(s)
  }

  lemma CreateOrderBooked(s: State, c: Call)
    requires Valid(s) && c.CreateOrder? && Try(s, c).Success?
    ensures InBooks(Step(s, c))
  {
    NewOrderBooked(s.orders, s.stores, s.errands, s.ledger, Step(s, c).orders[|s.orders|]);
  }

  lemma AdvanceDeliveryBooked(s: State, user: User, d: Id, status: DeliveryStatus, now: int)
    requires Valid(s) && Deliveries.AdvanceStatus(s, user, d, status, now).Success?
    ensures InBooks(Deliveries.AdvanceStatus(s, user, d, status, now).value)
  {
    var o, order := Accounts.AdvanceDeliveryMoney(s, user, d, status, now);
    if order.paymentId == s.orders[o].paymentId {
      OrderUpdateBooked(s.orders, s.stores, s.errands, s.ledger, o, order);
    } else {
      OrderPaidBooked(s.orders, s.stores, s.errands, s.ledger, o, order, false, now);
    }
  }

  lemma WebhookBooked(s: State, reference: Id, tx: string, status: string, signed: bool, now: int)
    requires Valid(s) && HandleWebhook(s, reference, tx, status, signed, now).Success?
    ensures InBooks(HandleWebhook(s, reference, tx, status, signed, now).value)
  {
    if HandleWebhook(s, reference, tx, status, signed, now).value != s {
      var k := Accounts.WebhookMoney(s, reference, tx, status, signed, now);
      if status == APPROVED {
        OrderPaidBooked(s.orders, s.stores, s.errands, s.ledger, reference,
                        s.orders[reference].(paymentId := Some(k)), true, now);
      }
    }
  }

  lemma ErrandCallBooked(s: State, c: Call)
    requires Valid(s) && WellFormed(c) && IsErrandCall(c) && Try(s, c).Success?
    ensures InBooks(Step(s, c))
  {
    if c.CreateErrand? {
      NewErrandBooked(s.orders, s.stores, s.errands, s.ledger, Step(s, c).errands[|s.errands|]);
    } else if c.AdvanceErrand? && c.errandStatus == ErrandStatus.Completed {
      var errand := Accounts.CompleteErrandMoney(s, c.user, c.errandId, c.now);
      ErrandPaidBooked(s.orders, s.stores, s.errands, s.ledger, c.errandId, errand, c.now);
    } else {
      ErrandUpdateBooked(s.orders, s.stores, s.errands, s.ledger, c.errandId, Step(s, c).errands[c.errandId]);
    }
  }

  lemma OrderCallBooked(s: State, c: Call)
    requires Valid(s) && Try(s, c).Success? && (IsOrderMove(c) || c.AssignOrder?)
    ensures InBooks(Step(s, c))
  {
    var o := c.orderId;
    assert Accounts.CashOnDelivery(s.orders[o]);
    OrderUpdateBooked(s.orders, s.stores, s.errands, s.ledger, o, Step(s, c).orders[o]);
  }

  /** Stores may change, but not their owners. */
  lemma StoresBooked(orders: seq<Order>, stores: seq<Store>, stores': seq<Store>, errands: seq<Errand>,
                     ledger: seq<LedgerEntry>)
    requires Booked(orders, stores, errands, ledger) && |stores| <= |stores'|
    requires forall i :: 0 <= i < |stores| ==> stores'[i].ownerId == stores[i].ownerId
    ensures Booked(orders, stores', errands, ledger)
  {
    forall o | 0 <= o < |orders|
      ensures orders[o].storeId < |stores'| && Priced(orders[o])
        && OrderBooked(orders[o], stores'[orders[o].storeId].ownerId, MovementsFor(ledger, OrderRef, o))
    {
      assert Priced(orders[o])
        && OrderBooked(orders[o], stores[orders[o].storeId].ownerId, MovementsFor(ledger, OrderRef, o));
    }
  }

  lemma StatementBooked(s: State, q: Settlements.Query)
    requires InBooks(s)
    ensures InBooks(Settlements.GenerateSettlement(s, q))
  {
    SettlingBooked(s.orders, s.stores, s.errands, s.ledger, q);
  }

  lemma AsideBooked(s: State, c: Call)
    requires Valid(s) && Accounts.Aside(c)
    ensures InBooks(Step(s, c))
  {
    if c.GenerateSettlement? {
      StatementBooked(s, c.query);
    } else {
      OrdersFrame(s, c);
      Accounts.AsideFrame(s, c);
      StoresBooked(s.orders, s.stores, Step(s, c).stores, s.errands, s.ledger);
    }
  }

  lemma StepKeepsBooks(s: State, c: Call)
    requires Valid(s) && WellFormed(c) && Try(s, c).Success?
    ensures InBooks(Step(s, c))
  {
    if Accounts.Aside(c) { AsideBooked(s, c); }
    else if IsErrandCall(c) { ErrandCallBooked(s, c); }
    else if c.CreateOrder? { CreateOrderBooked(s, c); }
    else if c.AdvanceDelivery? { AdvanceDeliveryBooked(s, c.user, c.deliveryId, c.deliveryStatus, c.now); }
    else if c.CreateIntent? { IntentFrame(s, c); }
    else if c.Webhook? { WebhookBooked(s, c.reference, c.transactionId, c.wompiStatus, c.signed, c.now); }
    else { OrderCallBooked(s, c); }
  }

  lemma StepKeepsValid(s: State, c: Call)
    requires Valid(s) && WellFormed(c)
    ensures Valid(Step(s, c))
  {
    Accounts.StepKeepsValid(s, c);
    if Try(s, c).Success? {
      StepKeepsBooks(s, c);
    }
  }

  lemma {:induction false} RunKeepsValid(s: State, calls: seq<Call>)
    requires Valid(s) && AllWellFormed(calls)
    ensures Valid(Run(s, calls))
  {
    if calls != [] {
      var front := calls[..|calls| - 1];
      assert forall i :: 0 <= i < |front| ==> front[i] == calls[i];
      RunKeepsValid(s, front);
      StepKeepsValid(Run(s, front), calls[|calls| - 1]);
    }
  }
}
