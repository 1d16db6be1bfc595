/** When money is booked, and which statements it falls into. */
module Periods {
  import opened Wrappers
  import opened Documents
  import opened Sequences
  import opened Platform
  import opened Frames
  import opened Payments
  import Deliveries
  import Errands
  import Settlements
  import Lifecycle
  import Accounts
  import Books
  import Revenue
  import Evolution

  // ----- what is written, entry by entry

  /** The entries of a paid order: the collaborator's, already settled; then the platform's and the
      seller's, which wait for a statement when the seller holds the cash. */
  function Written(order: Order, o: Id, owner: Id, settled: bool, now: int): seq<LedgerEntry> {
    var store := Some(order.storeId);
    var fee := order.amounts.platformFee;
    (if order.collaboratorId.Some? && order.amounts.deliveryFee > 0
     then [LedgerEntry(order.collaboratorId, Earning, order.amounts.deliveryFee, OrderRef, o, store, true, now)]
     else [])
    + [LedgerEntry(None, Commission, fee, OrderRef, o, store, settled, now)]
    + [LedgerEntry(Some(owner), Earning, order.amounts.itemsTotal - fee, OrderRef, o, store, settled, now)]
  }

  lemma SplitIsWritten(order: Order, store: Store, settled: bool, o: Id, now: int)
    ensures EntriesOf(OrderLines(order, store, settled), OrderRef, o, Some(order.storeId), now)
         == Written(order, o, store.ownerId, settled, now)
  {
  }

  /** A delivery step writes the entries of a cash order that arrives, dated now, and nothing else. */
  lemma DeliveryWrites(s: State, user: User, d: Id, status: DeliveryStatus, now: int)
    requires Accounts.Valid(s) && Deliveries.AdvanceStatus(s, user, d, status, now).Success?
    ensures d < |s.deliveries| && s.deliveries[d].refId < |s.orders|
    ensures var o := s.deliveries[d].refId; s.orders[o].storeId < |s.stores|
    ensures var s', o := Deliveries.AdvanceStatus(s, user, d, status, now).value, s.deliveries[d].refId;
      var order := s.orders[o];
      s'.ledger == s.ledger +
        if status == DeliveryStatus.Delivered && order.payBy == Cash
        then Written(order, o, s.stores[order.storeId].ownerId, false, now) else []
  {
    var o, order := Accounts.AdvanceDeliveryMoney(s, user, d, status, now);
    SplitIsWritten(order, s.stores[order.storeId], false, o, now);
    assert s.ledger + [] == s.ledger;
  }

  /** A webhook writes the entries of the order it approves, all settled and dated now, and nothing else. */
  lemma WebhookWrites(s: State, reference: Id, tx: string, status: string, signed: bool, now: int)
    requires Accounts.Valid(s) && HandleWebhook(s, reference, tx, status, signed, now).Success?
    ensures reference < |s.orders| && s.orders[reference].storeId < |s.stores|
    ensures var s', order := HandleWebhook(s, reference, tx, status, signed, now).value, s.orders[reference];
      s'.ledger == s.ledger +
        if status == "APPROVED" && order.paymentId.None?
        then Written(order, reference, s.stores[order.storeId].ownerId, true, now) else []
  {
    Accounts.ReferenceIsFound(s.orders, s.errands, s.payments, reference);
    var p := PaymentByReference(s.payments, reference).value;
    assert Accounts.GoodPayment(s.payments[p], p, s.orders, s.errands);
    assert Lifecycle.GoodHistory(s.orders[reference]);
    if HandleWebhook(s, reference, tx, status, signed, now).value != s {
      var k := Accounts.WebhookMoney(s, reference, tx, status, signed, now);
      var order := s.orders[reference].(paymentId := Some(k));
      SplitIsWritten(order, s.stores[order.storeId], true, reference, now);
    }
    assert s.ledger + [] == s.ledger;
  }

  /** Completing an errand writes its collaborator's earning, dated now; no other step writes anything. */
  lemma ErrandWrites(s: State, user: User, e: Id, status: ErrandStatus, now: int)
    requires Accounts.Valid(s) && Errands.AdvanceStatus(s, user, e, status, now).Success?
    ensures e < |s.errands|
    ensures var s', errand := Errands.AdvanceStatus(s, user, e, status, now).value, s.errands[e];
      s'.ledger == s.ledger +
        if status == ErrandStatus.Completed
        then [LedgerEntry(errand.collaboratorId, Earning, errand.offeredFee, ErrandRef, e, None, true, now)] else []
  {
    if status == ErrandStatus.Completed {
      var errand := Accounts.CompleteErrandMoney(s, user, e, now);
    }
    assert s.ledger + [] == s.ledger;
  }

  // ----- every call: appended and dated, or flipped

  /** All entries of `b` after those of `a` are dated now. */
  predicate Appends(a: seq<LedgerEntry>, b: seq<LedgerEntry>, now: int) {
    a <= b && forall i :: |a| <= i < |b| ==> b[i].createdAt == now
  }

  /** The calls that may write to the ledger, and when they do. */
  function TimeOf(c: Call): Option<int> {
    match c
    case AdvanceDelivery(_, _, _, now) => Some(now)
    case Webhook(_, _, _, _, now) => Some(now)
    case AdvanceErrand(_, _, _, now) => Some(now)
    case _ => None
  }

  lemma QuietCallWritesNothing(s: State, c: Call)
    requires TimeOf(c).None? && !c.GenerateSettlement?
    ensures Step(s, c).ledger == s.ledger
  {
    if IsOrderCall(c) {}
    else if IsErrandCall(c) {}
    else if c.CreateIntent? { IntentFrame(s, c); }
    else { Accounts.AsideFrame(s, c); }
  }

  lemma DeliveryDates(s: State, user: User, d: Id, status: DeliveryStatus, now: int)
    requires Accounts.Valid(s) && Deliveries.AdvanceStatus(s, user, d, status, now).Success?
    ensures Appends(s.ledger, Deliveries.AdvanceStatus(s, user, d, status, now).value.ledger, now)
  {
    DeliveryWrites(s, user, d, status, now);
  }

  lemma WebhookDates(s: State, reference: Id, tx: string, status: string, signed: bool, now: int)
    requires Accounts.Valid(s) && HandleWebhook(s, reference, tx, status, signed, now).Success?
    ensures Appends(s.ledger, HandleWebhook(s, reference, tx, status, signed, now).value.ledger, now)
  {
    WebhookWrites(s, reference, tx, status, signed, now);
  }

  lemma ErrandDates(s: State, user: User, e: Id, status: ErrandStatus, now: int)
    requires Accounts.Valid(s) && Errands.AdvanceStatus(s, user, e, status, now).Success?
    ensures Appends(s.ledger, Errands.AdvanceStatus(s, user, e, status, now).value.ledger, now)
  {
    ErrandWrites(s, user, e, status, now);
  }

  /** Every entry any call adds carries the time of that call; no other entry is touched. */
  lemma EntriesAreDated(s: State, c: Call)
    requires Accounts.Valid(s) && !c.GenerateSettlement?
    ensures TimeOf(c).Some? ==> Appends(s.ledger, Step(s, c).ledger, TimeOf(c).value)
    ensures TimeOf(c).None? ==> Step(s, c).ledger == s.ledger
  {
    if Try(s, c).Failure? {
    } else {
      match c
      case AdvanceDelivery(user, d, status, now) => DeliveryDates(s, user, d, status, now);
      case Webhook(reference, tx, status, signed, now) => WebhookDates(s, reference, tx, status, signed, now);
      case AdvanceErrand(user, e, status, now) => ErrandDates(s, user, e, status, now);
      case _ => QuietCallWritesNothing(s, c);
    }
  }

  /** A commission of the store written within the period, both ends included. */
  predicate Covers(q: Settlements.Query, e: LedgerEntry) {
    e.kind == Commission && e.storeId == Some(q.storeId) && q.start <= e.createdAt <= q.end
  }

  lemma SettlesCovered(s: State, q: Settlements.Query)
    ensures var ledger := Settlements.GenerateSettlement(s, q).ledger;
      && |ledger| == |s.ledger|
      && forall i :: 0 <= i < |ledger| ==>
           ledger[i] == s.ledger[i].(settled := s.ledger[i].settled || Covers(q, s.ledger[i]))
  {
  }

  predicate CoveredBy(calls: seq<Call>, e: LedgerEntry) {
    exists j :: 0 <= j < |calls| && calls[j].GenerateSettlement? && Covers(calls[j].query, e)
  }

  lemma CoveredByLast(calls: seq<Call>, e: LedgerEntry)
    requires calls != []
    ensures var n := |calls| - 1;
      CoveredBy(calls, e) <==> CoveredBy(calls[..n], e) || (calls[n].GenerateSettlement? && Covers(calls[n].query, e))
  {
    var n := |calls| - 1;
    if CoveredBy(calls[..n], e) {
      var j :| 0 <= j < n && calls[..n][j].GenerateSettlement? && Covers(calls[..n][j].query, e);
      assert calls[j] == calls[..n][j];
    }
    if CoveredBy(calls, e) {
      var j :| 0 <= j < |calls| && calls[j].GenerateSettlement? && Covers(calls[j].query, e);
      assert j < n ==> calls[..n][j] == calls[j];
    }
  }

  lemma StepSettles(s: State, c: Call, i: nat)
    requires Accounts.Valid(s) && i < |s.ledger|
    ensures i < |Step(s, c).ledger|
    ensures Step(s, c).ledger[i] ==
      s.ledger[i].(settled := s.ledger[i].settled || (c.GenerateSettlement? && Covers(c.query, s.ledger[i])))
  {
    if c.GenerateSettlement? {
      SettlesCovered(s, c.query);
    } else {
      EntriesAreDated(s, c);
    }
  }

  /** Over any run an entry stays as it was written, and is settled exactly if it was, or if some
      statement of its store had a period around the time it was written. */
  lemma {:induction false} SettledIffCovered(s: State, calls: seq<Call>, i: nat)
    requires Accounts.Valid(s) && AllWellFormed(calls) && i < |s.ledger|
    ensures i < |Run(s, calls).ledger|
    ensures Run(s, calls).ledger[i] ==
      s.ledger[i].(settled := s.ledger[i].settled || CoveredBy(calls, s.ledger[i]))
  {
    if calls != [] {
      var n := |calls| - 1;
      var front := calls[..n];
      assert forall j :: 0 <= j < n ==> front[j] == calls[j];
      SettledIffCovered(s, front, i);
      Accounts.RunKeepsValid(s, front);
      CoveredByLast(calls, s.ledger[i]);
      StepSettles(Run(s, front), calls[n], i);
    }
  }

  /** Where a cash order's commission stands after its delivery. */
  function CommissionAt(s: State, o: Id): nat
    requires o < |s.orders|
  {
    |s.ledger| + if s.orders[o].collaboratorId.Some? && s.orders[o].amounts.deliveryFee > 0 then 1 else 0
  }

  lemma CommissionIsWritten(s: State, user: User, d: Id, now: int)
    requires Accounts.Valid(s)
    requires Deliveries.AdvanceStatus(s, user, d, DeliveryStatus.Delivered, now).Success?
    requires d < |s.deliveries| && s.deliveries[d].refId < |s.orders| && s.orders[s.deliveries[d].refId].payBy == Cash
    ensures
      var o, s' := s.deliveries[d].refId, Deliveries.AdvanceStatus(s, user, d, DeliveryStatus.Delivered, now).value;
      var order := s.orders[o];
      && Accounts.Valid(s') && CommissionAt(s, o) < |s'.ledger|
      && s'.ledger[CommissionAt(s, o)] ==
           LedgerEntry(None, Commission, order.amounts.platformFee, OrderRef, o, Some(order.storeId), false, now)
  {
    var c := AdvanceDelivery(user, d, DeliveryStatus.Delivered, now);
    assert Step(s, c) == Deliveries.AdvanceStatus(s, user, d, DeliveryStatus.Delivered, now).value;
    Accounts.StepKeepsValid(s, c);
    DeliveryWrites(s, user, d, DeliveryStatus.Delivered, now);
  }

  /** A cash order delivered at a time: its commission is captured by exactly the first statement, of its
      store and with a period around that time, that any run produces; until then it waits. */
  lemma CommissionFallsInItsPeriod(s: State, user: User, d: Id, now: int, calls: seq<Call>, q: Settlements.Query)
    requires Accounts.Valid(s) && AllWellFormed(calls)
    requires Deliveries.AdvanceStatus(s, user, d, DeliveryStatus.Delivered, now).Success?
    requires d < |s.deliveries| && s.deliveries[d].refId < |s.orders| && s.orders[s.deliveries[d].refId].payBy == Cash
    ensures
      var o, s1 := s.deliveries[d].refId, Deliveries.AdvanceStatus(s, user, d, DeliveryStatus.Delivered, now).value;
      var i, s' := CommissionAt(s, o), Run(s1, calls);
      && i < |s'.ledger|
      && s'.ledger[i].refType == OrderRef && s'.ledger[i].refId == o
      && s'.ledger[i].kind == Commission && s'.ledger[i].amount == s.orders[o].amounts.platformFee
      && (i in Settlements.Captured(s'.ledger, q) <==>
           q.storeId == s.orders[o].storeId && q.start <= now <= q.end && !CoveredBy(calls, s'.ledger[i]))
  {
    var o, s1 := s.deliveries[d].refId, Deliveries.AdvanceStatus(s, user, d, DeliveryStatus.Delivered, now).value;
    CommissionIsWritten(s, user, d, now);
    SettledIffCovered(s1, calls, CommissionAt(s, o));
    CoverIgnoresSettled(calls, s1.ledger[CommissionAt(s, o)], true);
  }

  lemma CoverIgnoresSettled(calls: seq<Call>, e: LedgerEntry, settled: bool)
    ensures CoveredBy(calls, e.(settled := settled)) <==> CoveredBy(calls, e)
  {
    assert forall q: Settlements.Query :: Covers(q, e.(settled := settled)) <==> Covers(q, e);
  }

  // ----- statements

  predicate Flipped(a: seq<LedgerEntry>, b: seq<LedgerEntry>, i: nat) {
    i < |a| && i < |b| && !a[i].settled && b[i].settled
  }

  /** The amounts of the entries that became settled. */
  function FlippedTotal(a: seq<LedgerEntry>, b: seq<LedgerEntry>): int
    requires |a| == |b|
  {
    if a == [] then 0
    else
      var n := |a| - 1;
      FlippedTotal(a[..n], b[..n]) + if Flipped(a, b, n) then a[n].amount else 0
  }

  /** The documents of the entries that became settled. */
  function FlippedRefs(a: seq<LedgerEntry>, b: seq<LedgerEntry>): set<Id> {
    set i | 0 <= i < |a| && Flipped(a, b, i) :: a[i].refId
  }

  lemma {:induction false} CapturedIsFlipped(ledger: seq<LedgerEntry>, q: Settlements.Query)
    ensures var entries := Settlements.EntriesAt(ledger, Settlements.Captured(ledger, q));
      Sum(entries, Settlements.AmountOf()) == FlippedTotal(ledger, Settlements.MarkSettled(ledger, q))
  {
    if ledger != [] {
      var n := |ledger| - 1;
      CapturedIsFlipped(ledger[..n], q);
      assert Settlements.MarkSettled(ledger, q)[..n] == Settlements.MarkSettled(ledger[..n], q);
      Revenue.CapturedSnoc(ledger, q);
      var earlier := Settlements.EntriesAt(ledger[..n], Settlements.Captured(ledger[..n], q));
      SumSnoc(earlier, ledger[n], Settlements.AmountOf());
    }
  }

  lemma CapturedRefsAreFlipped(ledger: seq<LedgerEntry>, q: Settlements.Query)
    ensures var entries := Settlements.EntriesAt(ledger, Settlements.Captured(ledger, q));
      (set e | e in entries :: e.refId) == FlippedRefs(ledger, Settlements.MarkSettled(ledger, q))
  {
    var ids := Settlements.Captured(ledger, q);
    var entries, after := Settlements.EntriesAt(ledger, ids), Settlements.MarkSettled(ledger, q);
    forall e | e in entries ensures e.refId in FlippedRefs(ledger, after) {
      var k :| 0 <= k < |entries| && entries[k] == e;
      assert ids[k] in ids;
      assert Flipped(ledger, after, ids[k]);
    }
    forall i | 0 <= i < |ledger| && Flipped(ledger, after, i) ensures ledger[i] in entries {
      assert i in ids;
      var k :| 0 <= k < |ids| && ids[k] == i;
      assert entries[k] == ledger[i];
    }
  }

  /** One statement is added, due, of the store and period asked for; it totals exactly the entries the
      call settled, and counts their documents. Nothing else changes. */
  lemma StatementEffect(s: State, q: Settlements.Query)
    ensures var s' := Settlements.GenerateSettlement(s, q);
      && |s'.settlements| == |s.settlements| + 1 && |s'.ledger| == |s.ledger|
      && s' == s.(settlements := s.settlements + [s'.settlements[|s.settlements|]], ledger := s'.ledger)
      && var t := s'.settlements[|s.settlements|];
      && t.storeId == q.storeId && t.periodStart == q.start && t.periodEnd == q.end && t.status == Due
      && t.commissionTotal == FlippedTotal(s.ledger, s'.ledger)
      && t.ordersCount == |FlippedRefs(s.ledger, s'.ledger)|
      && forall i :: 0 <= i < |s.ledger| ==>
           (Flipped(s.ledger, s'.ledger, i) <==> !s.ledger[i].settled && Covers(q, s.ledger[i]))
  {
    CapturedIsFlipped(s.ledger, q);
    CapturedRefsAreFlipped(s.ledger, q);
  }

  /** A statement is marked paid exactly if it exists; it is then paid, and nothing else changes. */
  lemma MarkPaidIff(s: State, id: Id)
    ensures var r := Settlements.MarkPaid(s, id);
      && (r.Success? <==> id < |s.settlements|)
      && (r.Failure? ==> r.error == NotFound)
      && (r.Success? ==> r.value == s.(settlements := s.settlements[id := s.settlements[id].(status := Paid)]))
  {
  }
}
