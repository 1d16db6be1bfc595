/** Commissions from three sides: the ledger, the orders, and the statements sent to sellers. */
module Revenue {
  import opened Wrappers
  import opened Documents
  import opened Sequences
  import opened Platform
  import opened Frames
  import opened PaymentLogic
  import opened Payments
  import Settlements
  import Orders
  import Deliveries
  import Accounts
  import Books
  import Evolution

  /** One store, or the whole platform. */
  datatype Scope = Everywhere | OneStore(storeId: Id) {
    predicate Covers(id: Id) {
      Everywhere? || storeId == id
    }

    predicate CoversEntry(e: LedgerEntry) {
      Everywhere? || e.storeId == Some(storeId)
    }
  }

  /** `{"type": COMMISSION}` of the admin metrics: every commission, settled or not. */
  function CommissionOf(scope: Scope): LedgerEntry -> int {
    (e: LedgerEntry) => if e.kind == Commission && scope.CoversEntry(e) then e.amount else 0
  }

  function UnsettledOf(scope: Scope): LedgerEntry -> int {
    (e: LedgerEntry) => if e.kind == Commission && !e.settled && scope.CoversEntry(e) then e.amount else 0
  }

  function UnsettledOne(scope: Scope): LedgerEntry -> int {
    (e: LedgerEntry) => if e.kind == Commission && !e.settled && scope.CoversEntry(e) then 1 else 0
  }

  function StatementOf(scope: Scope): Settlement -> int {
    (t: Settlement) => if scope.Covers(t.storeId) then t.commissionTotal else 0
  }

  function StatementOrdersOf(scope: Scope): Settlement -> int {
    (t: Settlement) => if scope.Covers(t.storeId) then t.ordersCount else 0
  }

  /** The platform fee of a paid order. */
  function FeeOf(scope: Scope, payBy: PaymentMethod): Order -> int {
    (o: Order) => if o.paymentId.Some? && o.payBy == payBy && scope.Covers(o.storeId) then o.amounts.platformFee else 0
  }

  function PaidOne(scope: Scope): Order -> int {
    (o: Order) => if o.paymentId.Some? && o.payBy == Cash && scope.Covers(o.storeId) then 1 else 0
  }

  /** `platform_revenue` of the admin metrics. */
  function PlatformRevenue(s: State): int {
    Sum(s.ledger, CommissionOf(Everywhere))
  }

  /** All commissions are fees of paid orders; the cash ones are on statements or still unsettled,
      and so are the orders they came from. */
  predicate BalancedFor(s: State, scope: Scope) {
    && Sum(s.ledger, CommissionOf(scope)) == Sum(s.orders, FeeOf(scope, Cash)) + Sum(s.orders, FeeOf(scope, Wompi))
    && Sum(s.settlements, StatementOf(scope)) + Sum(s.ledger, UnsettledOf(scope)) == Sum(s.orders, FeeOf(scope, Cash))
    && Sum(s.settlements, StatementOrdersOf(scope)) + Sum(s.ledger, UnsettledOne(scope)) ==
      Sum(s.orders, PaidOne(scope))
  }

  ghost predicate Balanced(s: State) {
    forall scope: Scope :: BalancedFor(s, scope)
  }

  ghost predicate Valid(s: State) {
    Books.Valid(s) && Balanced(s)
  }

  // ----- orders and ledger move together

  /** The sums over orders only notice an order becoming paid. */
  lemma OrderUpdateSums(orders: seq<Order>, o: Id, order: Order, scope: Scope)
    requires o < |orders| && Accounts.SameMoney(orders[o], order.(paymentId := orders[o].paymentId))
    requires orders[o].paymentId.Some? ==> order.paymentId.Some?
    ensures var newly := orders[o].paymentId.None? && order.paymentId.Some? && scope.Covers(order.storeId);
      && Sum(orders[o := order], FeeOf(scope, Cash)) ==
         Sum(orders, FeeOf(scope, Cash)) + (if newly && order.payBy == Cash then order.amounts.platformFee else 0)
      && Sum(orders[o := order], FeeOf(scope, Wompi)) ==
         Sum(orders, FeeOf(scope, Wompi)) + (if newly && order.payBy == Wompi then order.amounts.platformFee else 0)
      && Sum(orders[o := order], PaidOne(scope)) ==
         Sum(orders, PaidOne(scope)) + (if newly && order.payBy == Cash then 1 else 0)
  {
    SumUpdate(orders, o, order, FeeOf(scope, Cash));
    SumUpdate(orders, o, order, FeeOf(scope, Wompi));
    SumUpdate(orders, o, order, PaidOne(scope));
  }

  /** A split adds its one commission, and adds it to the unsettled ones only when it is not settled. */
  lemma SplitSums(ledger: seq<LedgerEntry>, order: Order, store: Store, settled: bool, o: Id, now: int, scope: Scope)
    ensures var ledger' := ledger + EntriesOf(OrderLines(order, store, settled), OrderRef, o, Some(order.storeId), now);
      var covered := scope.Covers(order.storeId);
      && Sum(ledger', CommissionOf(scope)) ==
        Sum(ledger, CommissionOf(scope)) + (if covered then order.amounts.platformFee else 0)
      && Sum(ledger', UnsettledOf(scope)) ==
         Sum(ledger, UnsettledOf(scope)) + (if covered && !settled then order.amounts.platformFee else 0)
      && Sum(ledger', UnsettledOne(scope)) == Sum(ledger, UnsettledOne(scope)) + (if covered && !settled then 1 else 0)
  {
    var lines := OrderLines(order, store, settled);
    var entries := EntriesOf(lines, OrderRef, o, Some(order.storeId), now);
    var n := |lines|;
    var commission, seller := entries[n - 2], entries[n - 1];
    assert entries == entries[..n - 2] + [commission] + [seller];
    forall f: LedgerEntry -> int | f in {CommissionOf(scope), UnsettledOf(scope), UnsettledOne(scope)}
      ensures Sum(ledger + entries, f) == Sum(ledger, f) + f(commission)
    {
      SumConcat(ledger, entries, f);
      SumSnoc(entries[..n - 2] + [commission], seller, f);
      SumSnoc(entries[..n - 2], commission, f);
      if n == 3 {
        assert entries[..1] == [] + [entries[0]];
        SumSnoc([], entries[0], f);
      }
      assert Sum(entries, f) == f(commission);
    }
  }

  /** Errands bring no commission. */
  lemma ErrandSums(ledger: seq<LedgerEntry>, collaboratorId: Option<Id>, fee: int, e: Id, now: int, scope: Scope)
    ensures var ledger' := ledger + EntriesOf(ErrandLines(collaboratorId, fee), ErrandRef, e, None, now);
      && Sum(ledger', CommissionOf(scope)) == Sum(ledger, CommissionOf(scope))
      && Sum(ledger', UnsettledOf(scope)) == Sum(ledger, UnsettledOf(scope))
      && Sum(ledger', UnsettledOne(scope)) == Sum(ledger, UnsettledOne(scope))
  {
    var entries := EntriesOf(ErrandLines(collaboratorId, fee), ErrandRef, e, None, now);
    if entries == [] {
      assert ledger + entries == ledger;
    } else {
      assert entries == [entries[0]];
      SumSnoc(ledger, entries[0], CommissionOf(scope));
      SumSnoc(ledger, entries[0], UnsettledOf(scope));
      SumSnoc(ledger, entries[0], UnsettledOne(scope));
    }
  }

  // ----- statements

  /** Marking takes out of the unsettled commissions exactly what the statement totals. */
  lemma {:induction false} StatementTakes(ledger: seq<LedgerEntry>, q: Settlements.Query, scope: Scope)
    ensures var ledger', entries := Settlements.MarkSettled(ledger, q),
      Settlements.EntriesAt(ledger, Settlements.Captured(ledger, q));
      var covered := scope.Covers(q.storeId);
      && Sum(ledger', CommissionOf(scope)) == Sum(ledger, CommissionOf(scope))
      && Sum(ledger', UnsettledOf(scope)) + (if covered then Sum(entries, Settlements.AmountOf()) else 0) ==
        Sum(ledger, UnsettledOf(scope))
      && Sum(ledger', UnsettledOne(scope)) + (if covered then |entries| else 0) == Sum(ledger, UnsettledOne(scope))
  {
    if ledger != [] {
      var n, e := |ledger| - 1, ledger[|ledger| - 1];
      StatementTakes(ledger[..n], q, scope);
      assert Settlements.MarkSettled(ledger, q)[..n] == Settlements.MarkSettled(ledger[..n], q);
      CapturedSnoc(ledger, q);
      EntryTaken(q, e, scope);
      SumSnoc(Settlements.EntriesAt(ledger[..n], Settlements.Captured(ledger[..n], q)), e, Settlements.AmountOf());
    }
  }

  /** What marking one entry takes out of each sum. */
  lemma EntryTaken(q: Settlements.Query, e: LedgerEntry, scope: Scope)
    ensures var taken := Settlements.Matches(q, e) && scope.Covers(q.storeId);
      var e' := if Settlements.Matches(q, e) then e.(settled := true) else e;
      && CommissionOf(scope)(e') == CommissionOf(scope)(e)
      && UnsettledOf(scope)(e') + (if taken then Settlements.AmountOf()(e) else 0) == UnsettledOf(scope)(e)
      && UnsettledOne(scope)(e') + (if taken then 1 else 0) == UnsettledOne(scope)(e)
  {
  }

  lemma CapturedSnoc(ledger: seq<LedgerEntry>, q: Settlements.Query)
    requires ledger != []
    ensures var n := |ledger| - 1;
      var earlier := Settlements.EntriesAt(ledger[..n], Settlements.Captured(ledger[..n], q));
      Settlements.EntriesAt(ledger, Settlements.Captured(ledger, q)) ==
        if Settlements.Matches(q, ledger[n]) then earlier + [ledger[n]] else earlier
  {
    var n := |ledger| - 1;
    var earlier := Settlements.Captured(ledger[..n], q);
    assert forall k :: 0 <= k < |earlier| ==> earlier[k] in earlier;
    assert Settlements.EntriesAt(ledger, earlier) == Settlements.EntriesAt(ledger[..n], earlier);
  }

  /** Entries of different orders: as many orders as entries. */
  lemma {:induction false} DistinctOrders(entries: seq<LedgerEntry>)
    requires forall a, b :: 0 <= a < b < |entries| ==> entries[a].refId != entries[b].refId
    ensures |set e | e in entries :: e.refId| == |entries|
  {
    var refs := set e | e in entries :: e.refId;
    if entries == [] {
      assert refs == {};
    } else {
      var n := |entries| - 1;
      var front := entries[..n];
      assert forall a :: 0 <= a < n ==> front[a] == entries[a];
      DistinctOrders(front);
      var frontRefs := set e | e in front :: e.refId;
      assert refs == frontRefs + {entries[n].refId} by {
        forall e | e in entries ensures e.refId in frontRefs + {entries[n].refId} {
          var a :| 0 <= a < |entries| && entries[a] == e;
          if a < n { assert front[a] in front; }
        }
        forall e | e in front ensures e in entries {
          var a :| 0 <= a < n && front[a] == e;
          assert entries[a] == e;
        }
        assert entries[n] in entries;
      }
      assert entries[n].refId !in frontRefs;
    }
  }

  /** No order is counted twice on a statement. */
  lemma StatementCountsOrders(s: State, q: Settlements.Query)
    requires Books.Valid(s)
    ensures Settlements.Statement(s.ledger, q).ordersCount == |Settlements.Captured(s.ledger, q)|
  {
    var ids := Settlements.Captured(s.ledger, q);
    var entries := Settlements.EntriesAt(s.ledger, ids);
    forall a, b | 0 <= a < b < |entries| ensures entries[a].refId != entries[b].refId {
      assert ids[a] in ids && ids[b] in ids && ids[a] < ids[b];
      assert !Books.SameCommission(s.ledger[ids[a]], s.ledger[ids[b]]);
    }
    DistinctOrders(entries);
  }

  // ----- every step

  lemma PaidBalanced(s: State, s': State, o: Id, order: Order, settled: bool, now: int)
    requires Balanced(s) && o < |s.orders| && s.orders[o].paymentId.None? && order.paymentId.Some?
    requires Accounts.SameMoney(s.orders[o], order.(paymentId := None)) && order.storeId < |s.stores|
    requires settled <==> order.payBy == Wompi
    requires s'.orders == s.orders[o := order] && s'.settlements == s.settlements
    requires s'.ledger == s.ledger +
      EntriesOf(OrderLines(order, s.stores[order.storeId], settled), OrderRef, o, Some(order.storeId), now)
    ensures Balanced(s')
  {
    forall scope: Scope ensures BalancedFor(s', scope) {
      assert BalancedFor(s, scope);
      OrderUpdateSums(s.orders, o, order, scope);
      SplitSums(s.ledger, order, s.stores[order.storeId], settled, o, now, scope);
    }
  }

  lemma UnpaidBalanced(s: State, s': State, o: Id, order: Order)
    requires Balanced(s) && o < |s.orders| && Accounts.SameMoney(s.orders[o], order)
    requires s'.orders == s.orders[o := order] && s'.settlements == s.settlements && s'.ledger == s.ledger
    ensures Balanced(s')
  {
    forall scope: Scope ensures BalancedFor(s', scope) {
      assert BalancedFor(s, scope);
      OrderUpdateSums(s.orders, o, order, scope);
    }
  }

  lemma NewOrderBalanced(s: State, s': State, order: Order)
    requires Balanced(s) && order.paymentId.None?
    requires s'.orders == s.orders + [order] && s'.settlements == s.settlements && s'.ledger == s.ledger
    ensures Balanced(s')
  {
    forall scope: Scope ensures BalancedFor(s', scope) {
      assert BalancedFor(s, scope);
      SumSnoc(s.orders, order, FeeOf(scope, Cash));
      SumSnoc(s.orders, order, FeeOf(scope, Wompi));
      SumSnoc(s.orders, order, PaidOne(scope));
    }
  }

  lemma StatementBalanced(s: State, q: Settlements.Query)
    requires Valid(s)
    ensures Balanced(Settlements.GenerateSettlement(s, q))
  {
    var s', t := Settlements.GenerateSettlement(s, q), Settlements.Statement(s.ledger, q);
    StatementCountsOrders(s, q);
    forall scope: Scope ensures BalancedFor(s', scope) {
      assert BalancedFor(s, scope);
      StatementTakes(s.ledger, q, scope);
      SumSnoc(s.settlements, t, StatementOf(scope));
      SumSnoc(s.settlements, t, StatementOrdersOf(scope));
    }
  }

  lemma MarkPaidBalanced(s: State, id: Id)
    requires Balanced(s) && Settlements.MarkPaid(s, id).Success?
    ensures Balanced(Settlements.MarkPaid(s, id).value)
  {
    var s' := Settlements.MarkPaid(s, id).value;
    forall scope: Scope ensures BalancedFor(s', scope) {
      assert BalancedFor(s, scope);
      MarkPaidKeepsTotals(s, id, scope);
    }
  }

  lemma SameBalance(s: State, s': State)
    requires Balanced(s) && s'.orders == s.orders && s'.ledger == s.ledger && s'.settlements == s.settlements
    ensures Balanced(s')
  {
    forall scope: Scope ensures BalancedFor(s', scope) {
      assert BalancedFor(s, scope);
    }
  }

  lemma AdvanceDeliveryBalanced(s: State, user: User, d: Id, status: DeliveryStatus, now: int)
    requires Valid(s) && Deliveries.AdvanceStatus(s, user, d, status, now).Success?
    ensures Balanced(Deliveries.AdvanceStatus(s, user, d, status, now).value)
  {
    var s' := Deliveries.AdvanceStatus(s, user, d, status, now).value;
    var o, order := Accounts.AdvanceDeliveryMoney(s, user, d, status, now);
    if order.paymentId == s.orders[o].paymentId {
      UnpaidBalanced(s, s', o, order);
    } else {
      PaidBalanced(s, s', o, order, false, now);
    }
  }

  lemma WebhookBalanced(s: State, reference: Id, tx: string, status: string, signed: bool, now: int)
    requires Valid(s) && HandleWebhook(s, reference, tx, status, signed, now).Success?
    ensures Balanced(HandleWebhook(s, reference, tx, status, signed, now).value)
  {
    var s' := HandleWebhook(s, reference, tx, status, signed, now).value;
    if s' != s {
      var k := Accounts.WebhookMoney(s, reference, tx, status, signed, now);
      if status == APPROVED {
        PaidBalanced(s, s', reference, s.orders[reference].(paymentId := Some(k)), true, now);
      } else {
        SameBalance(s, s');
      }
    }
  }

  lemma ErrandCallBalanced(s: State, c: Call)
    requires Valid(s) && IsErrandCall(c) && Try(s, c).Success?
    ensures Balanced(Step(s, c))
  {
    ErrandFrame(s, c);
    if c.AdvanceErrand? && c.errandStatus == ErrandStatus.Completed {
      var errand := Accounts.CompleteErrandMoney(s, c.user, c.errandId, c.now);
      forall scope: Scope ensures BalancedFor(Step(s, c), scope) {
        assert BalancedFor(s, scope);
        ErrandSums(s.ledger, errand.collaboratorId, errand.offeredFee, c.errandId, c.now, scope);
      }
    } else {
      SameBalance(s, Step(s, c));
    }
  }

  lemma OrderCallBalanced(s: State, c: Call)
    requires Valid(s) && Try(s, c).Success? && (IsOrderMove(c) || c.AssignOrder? || c.CreateOrder?)
    ensures Balanced(Step(s, c))
  {
    if c.CreateOrder? {
      NewOrderBalanced(s, Step(s, c), Step(s, c).orders[|s.orders|]);
    } else {
      UnpaidBalanced(s, Step(s, c), c.orderId, Step(s, c).orders[c.orderId]);
    }
  }

  lemma AsideBalanced(s: State, c: Call)
    requires Valid(s) && Accounts.Aside(c) && Try(s, c).Success?
    ensures Balanced(Step(s, c))
  {
    if c.GenerateSettlement? { StatementBalanced(s, c.query); }
    else if c.MarkPaid? { MarkPaidBalanced(s, c.settlementId); }
    else {
      Accounts.AsideFrame(s, c);
      AsideStatements(s, c);
      SameBalance(s, Step(s, c));
    }
  }

  lemma AsideStatements(s: State, c: Call)
    requires Accounts.Aside(c) && !IsSettlementCall(c)
    ensures Step(s, c).settlements == s.settlements
  {
    if IsStoreCall(c) { StoreFrame(s, c); }
    else if IsCatalogCall(c) { CatalogFrame(s, c); }
    else if IsProfileCall(c) { ProfileFrame(s, c); }
    else { ReviewFrame(s, c); }
  }

  lemma StepKeepsBalance(s: State, c: Call)
    requires Valid(s) && Try(s, c).Success?
    ensures Balanced(Step(s, c))
  {
    if Accounts.Aside(c) { AsideBalanced(s, c); }
    else if IsErrandCall(c) { ErrandCallBalanced(s, c); }
    else if c.AdvanceDelivery? { AdvanceDeliveryBalanced(s, c.user, c.deliveryId, c.deliveryStatus, c.now); }
    else if c.CreateIntent? { IntentFrame(s, c); SameBalance(s, Step(s, c)); }
    else if c.Webhook? { WebhookBalanced(s, c.reference, c.transactionId, c.wompiStatus, c.signed, c.now); }
    else { OrderCallBalanced(s, c); }
  }

  lemma StepKeepsValid(s: State, c: Call)
    requires Valid(s) && WellFormed(c)
    ensures Valid(Step(s, c))
  {
    Books.StepKeepsValid(s, c);
    if Try(s, c).Success? {
      StepKeepsBalance(s, c);
    }
  }

  lemma {:induction false} RunKeepsValid(s: State, calls: seq<Call>)
    requires Valid(s) && AllWellFormed(calls)
    ensures Valid(Run(s, calls))
  {
    if calls != [] {
      var front := calls[..|calls| - 1];
      assert forall i :: 0 <= i < |front| ==> front[i] == calls[i];
      RunKeepsValid(s, front);
      StepKeepsValid(Run(s, front), calls[|calls| - 1]);
    }
  }

  /** The revenue reported to the admin is the fees of the paid orders; it is also what the statements
      total, plus what no statement has captured yet, plus what Wompi already holds. */
  lemma RevenueAgrees(s: State)
    requires Valid(s)
    ensures PlatformRevenue(s) == Sum(s.orders, FeeOf(Everywhere, Cash)) + Sum(s.orders, FeeOf(Everywhere, Wompi))
    ensures PlatformRevenue(s) ==
      Sum(s.settlements, StatementOf(Everywhere)) + Sum(s.ledger, UnsettledOf(Everywhere))
      + Sum(s.orders, FeeOf(Everywhere, Wompi))
    ensures forall o :: 0 <= o < |s.orders| ==>
      (s.orders[o].paymentId.Some? <==>
        exists k :: 0 <= k < |s.payments| && s.payments[k].refType == OrderRef && s.payments[k].refId == o
                    && s.payments[k].status == PaymentStatus.Approved)
  {
    assert BalancedFor(s, Everywhere);
    forall o | 0 <= o < |s.orders|
      ensures s.orders[o].paymentId.Some? <==>
        exists k :: 0 <= k < |s.payments| && s.payments[k].refType == OrderRef && s.payments[k].refId == o
                    && s.payments[k].status == PaymentStatus.Approved
    {
      assert Accounts.PointsTo(s.payments, OrderRef, o, s.orders[o].paymentId);
      assert forall k :: 0 <= k < |s.payments| ==> Accounts.GoodPayment(s.payments[k], k, s.orders, s.errands);
    }
  }

  /** Two statements never share an entry, however their periods overlap and whatever happens between. */
  lemma NothingCapturedTwice(s: State, first: Settlements.Query, calls: seq<Call>, second: Settlements.Query)
    requires Valid(s) && AllWellFormed(calls)
    ensures var s' := Run(Settlements.GenerateSettlement(s, first), calls);
      forall i :: i in Settlements.Captured(s.ledger, first) ==> i !in Settlements.Captured(s'.ledger, second)
  {
    var s1 := Step(s, Call.GenerateSettlement(first));
    assert s1 == Settlements.GenerateSettlement(s, first);
    Books.StepKeepsValid(s, Call.GenerateSettlement(first));
    Evolution.RunEvolves(s1, calls);
    var s' := Run(s1, calls);
    forall i | i in Settlements.Captured(s.ledger, first) ensures i !in Settlements.Captured(s'.ledger, second) {
      assert s1.ledger[i].settled;
      assert Evolution.EntryEvolves(s1.ledger[i], s'.ledger[i]);
    }
  }

  // ----- statements once sent

  /** A statement keeps its store, period, count and total; it can only become paid. */
  predicate StatementEvolves(a: Settlement, b: Settlement) {
    b == a || b == a.(status := Paid)
  }

  predicate StatementsEvolve(a: seq<Settlement>, b: seq<Settlement>) {
    |a| <= |b| && forall i :: 0 <= i < |a| ==> StatementEvolves(a[i], b[i])
  }

  lemma StepEvolvesStatements(s: State, c: Call)
    ensures StatementsEvolve(s.settlements, Step(s, c).settlements)
    ensures c.GenerateSettlement? || |Step(s, c).settlements| == |s.settlements|
  {
    if IsSettlementCall(c) {}
    else if IsOrderCall(c) { OrderFrame(s, c); }
    else if IsStoreCall(c) { StoreFrame(s, c); }
    else if IsCatalogCall(c) { CatalogFrame(s, c); }
    else if IsProfileCall(c) { ProfileFrame(s, c); }
    else if IsErrandCall(c) { ErrandFrame(s, c); }
    else if c.CreateReview? { ReviewFrame(s, c); }
    else { IntentFrame(s, c); }
  }

  /** Marking a statement as paid is for ever and touches no amount, over any run. */
  lemma {:induction false} RunEvolvesStatements(s: State, calls: seq<Call>)
    ensures StatementsEvolve(s.settlements, Run(s, calls).settlements)
  {
    if calls != [] {
      var front := calls[..|calls| - 1];
      RunEvolvesStatements(s, front);
      StepEvolvesStatements(Run(s, front), calls[|calls| - 1]);
      var a, b, c := s.settlements, Run(s, front).settlements, Run(s, calls).settlements;
      forall i | 0 <= i < |a| ensures StatementEvolves(a[i], c[i]) {
        assert StatementEvolves(a[i], b[i]) && StatementEvolves(b[i], c[i]);
      }
    }
  }

  /** Which statement is marked paid makes no difference to what statements add up to. */
  lemma MarkPaidKeepsTotals(s: State, id: Id, scope: Scope)
    requires Settlements.MarkPaid(s, id).Success?
    ensures var s' := Settlements.MarkPaid(s, id).value;
      && Sum(s'.settlements, StatementOf(scope)) == Sum(s.settlements, StatementOf(scope))
      && Sum(s'.settlements, StatementOrdersOf(scope)) == Sum(s.settlements, StatementOrdersOf(scope))
  {
    var s' := Settlements.MarkPaid(s, id).value;
    SumUpdate(s.settlements, id, s'.settlements[id], StatementOf(scope));
    SumUpdate(s.settlements, id, s'.settlements[id], StatementOrdersOf(scope));
  }
}
