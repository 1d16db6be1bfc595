/** No amount in the books is ever negative. */
module Amounts {
  import opened Wrappers
  import opened Documents
  import opened Sequences
  import opened Platform
  import opened PaymentLogic
  import opened Books
  import Settlements
  import Accounts
  import Pricing
  import Revenue

  predicate LedgerOk(ledger: seq<LedgerEntry>) {
    forall i :: 0 <= i < |ledger| ==> ledger[i].amount >= 0
  }

  predicate StatementsOk(settlements: seq<Settlement>) {
    forall i :: 0 <= i < |settlements| ==> settlements[i].commissionTotal >= 0
  }

  ghost predicate Valid(s: State) {
    Books.Valid(s) && Pricing.Valid(s) && StatementsOk(s.settlements)
  }

  /** Every entry is one of the movements of its document. */
  lemma {:induction false} EntryIsMovement(ledger: seq<LedgerEntry>, i: nat)
    requires i < |ledger|
    ensures var e := ledger[i]; Movement(e.kind, e.userId, e.amount) in MovementsFor(ledger, e.refType, e.refId)
  {
    var n := |ledger| - 1;
    if i < n {
      EntryIsMovement(ledger[..n], i);
    }
  }

  lemma BatchNonNegative(order: Order, collaboratorId: Option<Id>, owner: Id)
    requires Pricing.FeeOk(order)
    ensures forall m :: m in Batch(order, collaboratorId, owner) ==> m.amount >= 0
  {
  }

  /** Whatever fees stores set: a collaborator's line is only written for a positive one. */
  lemma LedgerIsNonNegative(s: State)
    requires Books.Valid(s) && Pricing.FeesOk(s.orders)
    ensures LedgerOk(s.ledger)
  {
    forall i | 0 <= i < |s.ledger| ensures s.ledger[i].amount >= 0 {
      var e := s.ledger[i];
      EntryIsMovement(s.ledger, i);
      assert GoodEntry(e, s.orders, s.errands);
      var movements := MovementsFor(s.ledger, e.refType, e.refId);
      match e.refType
      case OrderRef =>
        var order := s.orders[e.refId];
        var owner := s.stores[order.storeId].ownerId;
        assert Pricing.FeeOk(order) && OrderBooked(order, owner, movements);
        BatchNonNegative(order, order.collaboratorId, owner);
        BatchNonNegative(order, None, owner);
      case ErrandRef =>
        assert ErrandBooked(s.errands[e.refId], movements);
        assert Accounts.PaidWhenDone(s.errands[e.refId]);
    }
  }

  lemma StatementIsNonNegative(ledger: seq<LedgerEntry>, q: Settlements.Query)
    requires LedgerOk(ledger)
    ensures Settlements.Statement(ledger, q).commissionTotal >= 0
  {
    var entries := Settlements.EntriesAt(ledger, Settlements.Captured(ledger, q));
    forall k | 0 <= k < |entries| ensures Settlements.AmountOf()(entries[k]) >= 0 {
      assert Settlements.Captured(ledger, q)[k] in Settlements.Captured(ledger, q);
    }
    SumNonNegative(entries, Settlements.AmountOf());
  }

  lemma StepKeepsStatements(s: State, c: Call)
    requires Valid(s)
    ensures StatementsOk(Step(s, c).settlements)
  {
    Revenue.StepEvolvesStatements(s, c);
    LedgerIsNonNegative(s);
    if c.GenerateSettlement? {
      StatementIsNonNegative(s.ledger, c.query);
    } else {
      forall i | 0 <= i < |s.settlements| ensures Step(s, c).settlements[i].commissionTotal >= 0 {
        assert Revenue.StatementEvolves(s.settlements[i], Step(s, c).settlements[i]);
      }
    }
  }

  /** At rates between 0 and 1, no ledger entry and no statement of any run is negative. */
  lemma {:induction false} NothingIsNegative(s: State, calls: seq<Call>)
    requires Valid(s) && AllWellFormed(calls)
    ensures Valid(Run(s, calls)) && LedgerOk(Run(s, calls).ledger)
  {
    if calls != [] {
      var front := calls[..|calls| - 1];
      assert forall i :: 0 <= i < |front| ==> front[i] == calls[i];
      NothingIsNegative(s, front);
      StepKeepsStatements(Run(s, front), calls[|calls| - 1]);
    }
    Books.RunKeepsValid(s, calls);
    Pricing.RunKeepsValid(s, calls);
    LedgerIsNonNegative(Run(s, calls));
  }
}
