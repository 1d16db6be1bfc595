/** app/settlements: seller statements over the unsettled commissions of a period. */
module Settlements {
  import opened Wrappers
  import opened Documents
  import opened Sequences

  datatype Query = Query(storeId: Id, start: int, end: int)

  /** The filter of `generate_settlement`. */
  predicate Matches(q: Query, e: LedgerEntry) {
    e.storeId == Some(q.storeId) && e.kind == Commission && !e.settled && q.start <= e.createdAt <= q.end
  }

  /** The ids the query returns, in insertion order. */
  function Captured(ledger: seq<LedgerEntry>, q: Query): (r: seq<Id>)
    ensures forall i :: i in r <==> 0 <= i < |ledger| && Matches(q, ledger[i])
    ensures forall a, b :: 0 <= a < b < |r| ==> r[a] < r[b]
  {
    if ledger == [] then []
    else
      var n := |ledger| - 1;
      assert forall i :: 0 <= i < n ==> ledger[..n][i] == ledger[i];
      var earlier := Captured(ledger[..n], q);
      if Matches(q, ledger[n]) then
        var r := earlier + [n];
        assert forall a :: 0 <= a < |earlier| ==> earlier[a] in earlier;
        r
      else earlier
  }

  function EntriesAt(ledger: seq<LedgerEntry>, ids: seq<Id>): seq<LedgerEntry>
    requires forall i :: i in ids ==> i < |ledger|
  {
    seq(|ids|, k requires 0 <= k < |ids| => assert ids[k] in ids; ledger[ids[k]])
  }

  function AmountOf(): LedgerEntry -> int {
    (e: LedgerEntry) => e.amount
  }

  /** `summarize_commissions`: the total and the number of distinct orders. */
  function Summarize(entries: seq<LedgerEntry>): (int, nat) {
    (Sum(entries, AmountOf()), |set e | e in entries :: e.refId|)
  }

  /** Every captured entry is flipped to settled; nothing else changes. */
  function MarkSettled(ledger: seq<LedgerEntry>, q: Query): seq<LedgerEntry> {
    seq(|ledger|, i requires 0 <= i < |ledger| =>
      if Matches(q, ledger[i]) then ledger[i].(settled := true) else ledger[i])
  }

  function Statement(ledger: seq<LedgerEntry>, q: Query): Settlement {
    var (total, orders) := Summarize(EntriesAt(ledger, Captured(ledger, q)));
    Settlement(q.storeId, q.start, q.end, orders, total, Due)
  }

  function GenerateSettlement(s: State, q: Query): State {
    s.(settlements := s.settlements + [Statement(s.ledger, q)], ledger := MarkSettled(s.ledger, q))
  }

  function MarkPaid(s: State, settlementId: Id): Result<State, Error> {
    if settlementId >= |s.settlements| then Failure(NotFound)
    else Success(s.(settlements := s.settlements[settlementId := s.settlements[settlementId].(status := Paid)]))
  }
}
