/** Everything together: what holds after any calls whatsoever, starting from an empty database. */
module Reachable {
  import opened Wrappers
  import opened Documents
  import opened Sequences
  import opened Platform
  import Lifecycle
  import Accounts
  import Books
  import Conservation
  import Revenue
  import Stock
  import Dispatch
  import Reputation
  import Earnings
  import Pricing
  import Amounts
  import ErrandLifecycle

  /** All invariants of the platform. */
  ghost predicate Sound(s: State) {
    && Revenue.Valid(s)
    && Stock.Valid(s)
    && Reputation.Valid(s)
    && Earnings.Valid(s)
    && ErrandLifecycle.Valid(s.errands)
    && Pricing.Coherent(s)
    && (Pricing.RatesOk(s.settings) ==> Amounts.Valid(s) && Amounts.LedgerOk(s.ledger))
  }

  lemma EmptyIsSound(settings: Settings)
    ensures Sound(EmptyState(settings))
  {
  }

  lemma {:induction false} RunIsSound(s: State, calls: seq<Call>)
    requires Sound(s) && AllWellFormed(calls)
    ensures Sound(Run(s, calls))
  {
    Revenue.RunKeepsValid(s, calls);
    Stock.RunKeepsValid(s, calls);
    Reputation.RunKeepsValid(s, calls);
    Earnings.RunKeepsValid(s, calls);
    if Pricing.RatesOk(s.settings) {
      Amounts.NothingIsNegative(s, calls);
    }
    ErrandLifecycle.RunKeepsErrands(s, calls);
    Pricing.RunKeepsCoherent(s, calls);
  }

  /** After any sequence of calls, refused or not, from an empty platform. */
  lemma EveryReachableStateIsSound(settings: Settings, calls: seq<Call>)
    requires AllWellFormed(calls)
    ensures Sound(Run(EmptyState(settings), calls))
  {
    EmptyIsSound(settings);
    RunIsSound(EmptyState(settings), calls);
  }

  /** The two machines, spelled out for one order of a reachable state. */
  lemma OrderAndDeliveryAgree(settings: Settings, calls: seq<Call>, o: Id)
    requires AllWellFormed(calls) && o < |Run(EmptyState(settings), calls).orders|
    ensures var s := Run(EmptyState(settings), calls);
      var order := s.orders[o];
      && (Lifecycle.Dispatched(order.status) <==> exists d :: 0 <= d < |s.deliveries| && s.deliveries[d].refId == o)
      && (forall d :: 0 <= d < |s.deliveries| && s.deliveries[d].refId == o ==>
            order.collaboratorId == Some(s.deliveries[d].collaboratorId)
            && order.status == Lifecycle.SyncedStatus(s.deliveries[d].status))
      && (forall d, e :: 0 <= d < e < |s.deliveries| ==> !(s.deliveries[d].refId == o && s.deliveries[e].refId == o))
      && |order.history| <= 7
  {
    EveryReachableStateIsSound(settings, calls);
    var s := Run(EmptyState(settings), calls);
    assert Lifecycle.GoodHistory(s.orders[o]);
    Lifecycle.HistoryIsShort(s.orders[o]);
    assert Lifecycle.Dispatched(s.orders[o].status) <==> Lifecycle.HasDelivery(s.deliveries, o);
    forall d | 0 <= d < |s.deliveries| && s.deliveries[d].refId == o
      ensures s.orders[o].collaboratorId == Some(s.deliveries[d].collaboratorId)
        && s.orders[o].status == Lifecycle.SyncedStatus(s.deliveries[d].status)
    {
      assert Lifecycle.Serves(s.deliveries[d], s.orders);
    }
  }

  /** The money, spelled out: what the admin sees is what the paid orders owe, and it is on statements,
      waiting for one, or already held. */
  lemma BooksBalance(settings: Settings, calls: seq<Call>)
    requires AllWellFormed(calls)
    ensures var s := Run(EmptyState(settings), calls);
      var fees := Sum(s.orders, Revenue.FeeOf(Revenue.Everywhere, Cash))
        + Sum(s.orders, Revenue.FeeOf(Revenue.Everywhere, Wompi));
      && Revenue.PlatformRevenue(s) == fees
      && Revenue.PlatformRevenue(s) ==
           Sum(s.settlements, Revenue.StatementOf(Revenue.Everywhere))
           + Sum(s.ledger, Revenue.UnsettledOf(Revenue.Everywhere))
           + Sum(s.orders, Revenue.FeeOf(Revenue.Everywhere, Wompi))
      && Sum(s.ledger, Earnings.EarningOf(Earnings.Everyone)) == Sum(s.errands, Earnings.FeeOf(Earnings.Everyone))
  {
    EveryReachableStateIsSound(settings, calls);
    Revenue.RevenueAgrees(Run(EmptyState(settings), calls));
  }

  /** One store's account: what its statements total plus what none has captured is the fees of its paid
      cash orders, and the orders they count plus those still waiting are those orders. */
  lemma StatementsAddUp(settings: Settings, calls: seq<Call>, storeId: Id)
    requires AllWellFormed(calls)
    ensures var s, scope := Run(EmptyState(settings), calls), Revenue.OneStore(storeId);
      && Sum(s.settlements, Revenue.StatementOf(scope)) + Sum(s.ledger, Revenue.UnsettledOf(scope)) ==
        Sum(s.orders, Revenue.FeeOf(scope, Cash))
      && Sum(s.settlements, Revenue.StatementOrdersOf(scope)) + Sum(s.ledger, Revenue.UnsettledOne(scope)) ==
        Sum(s.orders, Revenue.PaidOne(scope))
  {
    EveryReachableStateIsSound(settings, calls);
    assert Revenue.BalancedFor(Run(EmptyState(settings), calls), Revenue.OneStore(storeId));
  }

  /** As long as nobody changes their availability in the middle of a delivery, nobody holds two, and
      being on delivery means holding exactly one. */
  lemma OneDeliveryEach(settings: Settings, calls: seq<Call>, u: Id)
    requires Dispatch.AllHandsOff(EmptyState(settings), calls) && u in Run(EmptyState(settings), calls).profiles
    ensures var s := Run(EmptyState(settings), calls);
      && Dispatch.ActiveOf(s.deliveries, u) <= 1
      && (s.profiles[u].availability == OnDelivery <==> Dispatch.ActiveOf(s.deliveries, u) == 1)
  {
    assert Dispatch.Valid(EmptyState(settings));
    Dispatch.RunKeepsExclusive(EmptyState(settings), calls);
  }
}
