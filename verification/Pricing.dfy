/** Commission rates: which one is in force, what it costs the seller, what rounding can add up to. */
module Pricing {
  import opened Wrappers
  import opened Documents
  import opened Sequences
  import opened Rounding
  import opened Platform
  import opened Frames
  import opened Orders
  import opened OrderLogic
  import Deliveries
  import Settlements
  import Accounts
  import Books
  import Evolution

  predicate Subscribed(s: State, storeId: Id) {
    storeId in s.subscriptions && s.subscriptions[storeId].status == Active
  }

  /** The rate an order of a store is charged: reduced exactly while its subscription is active. */
  function RateInForce(s: State, storeId: Id): real {
    if Subscribed(s, storeId) then s.settings.premiumCommissionRate else s.settings.defaultCommissionRate
  }

  /** A store's override is the premium rate while it subscribes, and absent otherwise. */
  ghost predicate Coherent(s: State) {
    && (forall i :: 0 <= i < |s.stores| ==>
          s.stores[i].commissionRate == if Subscribed(s, i) then Some(s.settings.premiumCommissionRate) else None)
    && (forall i :: i in s.subscriptions ==> i < |s.stores|)
  }

  predicate PriceOk(product: Option<Product>) {
    product.Some? ==> product.value.price >= 0
  }

  ghost predicate PricesOk(products: seq<Option<Product>>) {
    forall p :: 0 <= p < |products| ==> PriceOk(products[p])
  }

  predicate FeeOk(order: Order) {
    0 <= order.amounts.platformFee <= order.amounts.itemsTotal
  }

  ghost predicate FeesOk(orders: seq<Order>) {
    forall o :: 0 <= o < |orders| ==> FeeOk(orders[o])
  }

  predicate RatesOk(settings: Settings) {
    0.0 <= settings.defaultCommissionRate <= 1.0 && 0.0 <= settings.premiumCommissionRate <= 1.0
  }

  ghost predicate Valid(s: State) {
    Accounts.Valid(s) && RatesOk(s.settings) && Coherent(s) && PricesOk(s.products) && FeesOk(s.orders)
  }

  // ----- the fee of one order

  /** No commission is negative or eats more than the items, at any rate between 0 and 1. */
  lemma FeeBounds(itemsTotal: int, rate: real)
    requires itemsTotal >= 0 && 0.0 <= rate <= 1.0
    ensures 0 <= PlatformFee(itemsTotal, rate) <= itemsTotal
  {
    ExactFeeInRange(itemsTotal, rate);
    RoundStaysBetween(0, ExactFee(itemsTotal, rate), itemsTotal);
  }

  lemma ExactFeeInRange(itemsTotal: int, rate: real)
    requires itemsTotal >= 0 && 0.0 <= rate <= 1.0
    ensures 0.0 <= ExactFee(itemsTotal, rate) <= itemsTotal as real
  {
    PartOf(itemsTotal as real, rate);
  }

  lemma PartOf(t: real, rate: real)
    requires t >= 0.0 && 0.0 <= rate <= 1.0
    ensures 0.0 <= t * rate <= t
  {
    assert t * (1.0 - rate) >= 0.0;
  }

  lemma ExactFeeIsMonotone(smaller: int, larger: int, rate: real)
    requires smaller <= larger && rate >= 0.0
    ensures ExactFee(smaller, rate) <= ExactFee(larger, rate)
  {
    assert (larger - smaller) as real * rate >= 0.0;
  }

  /** A larger order never pays a smaller commission. */
  lemma FeeIsMonotone(smaller: int, larger: int, rate: real)
    requires smaller <= larger && rate >= 0.0
    ensures PlatformFee(smaller, rate) <= PlatformFee(larger, rate)
  {
    ExactFeeIsMonotone(smaller, larger, rate);
    RoundIsMonotone(ExactFee(smaller, rate), ExactFee(larger, rate));
  }

  /** What the client pays for some items. */
  function TotalFor(itemsTotal: int, baseFee: int, freeOver: Option<int>, rate: real): int {
    ComputeAmounts(itemsTotal, baseFee, freeOver, rate).total
  }

  /** A larger order can cost the client less, exactly when it crosses the free-delivery threshold by
      less than the delivery fee. */
  lemma MoreCostsMoreUnlessDeliveryTurnsFree(smaller: int, larger: int, baseFee: int, freeOver: Option<int>, rate: real)
    requires smaller <= larger
    ensures TotalFor(larger, baseFee, freeOver, rate) < TotalFor(smaller, baseFee, freeOver, rate) <==>
      freeOver.Some? && smaller < freeOver.value <= larger && larger - smaller < baseFee
  {
  }

  lemma {:induction false} ItemsTotalNonNegative(products: seq<Option<Product>>, storeId: Id, lines: seq<Line>)
    requires PricesOk(products) && ValidateLines(products, storeId, lines).Success?
    requires forall i :: 0 <= i < |lines| ==> lines[i].qty >= 1
    ensures Sum(ValidateLines(products, storeId, lines).value, Subtotal()) >= 0
  {
    if lines != [] {
      var item, rest := ValidateLine(products, storeId, lines[0]).value,
        ValidateLines(products, storeId, lines[1..]).value;
      ItemsTotalNonNegative(products, storeId, lines[1..]);
      assert PriceOk(products[lines[0].productId]);
      assert item.subtotal >= 0;
      SumCons(item, rest, Subtotal());
    }
  }

  // ----- prices are untouched by stock movements

  lemma {:induction false} CommitKeepsPrices(products: seq<Option<Product>>, decrements: seq<Decrement>)
    requires PricesOk(products) && forall i :: 0 <= i < |decrements| ==> decrements[i].loaded.price >= 0
    ensures PricesOk(Commit(products, decrements))
    decreases decrements
  {
    if decrements != [] {
      CommitKeepsPrices(Taken(products, decrements[0]), decrements[1..]);
    }
  }

  lemma {:induction false} DecrementsHavePrices(products: seq<Option<Product>>, lines: seq<Line>)
    requires PricesOk(products)
    ensures forall i :: 0 <= i < |Decrements(products, lines)| ==> Decrements(products, lines)[i].loaded.price >= 0
  {
    if lines != [] {
      DecrementsHavePrices(products, lines[1..]);
      var product := GetProduct(products, lines[0].productId);
      assert PriceOk(product) by {
        if product.Some? { assert PriceOk(products[lines[0].productId]); }
      }
    }
  }

  lemma {:induction false} RestoreKeepsPrices(products: seq<Option<Product>>, items: seq<OrderItem>)
    requires PricesOk(products)
    ensures PricesOk(Restore(products, items))
    decreases items
  {
    if items != [] {
      var after := GivenBack(products, items[0]);
      forall p | 0 <= p < |after| ensures PriceOk(after[p]) {
        assert PriceOk(products[p]);
      }
      RestoreKeepsPrices(after, items[1..]);
    }
  }

  // ----- every step

  lemma CreateKeepsPrices(s: State, user: User, storeId: Id, lines: seq<Line>, payBy: PaymentMethod)
    requires PricesOk(s.products) && Orders.CreateOrder(s, user, storeId, lines, payBy).Success?
    ensures PricesOk(Orders.CreateOrder(s, user, storeId, lines, payBy).value.products)
  {
    DecrementsHavePrices(s.products, lines);
    CommitKeepsPrices(s.products, Decrements(s.products, lines));
  }

  /** A new order is charged the rate in force. */
  lemma CreateChargesRateInForce(s: State, user: User, storeId: Id, lines: seq<Line>, payBy: PaymentMethod)
    requires Coherent(s) && Orders.CreateOrder(s, user, storeId, lines, payBy).Success?
    ensures var s' := Orders.CreateOrder(s, user, storeId, lines, payBy).value;
      |s'.orders| == |s.orders| + 1 && PlacedAt(s'.orders[|s.orders|], RateInForce(s, storeId))
  {
    assert RateOf(s.settings, s.stores[storeId]) == RateInForce(s, storeId);
  }

  lemma CreateKeepsFeesOk(s: State, user: User, storeId: Id, lines: seq<Line>, payBy: PaymentMethod)
    requires RatesOk(s.settings) && Coherent(s) && PricesOk(s.products)
    requires Orders.CreateOrder(s, user, storeId, lines, payBy).Success?
    requires forall i :: 0 <= i < |lines| ==> lines[i].qty >= 1
    ensures var s' := Orders.CreateOrder(s, user, storeId, lines, payBy).value;
      |s'.orders| == |s.orders| + 1 && FeeOk(s'.orders[|s.orders|])
  {
    CreateChargesRateInForce(s, user, storeId, lines, payBy);
    var order := Orders.CreateOrder(s, user, storeId, lines, payBy).value.orders[|s.orders|];
    ItemsTotalNonNegative(s.products, storeId, lines);
    FeeBounds(order.amounts.itemsTotal, RateInForce(s, storeId));
  }

  lemma PricesStay(s: State, c: Call)
    requires PricesOk(s.products) && WellFormed(c) && !c.CreateOrder?
    ensures PricesOk(Step(s, c).products)
  {
    if IsCatalogCall(c) { CatalogPrices(s, c); }
    else if c.CancelOrder? {
      if Try(s, c).Success? { RestoreKeepsPrices(s.products, s.orders[c.orderId].items); }
    } else { ProductsStay(s, c); }
  }

  lemma CatalogPrices(s: State, c: Call)
    requires PricesOk(s.products) && WellFormed(c) && IsCatalogCall(c)
    ensures PricesOk(Step(s, c).products)
  {
    var s' := Step(s, c);
    if Try(s, c).Success? {
      forall p | 0 <= p < |s'.products| ensures PriceOk(s'.products[p]) {
        if p < |s.products| { assert PriceOk(s.products[p]); }
      }
    }
  }

  lemma ProductsStay(s: State, c: Call)
    requires !IsCatalogCall(c) && !c.CreateOrder? && !c.CancelOrder?
    ensures Step(s, c).products == s.products
  {
    if IsOrderCall(c) {}
    else if IsStoreCall(c) { StoreFrame(s, c); }
    else if IsProfileCall(c) { ProfileFrame(s, c); }
    else if IsSettlementCall(c) { SettlementFrame(s, c); }
    else if IsErrandCall(c) { ErrandFrame(s, c); }
    else if c.CreateReview? { ReviewFrame(s, c); }
    else { IntentFrame(s, c); }
  }

  lemma FeesStay(s: State, c: Call)
    requires Valid(s) && WellFormed(c)
    ensures FeesOk(Step(s, c).orders)
  {
    var s' := Step(s, c);
    Evolution.StepEvolves(s, c);
    if c.CreateOrder? && Try(s, c).Success? {
      CreateKeepsFeesOk(s, c.user, c.storeId, c.lines, c.payBy);
    } else {
      OrdersCounted(s, c);
    }
    forall o | 0 <= o < |s'.orders| ensures FeeOk(s'.orders[o]) {
      if o < |s.orders| {
        assert FeeOk(s.orders[o]) && Evolution.OrderEvolves(s.orders[o], s'.orders[o]);
      }
    }
  }

  lemma OrdersCounted(s: State, c: Call)
    requires Accounts.Valid(s) && !(c.CreateOrder? && Try(s, c).Success?)
    ensures |Step(s, c).orders| == |s.orders|
  {
    if Try(s, c).Failure? {}
    else if !IsOrderCall(c) { OrdersFrame(s, c); }
    else if c.AdvanceDelivery? {
      var o, order := Accounts.AdvanceDeliveryMoney(s, c.user, c.deliveryId, c.deliveryStatus, c.now);
    }
  }

  /** Settings never change, and only store calls touch subscriptions and overrides. */
  lemma RatesStay(s: State, c: Call)
    requires !IsStoreCall(c)
    ensures Step(s, c).settings == s.settings && Step(s, c).subscriptions == s.subscriptions
    ensures |Step(s, c).stores| == |s.stores|
    ensures forall i :: 0 <= i < |s.stores| ==> Step(s, c).stores[i].commissionRate == s.stores[i].commissionRate
  {
    if IsOrderCall(c) { OrderFrame(s, c); }
    else if IsCatalogCall(c) { CatalogFrame(s, c); }
    else if IsProfileCall(c) { ProfileFrame(s, c); }
    else if IsSettlementCall(c) { SettlementFrame(s, c); }
    else if IsErrandCall(c) { ErrandFrame(s, c); }
    else if c.CreateReview? { ReviewFrame(s, c); }
    else { IntentFrame(s, c); }
  }

  lemma StoreCallCoherent(s: State, c: Call)
    requires Coherent(s) && IsStoreCall(c)
    ensures Coherent(Step(s, c)) && Step(s, c).settings == s.settings
  {
    StoreFrame(s, c);
  }

  lemma StepKeepsCoherent(s: State, c: Call)
    requires Coherent(s)
    ensures Coherent(Step(s, c)) && Step(s, c).settings == s.settings
  {
    if IsStoreCall(c) {
      StoreCallCoherent(s, c);
    } else {
      RatesStay(s, c);
      forall i | 0 <= i < |s.stores| ensures Subscribed(Step(s, c), i) <==> Subscribed(s, i) {}
    }
  }

  /** Whatever the rates are. */
  lemma {:induction false} RunKeepsCoherent(s: State, calls: seq<Call>)
    requires Coherent(s)
    ensures Coherent(Run(s, calls)) && Run(s, calls).settings == s.settings
  {
    if calls != [] {
      var front := calls[..|calls| - 1];
      RunKeepsCoherent(s, front);
      StepKeepsCoherent(Run(s, front), calls[|calls| - 1]);
    }
  }

  lemma StepKeepsValid(s: State, c: Call)
    requires Valid(s) && WellFormed(c)
    ensures Valid(Step(s, c))
  {
    Accounts.StepKeepsValid(s, c);
    StepKeepsCoherent(s, c);
    FeesStay(s, c);
    if c.CreateOrder? {
      if Try(s, c).Success? { CreateKeepsPrices(s, c.user, c.storeId, c.lines, c.payBy); }
    } else {
      PricesStay(s, c);
    }
  }

  lemma {:induction false} RunKeepsValid(s: State, calls: seq<Call>)
    requires Valid(s) && AllWellFormed(calls)
    ensures Valid(Run(s, calls))
  {
    if calls != [] {
      var front := calls[..|calls| - 1];
      assert forall i :: 0 <= i < |front| ==> front[i] == calls[i];
      RunKeepsValid(s, front);
      StepKeepsValid(Run(s, front), calls[|calls| - 1]);
    }
  }

  /** An order keeps the fee of the rate in force when it was placed, whatever the seller subscribes
      to or cancels afterwards. */
  lemma FeeIsForever(s: State, user: User, storeId: Id, lines: seq<Line>, payBy: PaymentMethod, calls: seq<Call>)
    requires Accounts.Valid(s) && Coherent(s) && Orders.CreateOrder(s, user, storeId, lines, payBy).Success?
    requires WellFormed(Call.CreateOrder(user, storeId, lines, payBy)) && AllWellFormed(calls)
    ensures var s' := Run(Orders.CreateOrder(s, user, storeId, lines, payBy).value, calls);
      && |s.orders| < |s'.orders|
      && PlacedAt(s'.orders[|s.orders|], RateInForce(s, storeId))
  {
    var c := Call.CreateOrder(user, storeId, lines, payBy);
    var s1 := Orders.CreateOrder(s, user, storeId, lines, payBy).value;
    assert Step(s, c) == s1;
    CreateChargesRateInForce(s, user, storeId, lines, payBy);
    Accounts.StepKeepsValid(s, c);
    Evolution.RunEvolves(s1, calls);
    assert Evolution.OrderEvolves(s1.orders[|s.orders|], Run(s1, calls).orders[|s.orders|]);
  }

  // ----- rounding over a statement

  function ItemsOf(e: LedgerEntry, orders: seq<Order>): int {
    if e.refId < |orders| then orders[e.refId].amounts.itemsTotal else 0
  }

  /** The items of the orders behind some entries. */
  function Gross(entries: seq<LedgerEntry>, orders: seq<Order>): int {
    if entries == [] then 0
    else
      Gross(entries[..|entries| - 1], orders) + ItemsOf(entries[|entries| - 1], orders)
  }

  predicate PlacedAt(order: Order, rate: real) {
    order.amounts.platformFee == PlatformFee(order.amounts.itemsTotal, rate)
  }

  predicate ChargedAt(e: LedgerEntry, orders: seq<Order>, rate: real) {
    e.refId < |orders| && e.amount == orders[e.refId].amounts.platformFee && PlacedAt(orders[e.refId], rate)
  }

  function SumReals(xs: seq<real>): real {
    if xs == [] then 0.0 else SumReals(xs[..|xs| - 1]) + xs[|xs| - 1]
  }

  /** Amounts each within a half of a share: their sum is within a half per amount. */
  lemma {:induction false} HalvesAddUp(entries: seq<LedgerEntry>, shares: seq<real>)
    requires |shares| == |entries|
    requires forall k :: 0 <= k < |entries| ==> -0.5 <= entries[k].amount as real - shares[k] <= 0.5
    ensures var gap := Sum(entries, Settlements.AmountOf()) as real - SumReals(shares);
      -0.5 * |entries| as real <= gap <= 0.5 * |entries| as real
  {
    if entries != [] {
      var n := |entries| - 1;
      assert forall k :: 0 <= k < n ==> entries[..n][k] == entries[k] && shares[..n][k] == shares[k];
      HalvesAddUp(entries[..n], shares[..n]);
    }
  }

  lemma FeeIsClose(itemsTotal: int, rate: real)
    ensures -0.5 <= PlatformFee(itemsTotal, rate) as real - ExactFee(itemsTotal, rate) <= 0.5
  {
  }

  lemma Distribute(a: int, b: int, rate: real)
    ensures (a + b) as real * rate == a as real * rate + b as real * rate
  {
  }

  /** The fees of the orders behind some entries, before rounding. */
  function Shares(entries: seq<LedgerEntry>, orders: seq<Order>, rate: real): seq<real> {
    seq(|entries|, k requires 0 <= k < |entries| => ExactFee(ItemsOf(entries[k], orders), rate))
  }

  lemma {:induction false} SharesAddUp(entries: seq<LedgerEntry>, orders: seq<Order>, rate: real)
    ensures SumReals(Shares(entries, orders, rate)) == Gross(entries, orders) as real * rate
  {
    if entries != [] {
      var n := |entries| - 1;
      SharesAddUp(entries[..n], orders, rate);
      var all, front := Shares(entries, orders, rate), Shares(entries[..n], orders, rate);
      forall k | 0 <= k < n ensures all[k] == front[k] {
        assert entries[..n][k] == entries[k];
      }
      assert all[..n] == front;
      Distribute(Gross(entries[..n], orders), ItemsOf(entries[n], orders), rate);
    }
  }

  /** A total within a half per entry of the rate on the gross. */
  predicate NearRate(total: int, entries: seq<LedgerEntry>, orders: seq<Order>, rate: real) {
    var gap := total as real - Gross(entries, orders) as real * rate;
    -0.5 * |entries| as real <= gap <= 0.5 * |entries| as real
  }

  lemma RoundingAddsUp(entries: seq<LedgerEntry>, orders: seq<Order>, rate: real)
    requires forall k :: 0 <= k < |entries| ==> ChargedAt(entries[k], orders, rate)
    ensures NearRate(Sum(entries, Settlements.AmountOf()), entries, orders, rate)
  {
    var shares := Shares(entries, orders, rate);
    forall k | 0 <= k < |entries| ensures -0.5 <= entries[k].amount as real - shares[k] <= 0.5 {
      assert ChargedAt(entries[k], orders, rate);
      FeeIsClose(ItemsOf(entries[k], orders), rate);
    }
    HalvesAddUp(entries, shares);
    SharesAddUp(entries, orders, rate);
  }

  lemma CapturedCharges(s: State, q: Settlements.Query, rate: real)
    requires Books.Valid(s)
    requires forall i :: i in Settlements.Captured(s.ledger, q) ==>
      s.ledger[i].refId < |s.orders| && PlacedAt(s.orders[s.ledger[i].refId], rate)
    ensures var entries := Settlements.EntriesAt(s.ledger, Settlements.Captured(s.ledger, q));
      forall k :: 0 <= k < |entries| ==> ChargedAt(entries[k], s.orders, rate)
  {
    var ids := Settlements.Captured(s.ledger, q);
    var entries := Settlements.EntriesAt(s.ledger, ids);
    forall k | 0 <= k < |entries| ensures ChargedAt(entries[k], s.orders, rate) {
      assert ids[k] in ids;
      assert Books.GoodEntry(s.ledger[ids[k]], s.orders, s.errands);
    }
  }

  /** A statement over k orders placed at one rate is within k / 2 of that rate on their total. */
  lemma StatementIsNearRate(s: State, q: Settlements.Query, rate: real)
    requires Books.Valid(s)
    requires forall i :: i in Settlements.Captured(s.ledger, q) ==>
      s.ledger[i].refId < |s.orders| && PlacedAt(s.orders[s.ledger[i].refId], rate)
    ensures var entries := Settlements.EntriesAt(s.ledger, Settlements.Captured(s.ledger, q));
      NearRate(Settlements.Statement(s.ledger, q).commissionTotal, entries, s.orders, rate)
  {
    var entries := Settlements.EntriesAt(s.ledger, Settlements.Captured(s.ledger, q));
    CapturedCharges(s, q, rate);
    RoundingAddsUp(entries, s.orders, rate);
  }
}
