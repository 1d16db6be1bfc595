/** Stock conservation: what leaves the shelf is held by orders, and comes back on cancellation. */
module Stock {
  import opened Wrappers
  import opened Documents
  import opened Sequences
  import opened Platform
  import opened Frames
  import opened Orders
  import opened OrderLogic
  import Deliveries
  import Payments
  import Catalog
  import Lifecycle
  import Accounts
  import Evolution

  function QtyFor(p: Id): OrderItem -> int {
    (item: OrderItem) => if item.productId == p then item.qty else 0
  }

  /** How much of a product a list of items asks for. */
  function QtyOf(items: seq<OrderItem>, p: Id): int {
    Sum(items, QtyFor(p))
  }

  function OneFor(p: Id): OrderItem -> int {
    (item: OrderItem) => if item.productId == p then 1 else 0
  }

  function Occurrences(items: seq<OrderItem>, p: Id): int {
    Sum(items, OneFor(p))
  }

  /** The quantity on the last line for a product: the save that is not overwritten. */
  function LastQty(items: seq<OrderItem>, p: Id): int {
    if items == [] then 0
    else if Occurrences(items[1..], p) > 0 then LastQty(items[1..], p)
    else QtyFor(p)(items[0])
  }

  predicate Tracked(products: seq<Option<Product>>, p: Id) {
    p < |products| && products[p].Some? && products[p].value.stock.Some?
  }

  function StockOf(products: seq<Option<Product>>, p: Id): int
    requires Tracked(products, p)
  {
    products[p].value.stock.value
  }

  function HeldIn(p: Id): Order -> int {
    (o: Order) => if o.status == OrderStatus.Cancelled then 0 else QtyOf(o.items, p)
  }

  /** The quantity of a product in all orders that are not cancelled. */
  function Held(orders: seq<Order>, p: Id): int {
    Sum(orders, HeldIn(p))
  }

  function SurplusIn(p: Id): Order -> int {
    (o: Order) => QtyOf(o.items, p) - LastQty(o.items, p)
  }

  /** What orders were promised beyond what was taken from the shelf for them. */
  function Surplus(orders: seq<Order>, p: Id): int {
    Sum(orders, SurplusIn(p))
  }

  predicate AllPositive(items: seq<OrderItem>) {
    forall i :: 0 <= i < |items| ==> items[i].qty >= 1
  }

  ghost predicate ShelvesOk(products: seq<Option<Product>>) {
    forall p :: 0 <= p < |products| && Tracked(products, p) ==> StockOf(products, p) >= 0
  }

  ghost predicate ItemsOk(orders: seq<Order>) {
    forall o :: 0 <= o < |orders| ==> AllPositive(orders[o].items)
  }

  ghost predicate Valid(s: State) {
    Accounts.Valid(s) && ShelvesOk(s.products) && ItemsOk(s.orders)
  }

  // ----- quantities on a list of items

  lemma {:induction false} QtyBounds(items: seq<OrderItem>, p: Id)
    requires AllPositive(items)
    ensures 0 <= LastQty(items, p) <= QtyOf(items, p)
    ensures Occurrences(items, p) >= 0
    ensures Occurrences(items, p) == 0 ==> QtyOf(items, p) == 0 && LastQty(items, p) == 0
    ensures Occurrences(items, p) > 0 ==> LastQty(items, p) >= 1
    ensures QtyOf(items, p) == LastQty(items, p) <==> Occurrences(items, p) <= 1
  {
    if items != [] {
      QtyBounds(items[1..], p);
      assert items == [items[0]] + items[1..];
      SumCons(items[0], items[1..], QtyFor(p));
      SumCons(items[0], items[1..], OneFor(p));
    }
  }

  // ----- taking from the shelf

  /** Every product that is on some line ends with its original stock less the last line's quantity. */
  lemma {:induction false} CommitEffect(loaded: seq<Option<Product>>, products: seq<Option<Product>>, storeId: Id,
                                        lines: seq<Line>, p: Id)
    requires |products| == |loaded| && Tracked(loaded, p) && Tracked(products, p)
    requires ValidateLines(loaded, storeId, lines).Success?
    requires forall i :: 0 <= i < |lines| ==> lines[i].qty >= 1
    ensures var items := ValidateLines(loaded, storeId, lines).value;
      var products' := Commit(products, Decrements(loaded, lines));
      && AllPositive(items)
      && (Occurrences(items, p) > 0 ==> LastQty(items, p) <= StockOf(loaded, p))
      && |products'| == |products| && Tracked(products', p)
      && StockOf(products', p) ==
         if Occurrences(items, p) > 0 then StockOf(loaded, p) - LastQty(items, p) else StockOf(products, p)
    decreases lines
  {
    if lines != [] {
      var items, decrements := ValidateLines(loaded, storeId, lines).value, Decrements(loaded, lines);
      var item := ValidateLine(loaded, storeId, lines[0]).value;
      var rest := ValidateLines(loaded, storeId, lines[1..]).value;
      assert items == [item] + rest && items[1..] == rest;
      SumCons(item, rest, OneFor(p));
      var found := GetProduct(loaded, lines[0].productId).value;
      if found.stock.Some? {
        var d := Decrement(lines[0].productId, found, lines[0].qty);
        assert decrements == [d] + Decrements(loaded, lines[1..]) && decrements[1..] == Decrements(loaded, lines[1..]);
        CommitEffect(loaded, Taken(products, d), storeId, lines[1..], p);
      } else {
        CommitEffect(loaded, products, storeId, lines[1..], p);
      }
      QtyBounds(rest, p);
    }
  }

  /** Products that are not tracked are not touched. */
  lemma {:induction false} CommitFrame(loaded: seq<Option<Product>>, products: seq<Option<Product>>, lines: seq<Line>,
                                       p: Id)
    requires |products| == |loaded| && p < |loaded| && !Tracked(loaded, p)
    ensures var products' := Commit(products, Decrements(loaded, lines));
      |products'| == |products| && products'[p] == products[p]
    decreases lines
  {
    if lines != [] {
      var decrements := Decrements(loaded, lines);
      var product := GetProduct(loaded, lines[0].productId);
      if product.Some? && product.value.stock.Some? {
        assert decrements[1..] == Decrements(loaded, lines[1..]);
        CommitFrame(loaded, Taken(products, decrements[0]), lines[1..], p);
      } else {
        CommitFrame(loaded, products, lines[1..], p);
      }
    }
  }

  // ----- giving back

  /** Every tracked product gets back all that was asked for, line by line; the others nothing. */
  lemma {:induction false} RestoreEffect(products: seq<Option<Product>>, items: seq<OrderItem>, p: Id)
    requires p < |products|
    ensures var products' := Restore(products, items);
      && |products'| == |products|
      && if Tracked(products, p)
         then Tracked(products', p) && StockOf(products', p) == StockOf(products, p) + QtyOf(items, p)
         else products'[p] == products[p]
    decreases items
  {
    if items != [] {
      RestoreEffect(GivenBack(products, items[0]), items[1..], p);
      assert items == [items[0]] + items[1..];
      SumCons(items[0], items[1..], QtyFor(p));
    }
  }

  // ----- nothing but stock

  /** The same product, tracked or not as before, up to its stock. */
  predicate SameButStock(a: Option<Product>, b: Option<Product>) {
    if a.None? then b.None?
    else b.Some? && b.value.(stock := a.value.stock) == a.value && (b.value.stock.Some? <==> a.value.stock.Some?)
  }

  predicate OnlyStockDiffers(a: seq<Option<Product>>, b: seq<Option<Product>>) {
    |a| == |b| && forall p :: 0 <= p < |a| ==> SameButStock(a[p], b[p])
  }

  lemma {:induction false} CommitMovesOnlyStock(loaded: seq<Option<Product>>, products: seq<Option<Product>>,
                                                lines: seq<Line>)
    requires OnlyStockDiffers(loaded, products)
    ensures OnlyStockDiffers(loaded, Commit(products, Decrements(loaded, lines)))
    decreases lines
  {
    if lines != [] {
      var product, decrements := GetProduct(loaded, lines[0].productId), Decrements(loaded, lines);
      if product.Some? && product.value.stock.Some? {
        assert decrements[1..] == Decrements(loaded, lines[1..]);
        CommitMovesOnlyStock(loaded, Taken(products, decrements[0]), lines[1..]);
      } else {
        CommitMovesOnlyStock(loaded, products, lines[1..]);
      }
    }
  }

  lemma {:induction false} RestoreMovesOnlyStock(loaded: seq<Option<Product>>, products: seq<Option<Product>>,
                                                 items: seq<OrderItem>)
    requires OnlyStockDiffers(loaded, products)
    ensures OnlyStockDiffers(loaded, Restore(products, items))
    decreases items
  {
    if items != [] {
      RestoreMovesOnlyStock(loaded, GivenBack(products, items[0]), items[1..]);
    }
  }

  /** Placing and cancelling orders move no price, no availability and no store of any product. */
  lemma OrdersMoveOnlyStock(s: State, user: User, storeId: Id, lines: seq<Line>, payBy: PaymentMethod, o: Id)
    ensures var r := Orders.CreateOrder(s, user, storeId, lines, payBy);
      r.Success? ==> OnlyStockDiffers(s.products, r.value.products)
    ensures var r := Orders.CancelOrder(s, user, o);
      r.Success? ==> OnlyStockDiffers(s.products, r.value.products)
  {
    CommitMovesOnlyStock(s.products, s.products, lines);
    if o < |s.orders| {
      RestoreMovesOnlyStock(s.products, s.products, s.orders[o].items);
    }
  }

  // ----- one call

  /** The seller's own edits of a product's stock. */
  predicate EditsStock(c: Call, p: Id) {
    || (c.DeleteProduct? && c.productId == p)
    || (c.UpdateProduct? && c.productId == p && c.update.stock.Some?)
  }

  /** Stock and held together, less the surplus. */
  function Balance(s: State, p: Id): int
    requires Tracked(s.products, p)
  {
    StockOf(s.products, p) + Held(s.orders, p) - Surplus(s.orders, p)
  }

  ghost predicate Kept(s: State, s': State, p: Id)
    requires Tracked(s.products, p)
  {
    Tracked(s'.products, p) && Balance(s', p) == Balance(s, p)
  }

  lemma CreateKeepsStock(s: State, user: User, storeId: Id, lines: seq<Line>, payBy: PaymentMethod)
    requires ShelvesOk(s.products) && ItemsOk(s.orders) && Orders.CreateOrder(s, user, storeId, lines, payBy).Success?
    requires forall i :: 0 <= i < |lines| ==> lines[i].qty >= 1
    ensures var s' := Orders.CreateOrder(s, user, storeId, lines, payBy).value;
      && ItemsOk(s'.orders) && ShelvesOk(s'.products)
      && forall p :: Tracked(s.products, p) ==> Kept(s, s', p)
  {
    var s' := Orders.CreateOrder(s, user, storeId, lines, payBy).value;
    var items := ValidateLines(s.products, storeId, lines).value;
    var order := s'.orders[|s.orders|];
    ValidatedArePositive(s.products, storeId, lines);
    CommitLength(s.products, Decrements(s.products, lines));
    forall p | 0 <= p < |s'.products| && Tracked(s'.products, p)
      ensures StockOf(s'.products, p) >= 0
    {
      if Tracked(s.products, p) {
        CommitEffect(s.products, s.products, storeId, lines, p);
      } else {
        CommitFrame(s.products, s.products, lines, p);
      }
    }
    forall p | Tracked(s.products, p) ensures Kept(s, s', p) {
      CommitEffect(s.products, s.products, storeId, lines, p);
      QtyBounds(items, p);
      SumSnoc(s.orders, order, HeldIn(p));
      SumSnoc(s.orders, order, SurplusIn(p));
    }
  }

  lemma {:induction false} ValidatedArePositive(products: seq<Option<Product>>, storeId: Id, lines: seq<Line>)
    requires ValidateLines(products, storeId, lines).Success?
    requires forall i :: 0 <= i < |lines| ==> lines[i].qty >= 1
    ensures AllPositive(ValidateLines(products, storeId, lines).value)
  {
    if lines != [] {
      ValidatedArePositive(products, storeId, lines[1..]);
    }
  }

  lemma {:induction false} CommitLength(products: seq<Option<Product>>, decrements: seq<Decrement>)
    ensures |Commit(products, decrements)| == |products|
    decreases decrements
  {
    if decrements != [] {
      CommitLength(Taken(products, decrements[0]), decrements[1..]);
    }
  }

  /** A change of one order's status and nothing else that stock depends on. */
  lemma StatusKeepsHeld(orders: seq<Order>, o: Id, order: Order, p: Id)
    requires o < |orders| && order.items == orders[o].items
    ensures Held(orders[o := order], p) == Held(orders, p) - HeldIn(p)(orders[o]) + HeldIn(p)(order)
    ensures Surplus(orders[o := order], p) == Surplus(orders, p)
  {
    SumUpdate(orders, o, order, HeldIn(p));
    SumUpdate(orders, o, order, SurplusIn(p));
  }

  lemma CancelKeepsStock(s: State, user: User, o: Id)
    requires ShelvesOk(s.products) && ItemsOk(s.orders) && Orders.CancelOrder(s, user, o).Success?
    ensures var s' := Orders.CancelOrder(s, user, o).value;
      && ItemsOk(s'.orders) && ShelvesOk(s'.products)
      && forall p :: Tracked(s.products, p) ==> Kept(s, s', p)
  {
    var s' := Orders.CancelOrder(s, user, o).value;
    var items := s.orders[o].items;
    assert AllPositive(items);
    if |s.products| > 0 { RestoreEffect(s.products, items, 0); } else { RestoreOfNothing(items); }
    forall p | 0 <= p < |s'.products| && Tracked(s'.products, p) ensures StockOf(s'.products, p) >= 0 {
      RestoreEffect(s.products, items, p);
      QtyBounds(items, p);
    }
    forall p | Tracked(s.products, p) ensures Kept(s, s', p) {
      RestoreEffect(s.products, items, p);
      StatusKeepsHeld(s.orders, o, s'.orders[o], p);
    }
  }

  lemma {:induction false} RestoreOfNothing(items: seq<OrderItem>)
    ensures Restore([], items) == []
  {
    if items != [] {
      assert GivenBack([], items[0]) == [];
      RestoreOfNothing(items[1..]);
    }
  }

  /** Any other update of one order: neither it nor its successor is cancelled, or both are. */
  lemma OtherUpdateKeepsStock(s: State, s': State, o: Id, order: Order)
    requires ShelvesOk(s.products) && ItemsOk(s.orders)
    requires o < |s.orders| && s'.orders == s.orders[o := order] && s'.products == s.products
    requires order.items == s.orders[o].items
    requires order.status == OrderStatus.Cancelled <==> s.orders[o].status == OrderStatus.Cancelled
    ensures ItemsOk(s'.orders) && ShelvesOk(s'.products)
    ensures forall p :: Tracked(s.products, p) ==> Kept(s, s', p)
  {
    assert AllPositive(s.orders[o].items);
    forall p | Tracked(s.products, p) ensures Kept(s, s', p) {
      StatusKeepsHeld(s.orders, o, order, p);
    }
  }

  lemma DeliveryKeepsStock(s: State, user: User, d: Id, status: DeliveryStatus, now: int)
    requires Valid(s) && Deliveries.AdvanceStatus(s, user, d, status, now).Success?
    ensures var s' := Deliveries.AdvanceStatus(s, user, d, status, now).value;
      && ItemsOk(s'.orders) && ShelvesOk(s'.products)
      && forall p :: Tracked(s.products, p) ==> Kept(s, s', p)
  {
    var s' := Deliveries.AdvanceStatus(s, user, d, status, now).value;
    var effect := Lifecycle.AdvanceDeliveryEffect(s, user, d, status, now);
    var o, order := Accounts.AdvanceDeliveryMoney(s, user, d, status, now);
    assert Lifecycle.Serves(s.deliveries[d], s.orders);
    assert effect == s'.orders[o] == order;
    OtherUpdateKeepsStock(s, s', o, order);
  }

  lemma WebhookKeepsStock(s: State, reference: Id, tx: string, status: string, signed: bool, now: int)
    requires Valid(s) && Payments.HandleWebhook(s, reference, tx, status, signed, now).Success?
    ensures var s' := Payments.HandleWebhook(s, reference, tx, status, signed, now).value;
      && ItemsOk(s'.orders) && ShelvesOk(s'.products)
      && forall p :: Tracked(s.products, p) ==> Kept(s, s', p)
  {
    var s' := Payments.HandleWebhook(s, reference, tx, status, signed, now).value;
    if s'.orders != s.orders {
      var k := Accounts.WebhookMoney(s, reference, tx, status, signed, now);
      OtherUpdateKeepsStock(s, s', reference, s'.orders[reference]);
    }
  }

  lemma MoveKeepsStock(s: State, c: Call)
    requires Valid(s) && Try(s, c).Success? && (c.AcceptOrder? || c.AdvanceOrder? || c.AssignOrder?)
    ensures ItemsOk(Step(s, c).orders) && ShelvesOk(Step(s, c).products)
    ensures forall p :: Tracked(s.products, p) ==> Kept(s, Step(s, c), p)
  {
    OtherUpdateKeepsStock(s, Step(s, c), c.orderId, Step(s, c).orders[c.orderId]);
  }

  lemma CatalogKeepsStock(s: State, c: Call)
    requires Valid(s) && WellFormed(c) && IsCatalogCall(c) && Try(s, c).Success?
    ensures ItemsOk(Step(s, c).orders) && ShelvesOk(Step(s, c).products)
    ensures forall p :: Tracked(s.products, p) && !EditsStock(c, p) ==> Kept(s, Step(s, c), p)
  {
    CatalogFrame(s, c);
    var s' := Step(s, c);
    forall p | 0 <= p < |s'.products| && Tracked(s'.products, p) ensures StockOf(s'.products, p) >= 0 {
      if p < |s.products| && Tracked(s.products, p) {
        assert StockOf(s.products, p) >= 0;
      }
    }
  }

  lemma ElsewhereKeepsStock(s: State, c: Call)
    requires Valid(s) && !IsOrderCall(c) && !IsCatalogCall(c)
    ensures ItemsOk(Step(s, c).orders) && ShelvesOk(Step(s, c).products)
    ensures forall p :: Tracked(s.products, p) ==> Kept(s, Step(s, c), p)
  {
    OrdersFrame(s, c);
    ProductsFrame(s, c);
  }

  lemma ProductsFrame(s: State, c: Call)
    requires !IsOrderCall(c) && !IsCatalogCall(c)
    ensures Step(s, c).products == s.products
  {
    if IsStoreCall(c) { StoreFrame(s, c); }
    else if IsProfileCall(c) { ProfileFrame(s, c); }
    else if IsSettlementCall(c) { SettlementFrame(s, c); }
    else if IsErrandCall(c) { ErrandFrame(s, c); }
    else if c.CreateReview? { ReviewFrame(s, c); }
    else { IntentFrame(s, c); }
  }

  lemma StepKeepsStock(s: State, c: Call)
    requires Valid(s) && WellFormed(c)
    ensures ItemsOk(Step(s, c).orders) && ShelvesOk(Step(s, c).products)
    ensures forall p :: Tracked(s.products, p) && !EditsStock(c, p) ==> Kept(s, Step(s, c), p)
  {
    if Try(s, c).Failure? {}
    else if IsCatalogCall(c) { CatalogKeepsStock(s, c); }
    else if c.CreateOrder? { CreateKeepsStock(s, c.user, c.storeId, c.lines, c.payBy); }
    else if c.CancelOrder? { CancelKeepsStock(s, c.user, c.orderId); }
    else if c.AdvanceDelivery? { DeliveryKeepsStock(s, c.user, c.deliveryId, c.deliveryStatus, c.now); }
    else if c.Webhook? { WebhookKeepsStock(s, c.reference, c.transactionId, c.wompiStatus, c.signed, c.now); }
    else if IsOrderCall(c) { MoveKeepsStock(s, c); }
    else { ElsewhereKeepsStock(s, c); }
  }

  // ----- whole runs

  predicate NeverEdits(calls: seq<Call>, p: Id) {
    forall i :: 0 <= i < |calls| ==> !EditsStock(calls[i], p)
  }

  lemma {:induction false} RunKeepsValid(s: State, calls: seq<Call>)
    requires Valid(s) && AllWellFormed(calls)
    ensures Valid(Run(s, calls))
  {
    if calls != [] {
      var front := calls[..|calls| - 1];
      assert forall i :: 0 <= i < |front| ==> front[i] == calls[i];
      RunKeepsValid(s, front);
      Accounts.StepKeepsValid(Run(s, front), calls[|calls| - 1]);
      StepKeepsStock(Run(s, front), calls[|calls| - 1]);
    }
  }

  /** In any run that leaves a product's stock to the orders, it never goes negative, and stock plus
      held less surplus is what it was. */
  lemma {:induction false} RunKeepsBalance(s: State, calls: seq<Call>, p: Id)
    requires Valid(s) && AllWellFormed(calls) && Tracked(s.products, p) && NeverEdits(calls, p)
    ensures Tracked(Run(s, calls).products, p) && StockOf(Run(s, calls).products, p) >= 0
    ensures Balance(Run(s, calls), p) == Balance(s, p)
  {
    RunKeepsValid(s, calls);
    if calls != [] {
      var front := calls[..|calls| - 1];
      assert forall i :: 0 <= i < |front| ==> front[i] == calls[i];
      RunKeepsBalance(s, front, p);
      RunKeepsValid(s, front);
      StepKeepsStock(Run(s, front), calls[|calls| - 1]);
    }
  }

  predicate ListedOnce(orders: seq<Order>, p: Id) {
    forall o :: 0 <= o < |orders| ==> Occurrences(orders[o].items, p) <= 1
  }

  /** Orders have no surplus exactly when none lists the product twice. */
  lemma SurplusIffListedTwice(orders: seq<Order>, p: Id)
    requires ItemsOk(orders)
    ensures Surplus(orders, p) >= 0
    ensures Surplus(orders, p) == 0 <==> ListedOnce(orders, p)
  {
    forall o | 0 <= o < |orders|
      ensures SurplusIn(p)(orders[o]) >= 0
      ensures SurplusIn(p)(orders[o]) == 0 <==> Occurrences(orders[o].items, p) <= 1
    {
      assert AllPositive(orders[o].items);
      QtyBounds(orders[o].items, p);
    }
    SumNonNegative(orders, SurplusIn(p));
  }

  lemma SurplusOfNewOrders(before: seq<Order>, after: seq<Order>, p: Id)
    requires Evolution.OrdersEvolve(before, after)
    ensures Surplus(after, p) == Surplus(before, p) + Surplus(after[|before|..], p)
  {
    var n := |before|;
    assert after == after[..n] + after[n..];
    SumConcat(after[..n], after[n..], SurplusIn(p));
    forall i | 0 <= i < n ensures SurplusIn(p)(after[..n][i]) == SurplusIn(p)(before[i]) {
      assert Evolution.OrderEvolves(before[i], after[i]);
    }
    SumPointwise(after[..n], before, SurplusIn(p));
  }

  /** Stock is conserved over a run exactly when no order placed in it lists the product twice. */
  lemma StockConserved(s: State, calls: seq<Call>, p: Id)
    requires Valid(s) && AllWellFormed(calls) && Tracked(s.products, p) && NeverEdits(calls, p)
    ensures var s' := Run(s, calls);
      && |s.orders| <= |s'.orders|
      && Tracked(s'.products, p) && StockOf(s'.products, p) >= 0
      && StockOf(s'.products, p) + Held(s'.orders, p) >= StockOf(s.products, p) + Held(s.orders, p)
      && (StockOf(s'.products, p) + Held(s'.orders, p) == StockOf(s.products, p) + Held(s.orders, p) <==>
          ListedOnce(s'.orders[|s.orders|..], p))
  {
    RunKeepsBalance(s, calls, p);
    RunKeepsValid(s, calls);
    Evolution.RunEvolves(s, calls);
    var s' := Run(s, calls);
    var placed := s'.orders[|s.orders|..];
    SurplusOfNewOrders(s.orders, s'.orders, p);
    assert ItemsOk(placed);
    SurplusIffListedTwice(placed, p);
  }

  // ----- what the caller can check

  function LineFor(p: Id): Line -> int {
    (line: Line) => if line.productId == p then 1 else 0
  }

  /** The number of lines of a request that name a product. */
  function TimesListed(lines: seq<Line>, p: Id): int {
    Sum(lines, LineFor(p))
  }

  lemma {:induction false} ItemsMirrorLines(products: seq<Option<Product>>, storeId: Id, lines: seq<Line>, p: Id)
    requires ValidateLines(products, storeId, lines).Success?
    ensures Occurrences(ValidateLines(products, storeId, lines).value, p) == TimesListed(lines, p)
  {
    if lines != [] {
      ItemsMirrorLines(products, storeId, lines[1..], p);
      assert lines == [lines[0]] + lines[1..];
      SumCons(lines[0], lines[1..], LineFor(p));
      SumCons(ValidateLine(products, storeId, lines[0]).value, ValidateLines(products, storeId, lines[1..]).value,
        OneFor(p));
    }
  }

  /** An accepted request keeps stock and held together for a product exactly when it names it at most once. */
  lemma CreateConservesIffListedOnce(s: State, user: User, storeId: Id, lines: seq<Line>, payBy: PaymentMethod, p: Id)
    requires ShelvesOk(s.products) && ItemsOk(s.orders) && Tracked(s.products, p)
    requires Orders.CreateOrder(s, user, storeId, lines, payBy).Success?
    requires forall i :: 0 <= i < |lines| ==> lines[i].qty >= 1
    ensures var s' := Orders.CreateOrder(s, user, storeId, lines, payBy).value;
      && Tracked(s'.products, p)
      && (StockOf(s'.products, p) + Held(s'.orders, p) == StockOf(s.products, p) + Held(s.orders, p)
          <==> TimesListed(lines, p) <= 1)
  {
    var s' := Orders.CreateOrder(s, user, storeId, lines, payBy).value;
    var order := s'.orders[|s.orders|];
    CreateKeepsStock(s, user, storeId, lines, payBy);
    assert Kept(s, s', p);
    SumSnoc(s.orders, order, SurplusIn(p));
    ItemsMirrorLines(s.products, storeId, lines, p);
    ValidatedArePositive(s.products, storeId, lines);
    QtyBounds(order.items, p);
  }

  const SHOPPER := User(7, Client)

  /** One open store with five units of one product. */
  function FiveOnTheShelf(settings: Settings): State {
    EmptyState(settings).(
      stores := [Store(1, StoreStatus.Open, DeliveryConfig(0, 0, None), None, Rating(0.0, 0))],
      products := [Some(Product(0, 10, Some(5), true))])
  }

  const SIX_ON_TWO_LINES := [Line(0, 3), Line(0, 3)]

  lemma AcceptOneMore(products: seq<Option<Product>>, storeId: Id, line: Line, lines: seq<Line>)
    requires ValidateLine(products, storeId, line).Success? && ValidateLines(products, storeId, lines).Success?
    ensures ValidateLines(products, storeId, [line] + lines) ==
      Success([ValidateLine(products, storeId, line).value] + ValidateLines(products, storeId, lines).value)
  {
    assert ([line] + lines)[1..] == lines;
  }

  lemma TwoLinesAccepted(settings: Settings)
    ensures var s, item := FiveOnTheShelf(settings), OrderItem(0, 10, 3, 30);
      var r := Orders.CreateOrder(s, SHOPPER, 0, SIX_ON_TWO_LINES, Cash);
      && r.Success? && |r.value.orders| == 1 && r.value.orders[0].items == [item, item]
      && r.value.orders[0].clientId == SHOPPER.id && r.value.orders[0].status == OrderStatus.Pending
      && r.value.products == [Some(Product(0, 10, Some(2), true))]
  {
    var products, lines, item := FiveOnTheShelf(settings).products, SIX_ON_TWO_LINES, OrderItem(0, 10, 3, 30);
    assert lines[1..] == [Line(0, 3)] && lines[1..][1..] == [];
    assert ValidateLine(products, 0, Line(0, 3)) == Success(item);
    AcceptOneMore(products, 0, Line(0, 3), []);
    assert [Line(0, 3)] + [] == [Line(0, 3)];
    AcceptOneMore(products, 0, Line(0, 3), [Line(0, 3)]);
    assert [Line(0, 3)] + [Line(0, 3)] == lines;
    SumCons(item, [], Subtotal());
    SumCons(item, [item], Subtotal());
    assert [item] + [] == [item] && [item] + [item] == [item, item];
    var d := Decrement(0, products[0].value, 3);
    assert Decrements(products, lines[1..]) == [d] + [];
    assert Decrements(products, lines) == [d] + [d];
    assert ([d] + [d])[1..] == [d];
    assert Commit(Taken(products, d), [d]) == Commit(Taken(Taken(products, d), d), []);
  }

  /** Three and three of a product with five in stock: accepted, and after cancelling there are eight. */
  lemma DuplicateLinesInventStock(settings: Settings)
    ensures var s := FiveOnTheShelf(settings);
      var placed := Orders.CreateOrder(s, SHOPPER, 0, SIX_ON_TWO_LINES, Cash);
      && Valid(s) && Tracked(s.products, 0) && StockOf(s.products, 0) == 5
      && placed.Success?
      && var cancelled := Orders.CancelOrder(placed.value, SHOPPER, 0);
      && cancelled.Success? && Tracked(cancelled.value.products, 0) && StockOf(cancelled.value.products, 0) == 8
  {
    TwoLinesAccepted(settings);
    var item := OrderItem(0, 10, 3, 30);
    var s1 := Orders.CreateOrder(FiveOnTheShelf(settings), SHOPPER, 0, SIX_ON_TWO_LINES, Cash).value;
    RestoreEffect(s1.products, [item, item], 0);
    SumCons(item, [], QtyFor(0));
    SumCons(item, [item], QtyFor(0));
    assert [item] + [] == [item] && [item] + [item] == [item, item];
  }
}
