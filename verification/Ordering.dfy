/** When an order is accepted, what it then says, and why it is refused otherwise. */
module Ordering {
  import opened Wrappers
  import opened Documents
  import opened Sequences
  import opened Rounding
  import opened Orders

  /** The store has such a product. */
  predicate Offers(products: seq<Option<Product>>, storeId: Id, id: Id) {
    id < |products| && products[id].Some? && products[id].value.storeId == storeId
  }

  /** A line that can be served: a product of the store, available, and in stock if it is tracked. */
  predicate Orderable(products: seq<Option<Product>>, storeId: Id, line: Line) {
    && Offers(products, storeId, line.productId)
    && var product := products[line.productId].value;
    && product.isAvailable && (product.stock.Some? ==> line.qty <= product.stock.value)
  }

  predicate AllOrderable(products: seq<Option<Product>>, storeId: Id, lines: seq<Line>) {
    forall i :: 0 <= i < |lines| ==> Orderable(products, storeId, lines[i])
  }

  /** What is wrong with a line: an unknown product before an unavailable one before a short one. */
  predicate Explains(error: Error, products: seq<Option<Product>>, storeId: Id, line: Line) {
    match error
    case InvalidProduct => !Offers(products, storeId, line.productId)
    case ProductUnavailable =>
      Offers(products, storeId, line.productId) && !products[line.productId].value.isAvailable
    case InsufficientStock =>
      && Offers(products, storeId, line.productId)
      && var product := products[line.productId].value;
      && product.isAvailable && product.stock.Some? && line.qty > product.stock.value
    case _ => false
  }

  /** The error is that of the first line that cannot be served. */
  predicate FirstFault(error: Error, products: seq<Option<Product>>, storeId: Id, lines: seq<Line>) {
    exists i :: 0 <= i < |lines| && Explains(error, products, storeId, lines[i])
                && AllOrderable(products, storeId, lines[..i])
  }

  /** Price times quantity, and 0 for what is not there. */
  function Worth(products: seq<Option<Product>>): Line -> int {
    (line: Line) =>
      if line.productId < |products| && products[line.productId].Some?
      then products[line.productId].value.price * line.qty else 0
  }

  /** An item is a line with the product's current price. */
  predicate Snapshot(item: OrderItem, products: seq<Option<Product>>, line: Line) {
    && line.productId < |products| && products[line.productId].Some?
    && item.productId == line.productId && item.qty == line.qty
    && item.price == products[line.productId].value.price
    && item.subtotal == item.price * item.qty
  }

  predicate Snapshots(items: seq<OrderItem>, products: seq<Option<Product>>, lines: seq<Line>) {
    |items| == |lines| && forall k :: 0 <= k < |lines| ==> Snapshot(items[k], products, lines[k])
  }

  lemma LineIff(products: seq<Option<Product>>, storeId: Id, line: Line)
    ensures var r := ValidateLine(products, storeId, line);
      && (r.Success? <==> Orderable(products, storeId, line))
      && (r.Success? ==> Snapshot(r.value, products, line) && r.value.subtotal == Worth(products)(line))
      && (r.Failure? ==> Explains(r.error, products, storeId, line))
  {
  }

  lemma OneMoreOrderable(products: seq<Option<Product>>, storeId: Id, lines: seq<Line>)
    requires lines != []
    ensures AllOrderable(products, storeId, lines) <==>
      Orderable(products, storeId, lines[0]) && AllOrderable(products, storeId, lines[1..])
  {
    assert lines == [lines[0]] + lines[1..];
  }

  lemma LaterFault(error: Error, products: seq<Option<Product>>, storeId: Id, lines: seq<Line>)
    requires lines != [] && Orderable(products, storeId, lines[0]) && FirstFault(error, products, storeId, lines[1..])
    ensures FirstFault(error, products, storeId, lines)
  {
    var i :| 0 <= i < |lines[1..]| && Explains(error, products, storeId, lines[1..][i])
             && AllOrderable(products, storeId, lines[1..][..i]);
    assert lines[..i + 1][1..] == lines[1..][..i];
    OneMoreOrderable(products, storeId, lines[..i + 1]);
    assert Explains(error, products, storeId, lines[i + 1]);
  }

  /** Lines are valid exactly when each can be served; the items are their snapshots, in order. */
  lemma {:induction false} LinesIff(products: seq<Option<Product>>, storeId: Id, lines: seq<Line>)
    ensures var r := ValidateLines(products, storeId, lines);
      && (r.Success? <==> AllOrderable(products, storeId, lines))
      && (r.Success? ==> Snapshots(r.value, products, lines)
                         && Sum(r.value, Subtotal()) == Sum(lines, Worth(products)))
      && (r.Failure? ==> FirstFault(r.error, products, storeId, lines))
  {
    if lines != [] {
      var line, rest := lines[0], lines[1..];
      assert lines == [line] + rest;
      LinesIff(products, storeId, rest);
      LineIff(products, storeId, line);
      OneMoreOrderable(products, storeId, lines);
      var head, tail := ValidateLine(products, storeId, line), ValidateLines(products, storeId, rest);
      if head.Failure? {
        assert lines[..0] == [];
      } else if tail.Failure? {
        LaterFault(tail.error, products, storeId, lines);
      } else {
        SumCons(head.value, tail.value, Subtotal());
        SumCons(line, rest, Worth(products));
      }
    }
  }

  /** What validation promises: all lines can be served and are snapshot, or the first that cannot is named. */
  predicate Validated(products: seq<Option<Product>>, storeId: Id, lines: seq<Line>, r: Result<seq<OrderItem>, Error>) {
    match r
    case Success(items) => AllOrderable(products, storeId, lines) && Snapshots(items, products, lines)
    case Failure(error) => FirstFault(error, products, storeId, lines) && !AllOrderable(products, storeId, lines)
  }

  lemma LinesAreValidated(products: seq<Option<Product>>, storeId: Id, lines: seq<Line>)
    ensures Validated(products, storeId, lines, ValidateLines(products, storeId, lines))
  {
    LinesIff(products, storeId, lines);
  }

  /** The integer nearest to a real, and the even one of two. */
  predicate Nearest(n: int, x: real) {
    -0.5 <= n as real - x <= 0.5 && (n as real - x == 0.5 || n as real - x == -0.5 ==> n % 2 == 0)
  }

  /** What a store charges for items: delivery unless it is free, and the commission at a rate. */
  predicate Charges(amounts: OrderAmounts, store: Store, rate: real, itemsTotal: int) {
    && amounts.itemsTotal == itemsTotal
    && (store.delivery.freeOver.Some? && itemsTotal >= store.delivery.freeOver.value ==> amounts.deliveryFee == 0)
    && (store.delivery.freeOver.None? || itemsTotal < store.delivery.freeOver.value ==>
          amounts.deliveryFee == store.delivery.baseFee)
    && Nearest(amounts.platformFee, itemsTotal as real * rate)
    && amounts.discount == 0
    && amounts.total == itemsTotal + amounts.deliveryFee
  }

  predicate Accepts(s: State, storeId: Id, lines: seq<Line>) {
    && storeId < |s.stores| && s.stores[storeId].status == StoreStatus.Open
    && AllOrderable(s.products, storeId, lines)
    && Sum(lines, Worth(s.products)) >= s.stores[storeId].delivery.minOrder
  }

  /** A request is accepted exactly when the store is open, every line can be served, and together they
      reach the minimum; refused, it names the first thing that is wrong. */
  lemma CreateIff(s: State, user: User, storeId: Id, lines: seq<Line>, payBy: PaymentMethod)
    ensures var r := CreateOrder(s, user, storeId, lines, payBy);
      && (r.Success? <==> Accepts(s, storeId, lines))
      && (r.Failure? ==>
          if storeId >= |s.stores| then r.error == NotFound
          else if s.stores[storeId].status == Suspended then r.error == StoreUnavailable
          else if s.stores[storeId].status == StoreStatus.Closed then r.error == StoreNotOpen
          else if !AllOrderable(s.products, storeId, lines) then FirstFault(r.error, s.products, storeId, lines)
          else r.error == BelowMinOrder)
  {
    LinesIff(s.products, storeId, lines);
  }

  /** One order is added, the caller's, for the store and method asked for, pending, unpaid and
      unassigned, with a snapshot of each line; nothing else changes but the stock. */
  lemma CreateEffect(s: State, user: User, storeId: Id, lines: seq<Line>, payBy: PaymentMethod)
    requires CreateOrder(s, user, storeId, lines, payBy).Success?
    ensures var s' := CreateOrder(s, user, storeId, lines, payBy).value;
      && |s'.orders| == |s.orders| + 1
      && s' == s.(products := s'.products, orders := s.orders + [s'.orders[|s.orders|]])
      && var order := s'.orders[|s.orders|];
      && order.clientId == user.id && order.storeId == storeId && order.payBy == payBy
      && order.status == OrderStatus.Pending && order.history == [StatusEvent(OrderStatus.Pending, user.id)]
      && order.paymentId.None? && order.collaboratorId.None?
      && Snapshots(order.items, s.products, lines)
      && storeId < |s.stores|
      && var store := s.stores[storeId];
      && var rate := if store.commissionRate.Some? then store.commissionRate.value
                     else s.settings.defaultCommissionRate;
      && Charges(order.amounts, store, rate, Sum(lines, Worth(s.products)))
  {
    LinesIff(s.products, storeId, lines);
  }
}
