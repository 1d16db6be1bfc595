/** The services as they run: documents are loaded as copies, changed, and saved one at a time. Every
    call ends in the state its specification gives, and a call that raises leaves the database alone. */
module Backend {
  import opened Wrappers
  import opened Documents
  import opened Sequences
  import OrderLogic
  import DeliveryLogic
  import PaymentLogic
  import Orders
  import Ordering
  import Payments
  import Deliveries
  import Settlements
  import ReviewLogic
  import Reviews
  import Collaborators
  import Subscriptions
  import Errands
  import Stores
  import Catalog

  /** A call did what its specification says: the same error and no change, or the specified state. */
  ghost predicate Meets<T>(r: Result<T, Error>, specified: Result<State, Error>, before: State, after: State) {
    match specified
    case Success(s) => r.Success? && after == s
    case Failure(error) => r == Failure(error) && after == before
  }

  /** The items validated so far in front of the outcome for the remaining lines. */
  ghost function Prepend(items: seq<OrderItem>, r: Result<seq<OrderItem>, Error>): Result<seq<OrderItem>, Error> {
    match r
    case Success(rest) => Success(items + rest)
    case Failure(error) => Failure(error)
  }

  lemma PrependNothing(r: Result<seq<OrderItem>, Error>)
    ensures Prepend([], r) == r
  {
    if r.Success? {
      assert [] + r.value == r.value;
    }
  }

  /** One more line validated. */
  lemma NextLine(items: seq<OrderItem>, products: seq<Option<Product>>, storeId: Id, lines: seq<Orders.Line>, i: nat)
    requires i < |lines|
    ensures Prepend(items, Orders.ValidateLines(products, storeId, lines[i..])) ==
      match Orders.ValidateLine(products, storeId, lines[i])
      case Success(item) => Prepend(items + [item], Orders.ValidateLines(products, storeId, lines[i + 1..]))
      case Failure(error) => Failure(error)
  {
    assert lines[i..][1..] == lines[i + 1..];
    var line, rest := Orders.ValidateLine(products, storeId, lines[i]),
      Orders.ValidateLines(products, storeId, lines[i + 1..]);
    if line.Success? && rest.Success? {
      assert items + ([line.value] + rest.value) == (items + [line.value]) + rest.value;
    }
  }

  /** One more line's decrement collected. */
  lemma NextDecrement(products: seq<Option<Product>>, lines: seq<Orders.Line>, i: nat)
    requires i < |lines|
    ensures Orders.Decrements(products, lines[i..]) ==
      var product := Orders.GetProduct(products, lines[i].productId);
      (if product.Some? && product.value.stock.Some?
       then [Orders.Decrement(lines[i].productId, product.value, lines[i].qty)] else [])
      + Orders.Decrements(products, lines[i + 1..])
  {
    assert lines[i..][1..] == lines[i + 1..];
  }

  class Services {
    const settings: Settings
    var stores: seq<Store>
    var products: seq<Option<Product>>
    var orders: seq<Order>
    var deliveries: seq<Delivery>
    var profiles: map<Id, Profile>
    var payments: seq<Payment>
    var ledger: seq<LedgerEntry>
    var settlements: seq<Settlement>
    var subscriptions: map<Id, Subscription>
    var errands: seq<Errand>
    var reviews: seq<Review>

    ghost function Db(): State
      reads this
    {
      State(settings, stores, products, orders, deliveries, profiles, payments, ledger, settlements,
            subscriptions, errands, reviews)
    }

    constructor (settings: Settings)
      ensures Db() == EmptyState(settings)
    {
      this.settings := settings;
      stores, products, orders, deliveries, profiles, payments := [], [], [], [], map[], [];
      ledger, settlements, subscriptions, errands, reviews := [], [], map[], [], [];
    }

    // ----- app/stores/service.py, app/catalog/service.py

    method CreateStore(user: User, delivery: DeliveryConfig) returns (r: Result<Id, Error>)
      modifies this
      ensures Meets(r, Stores.CreateStore(old(Db()), user, delivery), old(Db()), Db())
    {
      if user.role != Seller { return Failure(Forbidden); }
      r := Success(|stores|);
      stores := stores + [Store(user.id, StoreStatus.Closed, delivery, None, Rating(0.0, 0))];
    }

    method UpdateStore(user: User, storeId: Id, delivery: DeliveryConfig) returns (r: Result<(), Error>)
      modifies this
      ensures Meets(r, Stores.UpdateStore(old(Db()), user, storeId, delivery), old(Db()), Db())
    {
      if storeId >= |stores| { return Failure(NotFound); }
      var store := stores[storeId];
      if store.ownerId != user.id && !user.IsAdmin() { return Failure(Forbidden); }
      stores := stores[storeId := store.(delivery := delivery)];
      r := Success(());
    }

    method SetStoreStatus(user: User, storeId: Id, status: StoreStatus) returns (r: Result<(), Error>)
      modifies this
      ensures Meets(r, Stores.SetStatus(old(Db()), user, storeId, status), old(Db()), Db())
    {
      if storeId >= |stores| { return Failure(NotFound); }
      var store := stores[storeId];
      var involvesSuspension := status == Suspended || store.status == Suspended;
      if involvesSuspension && !user.IsAdmin() { return Failure(Forbidden); }
      if !involvesSuspension && store.ownerId != user.id && !user.IsAdmin() { return Failure(Forbidden); }
      stores := stores[storeId := store.(status := status)];
      r := Success(());
    }

    method CreateProduct(user: User, storeId: Id, price: int, stock: Option<int>) returns (r: Result<Id, Error>)
      modifies this
      ensures Meets(r, Catalog.CreateProduct(old(Db()), user, storeId, price, stock), old(Db()), Db())
    {
      if storeId >= |stores| { return Failure(NotFound); }
      if stores[storeId].ownerId != user.id && !user.IsAdmin() { return Failure(Forbidden); }
      r := Success(|products|);
      products := products + [Some(Product(storeId, price, stock, true))];
    }

    /** Sets the fields the request set, one by one, and saves the product. */
    method UpdateProduct(user: User, productId: Id, update: Catalog.ProductUpdate) returns (r: Result<(), Error>)
      modifies this
      ensures Meets(r, Catalog.UpdateProduct(old(Db()), user, productId, update), old(Db()), Db())
    {
      var found := Orders.GetProduct(products, productId);
      if found.None? { return Failure(NotFound); }
      var product := found.value;
      if product.storeId >= |stores| { return Failure(NotFound); }
      if stores[product.storeId].ownerId != user.id && !user.IsAdmin() { return Failure(Forbidden); }
      if update.price.Some? { product := product.(price := update.price.value); }
      if update.stock.Some? { product := product.(stock := update.stock.value); }
      if update.isAvailable.Some? { product := product.(isAvailable := update.isAvailable.value); }
      SaveProduct(productId, product);
      r := Success(());
    }

    method DeleteProduct(user: User, productId: Id) returns (r: Result<(), Error>)
      modifies this
      ensures Meets(r, Catalog.DeleteProduct(old(Db()), user, productId), old(Db()), Db())
    {
      var found := Orders.GetProduct(products, productId);
      if found.None? { return Failure(NotFound); }
      if found.value.storeId >= |stores| { return Failure(NotFound); }
      if stores[found.value.storeId].ownerId != user.id && !user.IsAdmin() { return Failure(Forbidden); }
      products := products[productId := None];
      r := Success(());
    }

    // ----- app/orders/service.py

    /** Validates every line against the stock as it stands, then saves the decremented copies. */
    method CreateOrder(user: User, storeId: Id, lines: seq<Orders.Line>, payBy: PaymentMethod)
      returns (r: Result<Id, Error>)
      modifies this
      ensures Meets(r, Orders.CreateOrder(old(Db()), user, storeId, lines, payBy), old(Db()), Db())
      ensures r.Success? <==> Ordering.Accepts(old(Db()), storeId, lines)
      ensures r.Success? ==> r.value == |old(orders)|
    {
      Ordering.CreateIff(Db(), user, storeId, lines, payBy);
      if storeId >= |stores| { return Failure(NotFound); }
      var store := stores[storeId];
      if store.status == Suspended { return Failure(StoreUnavailable); }
      if store.status != StoreStatus.Open { return Failure(StoreNotOpen); }

      var validated := Validate(storeId, lines);
      if validated.Failure? { return Failure(validated.error); }
      var (items, toDecrement) := validated.value;

      var itemsTotal := Sum(items, Orders.Subtotal());
      if itemsTotal < store.delivery.minOrder { return Failure(BelowMinOrder); }
      var rate := if store.commissionRate.Some? then store.commissionRate.value else settings.defaultCommissionRate;
      var amounts := OrderLogic.ComputeAmounts(itemsTotal, store.delivery.baseFee, store.delivery.freeOver, rate);

      CommitStock(toDecrement);

      var order := Order(user.id, storeId, items, amounts, OrderStatus.Pending, [], payBy, None, None);
      r := Success(|orders|);
      orders := orders + [Orders.RecordStatus(order, OrderStatus.Pending, user.id)];
    }

    /** Checks the lines in order, snapshots prices, and notes what to take from which copy. */
    method Validate(storeId: Id, lines: seq<Orders.Line>)
      returns (r: Result<(seq<OrderItem>, seq<Orders.Decrement>), Error>)
      ensures match Orders.ValidateLines(products, storeId, lines)
              case Success(items) => r == Success((items, Orders.Decrements(products, lines)))
              case Failure(error) => r == Failure(error)
      ensures Ordering.Validated(products, storeId, lines, if r.Success? then Success(r.value.0) else Failure(r.error))
    {
      Ordering.LinesAreValidated(products, storeId, lines);
      var items: seq<OrderItem> := [];
      var toDecrement: seq<Orders.Decrement> := [];
      PrependNothing(Orders.ValidateLines(products, storeId, lines));
      assert lines[0..] == lines;
      for i := 0 to |lines|
        invariant Orders.ValidateLines(products, storeId, lines) ==
          Prepend(items, Orders.ValidateLines(products, storeId, lines[i..]))
        invariant Orders.Decrements(products, lines) == toDecrement + Orders.Decrements(products, lines[i..])
      {
        var line := lines[i];
        NextLine(items, products, storeId, lines, i);
        NextDecrement(products, lines, i);
        var product := Orders.GetProduct(products, line.productId);
        if product.None? || product.value.storeId != storeId { return Failure(InvalidProduct); }
        if !product.value.isAvailable { return Failure(ProductUnavailable); }
        if product.value.stock.Some? && line.qty > product.value.stock.value { return Failure(InsufficientStock); }
        items := items + [OrderItem(line.productId, product.value.price, line.qty, product.value.price * line.qty)];
        if product.value.stock.Some? {
          toDecrement := toDecrement + [Orders.Decrement(line.productId, product.value, line.qty)];
        }
      }
      assert lines[|lines|..] == [] && items + [] == items && toDecrement + [] == toDecrement;
      r := Success((items, toDecrement));
    }

    /** Takes each quantity off the copy loaded while validating and saves the copy. */
    method CommitStock(toDecrement: seq<Orders.Decrement>)
      modifies this`products
      ensures products == Orders.Commit(old(products), toDecrement)
    {
      for i := 0 to |toDecrement|
        invariant Orders.Commit(products, toDecrement[i..]) == Orders.Commit(old(products), toDecrement)
      {
        var d := toDecrement[i];
        assert toDecrement[i..][0] == d && toDecrement[i..][1..] == toDecrement[i + 1..];
        var stock := if d.loaded.stock.Some? then d.loaded.stock.value else 0;
        SaveProduct(d.productId, d.loaded.(stock := Some(stock - d.qty)));
      }
    }

    /** Replaces the whole stored product. */
    method SaveProduct(id: Id, product: Product)
      modifies this`products
      ensures products == if id < |old(products)| then old(products)[id := Some(product)] else old(products)
    {
      if id < |products| {
        products := products[id := Some(product)];
      }
    }

    method AcceptOrder(user: User, orderId: Id) returns (r: Result<(), Error>)
      modifies this
      ensures Meets(r, Orders.AcceptOrder(old(Db()), user, orderId), old(Db()), Db())
    {
      if orderId >= |orders| { return Failure(NotFound); }
      var order := orders[orderId];
      if order.storeId >= |stores| { return Failure(NotFound); }
      if stores[order.storeId].ownerId != user.id && !user.IsAdmin() { return Failure(Forbidden); }
      if order.status != OrderStatus.Pending { return Failure(InvalidTransition); }
      orders := orders[orderId := Orders.RecordStatus(order, OrderStatus.Accepted, user.id)];
      r := Success(());
    }

    method AdvanceOrder(user: User, orderId: Id, target: OrderStatus) returns (r: Result<(), Error>)
      modifies this
      ensures Meets(r, Orders.AdvanceStatus(old(Db()), user, orderId, target), old(Db()), Db())
    {
      if orderId >= |orders| { return Failure(NotFound); }
      var order := orders[orderId];
      if order.storeId >= |stores| { return Failure(NotFound); }
      if stores[order.storeId].ownerId != user.id && !user.IsAdmin() { return Failure(Forbidden); }
      if OrderLogic.NextSellerStatus(order.status) != Some(target) { return Failure(InvalidTransition); }
      orders := orders[orderId := Orders.RecordStatus(order, target, user.id)];
      r := Success(());
    }

    /** Gives the stock back item by item, loading each product afresh. */
    method CancelOrder(user: User, orderId: Id) returns (r: Result<(), Error>)
      modifies this
      ensures Meets(r, Orders.CancelOrder(old(Db()), user, orderId), old(Db()), Db())
    {
      if orderId >= |orders| { return Failure(NotFound); }
      var order := orders[orderId];
      var isClient := order.clientId == user.id;
      var isOwner := order.storeId < |stores| && stores[order.storeId].ownerId == user.id;
      if !(isClient || isOwner || user.IsAdmin()) { return Failure(Forbidden); }
      if !OrderLogic.CanCancel(order.status) { return Failure(InvalidTransition); }

      for i := 0 to |order.items|
        invariant Db() == old(Db()).(products := products)
        invariant Orders.Restore(products, order.items[i..]) == Orders.Restore(old(products), order.items)
      {
        var item := order.items[i];
        assert order.items[i..][0] == item && order.items[i..][1..] == order.items[i + 1..];
        var product := Orders.GetProduct(products, item.productId);
        if product.Some? && product.value.stock.Some? {
          SaveProduct(item.productId, product.value.(stock := Some(product.value.stock.value + item.qty)));
        }
      }

      orders := orders[orderId := Orders.RecordStatus(order, OrderStatus.Cancelled, user.id)];
      r := Success(());
    }

    // ----- app/delivery/service.py

    method AssignOrder(user: User, orderId: Id, near: seq<Id>) returns (r: Result<Id, Error>)
      modifies this
      ensures Meets(r, Deliveries.AssignOrder(old(Db()), user, orderId, near), old(Db()), Db())
      ensures r.Success? ==> r.value == |old(deliveries)|
    {
      if orderId >= |orders| { return Failure(NotFound); }
      var order := orders[orderId];
      if order.storeId >= |stores| { return Failure(Forbidden); }
      if stores[order.storeId].ownerId != user.id && !user.IsAdmin() { return Failure(Forbidden); }
      if order.status != OrderStatus.Ready { return Failure(OrderNotReady); }
      if Deliveries.DeliveryByRef(deliveries, OrderRef, orderId).Some? { return Failure(AlreadyAssigned); }
      var candidates := Deliveries.FindAvailable(profiles, near);
      if candidates == [] { return Failure(NoCollaborator); }
      var chosen := candidates[0];
      assert chosen in candidates;

      r := Success(|deliveries|);
      deliveries := deliveries + [Delivery(OrderRef, orderId, chosen, DeliveryStatus.Assigned)];
      order := order.(collaboratorId := Some(chosen));
      orders := orders[orderId := Orders.RecordStatus(order, OrderStatus.Assigned, user.id)];
      profiles := profiles[chosen := profiles[chosen].(availability := OnDelivery)];
    }

    /** Moves the delivery, then the order without looking at its status, then the money and the courier. */
    method AdvanceDelivery(user: User, deliveryId: Id, target: DeliveryStatus, now: int) returns (r: Result<(), Error>)
      modifies this
      ensures Meets(r, Deliveries.AdvanceStatus(old(Db()), user, deliveryId, target, now), old(Db()), Db())
    {
      if deliveryId >= |deliveries| { return Failure(NotFound); }
      var delivery := deliveries[deliveryId];
      if delivery.collaboratorId != user.id { return Failure(Forbidden); }
      if DeliveryLogic.NextDeliveryStatus(delivery.status) != Some(target) { return Failure(InvalidTransition); }
      deliveries := deliveries[deliveryId := delivery.(status := target)];

      var orderStatus := DeliveryLogic.OrderStatusFor(target);
      if orderStatus.Some? && delivery.refType == OrderRef && delivery.refId < |orders| {
        var order := orders[delivery.refId];
        orders := orders[delivery.refId := Orders.RecordStatus(order, orderStatus.value, user.id)];
        if target == DeliveryStatus.Delivered && order.payBy == Cash {
          SettleOrderPayment(delivery.refId, now);
        }
      }
      if target == DeliveryStatus.Delivered {
        if user.id in profiles && profiles[user.id].availability == OnDelivery {
          profiles := profiles[user.id := profiles[user.id].(availability := Online)];
        }
      }
      r := Success(());
    }

    // ----- app/payments/service.py

    method WriteLedger(lines: seq<PaymentLogic.LedgerLine>, refType: RefType, refId: Id, storeId: Option<Id>, now: int)
      modifies this`ledger
      ensures ledger == old(ledger) + Payments.EntriesOf(lines, refType, refId, storeId, now)
      ensures |ledger| == |old(ledger)| + |lines|
      ensures forall k :: 0 <= k < |lines| ==>
        var line := lines[k];
        ledger[|old(ledger)| + k] ==
          LedgerEntry(line.userId, line.kind, line.amount, refType, refId, storeId, line.settled, now)
    {
      for i := 0 to |lines|
        invariant ledger == old(ledger) + Payments.EntriesOf(lines, refType, refId, storeId, now)[..i]
      {
        var line := lines[i];
        ledger := ledger
          + [LedgerEntry(line.userId, line.kind, line.amount, refType, refId, storeId, line.settled, now)];
      }
    }

    method LedgerForOrder(orderId: Id, settled: bool, now: int)
      requires orderId < |orders|
      modifies this`ledger
      ensures Db() == Payments.LedgerForOrder(old(Db()), orderId, settled, now)
    {
      var order := orders[orderId];
      if order.storeId >= |stores| { return; }
      var lines := PaymentLogic.ComputeLedgerLines(
        order.amounts.itemsTotal, order.amounts.deliveryFee, order.amounts.platformFee,
        order.collaboratorId, stores[order.storeId].ownerId, settled);
      WriteLedger(lines, OrderRef, orderId, Some(order.storeId), now);
    }

    /** Records a cash payment and writes the ledger, unless the order already has a payment. */
    method SettleOrderPayment(orderId: Id, now: int)
      requires orderId < |orders|
      modifies this`payments, this`orders, this`ledger
      ensures Db() == Payments.SettleOrderPayment(old(Db()), orderId, now)
    {
      if Payments.PaymentByRef(payments, OrderRef, orderId).Some? { return; }
      var order := orders[orderId];
      var paymentId := |payments|;
      payments := payments +
        [Payment(OrderRef, orderId, order.clientId, order.amounts.total, order.payBy, PaymentStatus.Approved, None)];
      orders := orders[orderId := order.(paymentId := Some(paymentId))];
      LedgerForOrder(orderId, false, now);
    }

    /** Pays an errand; true when a payment was made. */
    method SettleErrandPayment(errandId: Id, now: int) returns (paid: bool)
      requires errandId < |errands|
      modifies this`payments, this`ledger
      ensures Db() == Payments.SettleErrandPayment(old(Db()), errandId, now)
      ensures |payments| == |old(payments)| + if paid then 1 else 0
    {
      if Payments.PaymentByRef(payments, ErrandRef, errandId).Some? { return false; }
      var errand := errands[errandId];
      payments := payments +
        [Payment(ErrandRef, errandId, errand.clientId, errand.offeredFee, Cash, PaymentStatus.Approved, None)];
      var lines: seq<PaymentLogic.LedgerLine> := [];
      if errand.collaboratorId.Some? && errand.offeredFee > 0 {
        lines := lines + [PaymentLogic.LedgerLine(Earning, errand.collaboratorId, errand.offeredFee, true)];
      }
      WriteLedger(lines, ErrandRef, errandId, None, now);
      paid := true;
    }

    method CreateIntent(user: User, orderId: Id) returns (r: Result<Id, Error>)
      modifies this
      ensures Meets(r, Payments.CreateIntent(old(Db()), user, orderId), old(Db()), Db())
      ensures r.Success? ==> Payments.PaymentByRef(payments, OrderRef, orderId).Some?
      ensures r.Success? && payments != old(payments) ==>
        && r.value == |old(payments)|
        && payments == old(payments) +
             [Payment(OrderRef, orderId, user.id, orders[orderId].amounts.total, Wompi, PaymentStatus.Pending,
                      Some(WompiProvider(orderId, None, "PENDING")))]
    {
      if orderId >= |orders| { return Failure(NotFound); }
      var order := orders[orderId];
      if order.clientId != user.id { return Failure(Forbidden); }
      if order.payBy != Wompi { return Failure(NotWompi); }
      var existing := Payments.PaymentByRef(payments, OrderRef, orderId);
      if existing.None? {
        r := Success(|payments|);
        payments := payments +
          [Payment(OrderRef, orderId, user.id, order.amounts.total, Wompi, PaymentStatus.Pending,
                   Some(WompiProvider(orderId, None, "PENDING")))];
        assert payments[|payments| - 1].refId == orderId;
      } else if payments[existing.value].provider.None? {
        r := Failure(AssertionFailed);
      } else {
        r := Success(existing.value);
      }
    }

    /** Applies a signed event; a payment that is already approved is returned as it is. */
    method HandleWompiWebhook(reference: Id, transactionId: string, status: string, signed: bool, now: int)
      returns (r: Result<Id, Error>)
      modifies this
      ensures Meets(r, Payments.HandleWebhook(old(Db()), reference, transactionId, status, signed, now),
                    old(Db()), Db())
    {
      if !signed { return Failure(InvalidSignature); }
      var found := Payments.PaymentByReference(payments, reference);
      if found.None? { return Failure(NotFound); }
      var paymentId := found.value;
      var payment := payments[paymentId];
      if payment.status == PaymentStatus.Approved { return Success(paymentId); }

      var provider := payment.provider.value;
      provider := provider.(transactionId := Some(transactionId));
      provider := provider.(wompiStatus := status);
      payment := payment.(provider := Some(provider));
      if status == Payments.APPROVED {
        payment := payment.(status := PaymentStatus.Approved);
        payments := payments[paymentId := payment];
        if payment.refId < |orders| {
          orders := orders[payment.refId := orders[payment.refId].(paymentId := Some(paymentId))];
          LedgerForOrder(payment.refId, true, now);
        }
      } else {
        payment := payment.(status := PaymentStatus.Declined);
        payments := payments[paymentId := payment];
      }
      r := Success(paymentId);
    }

    // ----- app/settlements/service.py

    /** Totals the unsettled commissions of a store and period, then settles each of them. */
    method GenerateSettlement(q: Settlements.Query) returns (settlementId: Id)
      modifies this
      ensures Db() == Settlements.GenerateSettlement(old(Db()), q) && settlementId == |old(settlements)|
      ensures |settlements| == |old(settlements)| + 1 && settlements[..settlementId] == old(settlements)
      ensures var t := settlements[settlementId];
        t.storeId == q.storeId && t.periodStart == q.start && t.periodEnd == q.end && t.status == Due
      ensures |ledger| == |old(ledger)|
      ensures forall i :: 0 <= i < |ledger| ==>
        var e := old(ledger)[i];
        ledger[i] ==
          if e.storeId == Some(q.storeId) && e.kind == Commission && !e.settled && q.start <= e.createdAt <= q.end
          then e.(settled := true) else e
    {
      var ids := Settlements.Captured(ledger, q);
      var entries := Settlements.EntriesAt(ledger, ids);
      var (total, count) := Settlements.Summarize(entries);
      settlementId := |settlements|;
      settlements := settlements + [Settlement(q.storeId, q.start, q.end, count, total, Due)];

      for k := 0 to |ids|
        invariant Db() == old(Db()).(settlements := settlements, ledger := ledger)
        invariant settlements == old(settlements) + [Settlements.Statement(old(ledger), q)]
        invariant |ledger| == |old(ledger)|
        invariant forall i :: 0 <= i < |ledger| ==>
          ledger[i] == if i in ids[..k] then old(ledger)[i].(settled := true) else old(ledger)[i]
      {
        assert ids[k] in ids && ids[..k + 1] == ids[..k] + [ids[k]];
        ledger := ledger[ids[k] := entries[k].(settled := true)];
      }
      assert ids[..|ids|] == ids;
      assert ledger == Settlements.MarkSettled(old(ledger), q);
    }

    method MarkPaid(settlementId: Id) returns (r: Result<(), Error>)
      modifies this
      ensures Meets(r, Settlements.MarkPaid(old(Db()), settlementId), old(Db()), Db())
    {
      if settlementId >= |settlements| { return Failure(NotFound); }
      var settlement := settlements[settlementId];
      if settlement.status == Paid { return Success(()); }
      settlements := settlements[settlementId := settlement.(status := Paid)];
      r := Success(());
    }

    // ----- app/reviews/service.py

    method ApplyRating(targetType: TargetType, targetId: Id, stars: int)
      modifies this`stores, this`profiles
      ensures Db() == Reviews.ApplyRating(old(Db()), targetType, targetId, stars)
    {
      match targetType {
        case StoreTarget =>
          if targetId < |stores| {
            var store := stores[targetId];
            stores := stores[targetId := store.(rating := ReviewLogic.RecomputeRating(store.rating, stars))];
          }
        case CollaboratorTarget =>
          if targetId in profiles {
            var profile := profiles[targetId];
            profiles := profiles[targetId := profile.(rating := ReviewLogic.RecomputeRating(profile.rating, stars))];
          }
      }
    }

    method CreateReview(user: User, orderId: Id, targetType: TargetType, stars: int) returns (r: Result<Id, Error>)
      modifies this
      ensures Meets(r, Reviews.CreateReview(old(Db()), user, orderId, targetType, stars), old(Db()), Db())
      ensures r.Success? ==> r.value == |old(reviews)|
    {
      if orderId >= |orders| { return Failure(NotFound); }
      var order := orders[orderId];
      if order.clientId != user.id { return Failure(Forbidden); }
      if order.status != OrderStatus.Delivered { return Failure(NotDelivered); }
      var targetId := order.storeId;
      if targetType == CollaboratorTarget {
        if order.collaboratorId.None? { return Failure(NoCollaborator); }
        targetId := order.collaboratorId.value;
      }
      if Reviews.Exists(reviews, user.id, targetType, targetId, orderId) { return Failure(AlreadyReviewed); }
      r := Success(|reviews|);
      reviews := reviews + [Review(user.id, targetType, targetId, orderId, stars)];
      ApplyRating(targetType, targetId, stars);
    }

    // ----- app/collaborators/service.py

    method BecomeCollaborator(user: User) returns (r: Result<(), Error>)
      modifies this
      ensures Meets(r, Collaborators.BecomeCollaborator(old(Db()), user), old(Db()), Db())
    {
      if user.role != Collaborator { return Failure(Forbidden); }
      if user.id in profiles { return Failure(AlreadyCollaborator); }
      profiles := profiles[user.id := Profile(Unverified, Offline, Rating(0.0, 0))];
      r := Success(());
    }

    method SetAvailability(user: User, status: Availability, located: bool) returns (r: Result<(), Error>)
      modifies this
      ensures Meets(r, Collaborators.SetAvailability(old(Db()), user, status, located), old(Db()), Db())
    {
      if user.id !in profiles { return Failure(NotFound); }
      var profile := profiles[user.id];
      if profile.verification != VerificationStatus.Approved { return Failure(NotApproved); }
      var availability := Collaborators.ResolveAvailability(status, located);
      if availability.Failure? { return Failure(availability.error); }
      profiles := profiles[user.id := profile.(availability := availability.value)];
      r := Success(());
    }

    method Verify(target: Id, status: VerificationStatus) returns (r: Result<(), Error>)
      modifies this
      ensures Meets(r, Collaborators.Verify(old(Db()), target, status), old(Db()), Db())
    {
      if target !in profiles { return Failure(NotFound); }
      profiles := profiles[target := profiles[target].(verification := status)];
      r := Success(());
    }

    // ----- app/subscriptions/service.py

    method Subscribe(user: User, storeId: Id) returns (r: Result<(), Error>)
      modifies this
      ensures Meets(r, Subscriptions.Subscribe(old(Db()), user, storeId), old(Db()), Db())
    {
      if storeId >= |stores| { return Failure(NotFound); }
      var store := stores[storeId];
      if store.ownerId != user.id && !user.IsAdmin() { return Failure(Forbidden); }
      if storeId !in subscriptions {
        subscriptions := subscriptions[storeId := Subscription(Active, settings.premiumCommissionRate)];
      } else {
        var sub := subscriptions[storeId];
        sub := sub.(status := Active);
        sub := sub.(commissionRate := settings.premiumCommissionRate);
        subscriptions := subscriptions[storeId := sub];
      }
      stores := stores[storeId := store.(commissionRate := Some(settings.premiumCommissionRate))];
      r := Success(());
    }

    method CancelSubscription(user: User, storeId: Id) returns (r: Result<(), Error>)
      modifies this
      ensures Meets(r, Subscriptions.Cancel(old(Db()), user, storeId), old(Db()), Db())
    {
      if storeId >= |stores| { return Failure(NotFound); }
      var store := stores[storeId];
      if store.ownerId != user.id && !user.IsAdmin() { return Failure(Forbidden); }
      if storeId !in subscriptions || subscriptions[storeId].status != Active { return Failure(NoActiveSubscription); }
      subscriptions := subscriptions[storeId := subscriptions[storeId].(status := Lapsed)];
      stores := stores[storeId := store.(commissionRate := None)];
      r := Success(());
    }

    // ----- app/errands/service.py

    method CreateErrand(user: User, offeredFee: int) returns (errandId: Id)
      modifies this
      ensures Db() == Errands.CreateErrand(old(Db()), user, offeredFee) && errandId == |old(errands)|
    {
      var errand := Errand(user.id, offeredFee, ErrandStatus.Open, [], None, None);
      errandId := |errands|;
      errands := errands + [Errands.RecordStatus(errand, ErrandStatus.Open)];
    }

    method AcceptErrand(user: User, errandId: Id) returns (r: Result<(), Error>)
      modifies this
      ensures Meets(r, Errands.Accept(old(Db()), user, errandId), old(Db()), Db())
    {
      if user.role != Collaborator { return Failure(Forbidden); }
      if errandId >= |errands| { return Failure(NotFound); }
      var errand := errands[errandId];
      if errand.status != ErrandStatus.Open { return Failure(InvalidTransition); }
      errand := errand.(collaboratorId := Some(user.id));
      errands := errands[errandId := Errands.RecordStatus(errand, ErrandStatus.Assigned)];
      r := Success(());
    }

    method AdvanceErrand(user: User, errandId: Id, target: ErrandStatus, now: int) returns (r: Result<(), Error>)
      modifies this
      ensures Meets(r, Errands.AdvanceStatus(old(Db()), user, errandId, target, now), old(Db()), Db())
    {
      if errandId >= |errands| { return Failure(NotFound); }
      var errand := errands[errandId];
      if errand.collaboratorId != Some(user.id) { return Failure(Forbidden); }
      if Errands.NextStatus(errand.status) != Some(target) { return Failure(InvalidTransition); }
      errand := Errands.RecordStatus(errand, target);
      errands := errands[errandId := errand];
      if target == ErrandStatus.Completed {
        var paymentId := |payments|;
        var paid := SettleErrandPayment(errandId, now);
        if paid {
          errands := errands[errandId := errand.(paymentId := Some(paymentId))];
        }
      }
      r := Success(());
    }

    method CancelErrand(user: User, errandId: Id) returns (r: Result<(), Error>)
      modifies this
      ensures Meets(r, Errands.Cancel(old(Db()), user, errandId), old(Db()), Db())
    {
      if errandId >= |errands| { return Failure(NotFound); }
      var errand := errands[errandId];
      if errand.clientId != user.id && !user.IsAdmin() { return Failure(Forbidden); }
      if !Errands.CanCancel(errand.status) { return Failure(InvalidTransition); }
      errands := errands[errandId := Errands.RecordStatus(errand, ErrandStatus.Cancelled)];
      r := Success(());
    }
  }
}
