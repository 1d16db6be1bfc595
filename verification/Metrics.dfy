/** The volume reported to the admin against the money that was collected. */
module Metrics {
  import opened Documents
  import opened Wrappers
  import opened Sequences
  import Lifecycle
  import Accounts

  function DeliveredTotal(): Order -> int {
    (o: Order) => if o.status == OrderStatus.Delivered then o.amounts.total else 0
  }

  /** `gmv` of the admin metrics. */
  function Gmv(s: State): int {
    Sum(s.orders, DeliveredTotal())
  }

  function ApprovedAmount(): Payment -> int {
    (p: Payment) => if p.refType == OrderRef && p.status == PaymentStatus.Approved then p.amount else 0
  }

  /** What clients have paid for orders. */
  function Collected(s: State): int {
    Sum(s.payments, ApprovedAmount())
  }

  function PaidTotal(): Order -> int {
    (o: Order) => if o.paymentId.Some? then o.amounts.total else 0
  }

  function DeliveredUnpaid(): Order -> int {
    (o: Order) => if o.payBy == Wompi && o.status == OrderStatus.Delivered && o.paymentId.None?
                  then o.amounts.total else 0
  }

  function PaidUndelivered(): Order -> int {
    (o: Order) => if o.payBy == Wompi && o.status != OrderStatus.Delivered && o.paymentId.Some?
                  then o.amounts.total else 0
  }

  // ----- sums matched term by term

  function Identity(): int -> int {
    (x: int) => x
  }

  /** Each term of `b` is zero or points to its own equal term of `a`, and the rest of `a` is zero. */
  ghost predicate Matched(a: seq<int>, b: seq<int>, links: seq<Option<nat>>) {
    && |links| == |b|
    && (forall j :: 0 <= j < |b| ==>
          if links[j].Some? then links[j].value < |a| && a[links[j].value] == b[j] else b[j] == 0)
    && (forall i, j :: 0 <= i < j < |b| && links[i].Some? ==> links[i] != links[j])
    && (forall i :: 0 <= i < |a| && a[i] != 0 ==> Some(i) in links)
  }

  lemma {:induction false} MatchedSums(a: seq<int>, b: seq<int>, links: seq<Option<nat>>)
    requires Matched(a, b, links)
    ensures Sum(a, Identity()) == Sum(b, Identity())
    decreases |b|
  {
    if b == [] {
      SumNonNegative(a, Identity());
    } else {
      var n := |b| - 1;
      var a' := if links[n].Some? then a[links[n].value := 0] else a;
      forall i | 0 <= i < |a'| && a'[i] != 0 ensures Some(i) in links[..n] {
        assert a[i] != 0;
        var j :| 0 <= j < |b| && links[j] == Some(i);
        assert links[..n][j] == Some(i);
      }
      MatchedSums(a', b[..n], links[..n]);
      if links[n].Some? {
        SumUpdate(a, links[n].value, 0, Identity());
      }
    }
  }

  function Terms<T>(xs: seq<T>, f: T -> int): seq<int> {
    seq(|xs|, i requires 0 <= i < |xs| => f(xs[i]))
  }

  lemma {:induction false} SumOfTerms<T>(xs: seq<T>, f: T -> int)
    ensures Sum(Terms(xs, f), Identity()) == Sum(xs, f)
  {
    if xs != [] {
      var n := |xs| - 1;
      SumOfTerms(xs[..n], f);
      assert Terms(xs, f)[..n] == Terms(xs[..n], f);
    }
  }

  // ----- the metrics

  /** Every peso collected is the total of one paid order. */
  lemma CollectedIsPaid(s: State)
    requires Accounts.Valid(s)
    ensures Collected(s) == Sum(s.orders, PaidTotal())
  {
    var links := seq(|s.orders|, o requires 0 <= o < |s.orders| => s.orders[o].paymentId);
    assert forall o :: 0 <= o < |s.orders| ==> Accounts.PointsTo(s.payments, OrderRef, o, s.orders[o].paymentId);
    assert forall k :: 0 <= k < |s.payments| ==> Accounts.GoodPayment(s.payments[k], k, s.orders, s.errands);
    var a, b := Terms(s.payments, ApprovedAmount()), Terms(s.orders, PaidTotal());
    forall k | 0 <= k < |a| && a[k] != 0 ensures Some(k) in links {
      assert links[s.payments[k].refId] == Some(k);
    }
    MatchedSums(a, b, links);
    SumOfTerms(s.payments, ApprovedAmount());
    SumOfTerms(s.orders, PaidTotal());
  }

  lemma {:induction false} SplitVolume(orders: seq<Order>)
    requires forall o :: 0 <= o < |orders| ==> Accounts.CashOnDelivery(orders[o])
    ensures Sum(orders, DeliveredTotal()) + Sum(orders, PaidUndelivered()) ==
      Sum(orders, PaidTotal()) + Sum(orders, DeliveredUnpaid())
  {
    if orders != [] {
      var n := |orders| - 1;
      assert forall o :: 0 <= o < n ==> orders[..n][o] == orders[o];
      SplitVolume(orders[..n]);
      assert Accounts.CashOnDelivery(orders[n]);
    }
  }

  /** The reported volume differs from the money collected by the Wompi orders delivered without ever
      being paid, less those paid and not delivered. Cash never makes a difference. */
  lemma VolumeAgainstCollected(s: State)
    requires Accounts.Valid(s)
    ensures Gmv(s) - Collected(s) == Sum(s.orders, DeliveredUnpaid()) - Sum(s.orders, PaidUndelivered())
  {
    CollectedIsPaid(s);
    SplitVolume(s.orders);
  }
}
