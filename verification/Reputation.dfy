/** Stored ratings against the reviews they come from, in every reachable state. */
module Reputation {
  import opened Wrappers
  import opened Documents
  import opened Platform
  import opened Frames
  import opened Reviews
  import Ratings
  import Orders
  import Deliveries
  import Lifecycle
  import Accounts
  import Evolution
  import Dispatch

  predicate Targets(r: Review, targetType: TargetType, targetId: Id) {
    r.targetType == targetType && r.targetId == targetId
  }

  /** The stars given to a target, in the order the reviews came in. */
  function StarsFor(reviews: seq<Review>, targetType: TargetType, targetId: Id): seq<int> {
    if reviews == [] then []
    else
      var n := |reviews| - 1;
      StarsFor(reviews[..n], targetType, targetId)
      + if Targets(reviews[n], targetType, targetId) then [reviews[n].stars] else []
  }

  predicate GoodReview(r: Review, orders: seq<Order>) {
    && r.orderId < |orders|
    && orders[r.orderId].status == OrderStatus.Delivered
    && r.fromUserId == orders[r.orderId].clientId
    && TargetOf(orders[r.orderId], r.targetType) == Some(r.targetId)
    && 1 <= r.stars <= 5
  }

  /** Reviews are by the clients of delivered orders, one per order and kind of target. */
  ghost predicate ReviewsGood(reviews: seq<Review>, orders: seq<Order>) {
    && (forall i :: 0 <= i < |reviews| ==> GoodReview(reviews[i], orders))
    && OnePerOrder(reviews)
  }

  predicate SameSlot(a: Review, b: Review) {
    a.targetType == b.targetType && a.orderId == b.orderId
  }

  ghost predicate OnePerOrder(reviews: seq<Review>) {
    forall i, j :: 0 <= i < j < |reviews| ==> !SameSlot(reviews[i], reviews[j])
  }

  ghost predicate RatingsFolded(s: State) {
    && (forall i :: 0 <= i < |s.stores| ==>
          s.stores[i].rating == Ratings.FoldRating(StarsFor(s.reviews, StoreTarget, i)))
    && (forall u :: u in s.profiles ==>
          s.profiles[u].rating == Ratings.FoldRating(StarsFor(s.reviews, CollaboratorTarget, u)))
  }

  ghost predicate Valid(s: State) {
    && Accounts.Valid(s)
    && Dispatch.Valid(s)
    && ReviewsGood(s.reviews, s.orders)
    && RatingsFolded(s)
  }

  lemma {:induction false} NoStars(reviews: seq<Review>, targetType: TargetType, targetId: Id)
    requires forall i :: 0 <= i < |reviews| ==> !Targets(reviews[i], targetType, targetId)
    ensures StarsFor(reviews, targetType, targetId) == []
  {
    if reviews != [] {
      assert forall i :: 0 <= i < |reviews| - 1 ==> reviews[..|reviews| - 1][i] == reviews[i];
      NoStars(reviews[..|reviews| - 1], targetType, targetId);
    }
  }

  /** Nobody reviews a store or a collaborator that does not exist. */
  lemma TargetsExist(s: State, i: Id)
    requires Accounts.Valid(s) && Dispatch.Valid(s) && i < |s.reviews| && GoodReview(s.reviews[i], s.orders)
    ensures s.reviews[i].targetType == StoreTarget ==> s.reviews[i].targetId < |s.stores|
    ensures s.reviews[i].targetType == CollaboratorTarget ==> s.reviews[i].targetId in s.profiles
  {
    var o := s.reviews[i].orderId;
    assert Lifecycle.GoodHistory(s.orders[o]);
    assert Lifecycle.HasDelivery(s.deliveries, o);
    var d :| 0 <= d < |s.deliveries| && s.deliveries[d].refId == o;
    assert Lifecycle.Serves(s.deliveries[d], s.orders);
  }

  lemma NewTargetsUnrated(s: State, targetType: TargetType, targetId: Id)
    requires Valid(s)
    requires targetType == StoreTarget ==> targetId >= |s.stores|
    requires targetType == CollaboratorTarget ==> targetId !in s.profiles
    ensures Ratings.FoldRating(StarsFor(s.reviews, targetType, targetId)) == Rating(0.0, 0)
  {
    forall i | 0 <= i < |s.reviews| ensures !Targets(s.reviews[i], targetType, targetId) {
      assert GoodReview(s.reviews[i], s.orders);
      TargetsExist(s, i);
    }
    NoStars(s.reviews, targetType, targetId);
  }

  lemma StarsSnoc(reviews: seq<Review>, r: Review, targetType: TargetType, targetId: Id)
    ensures StarsFor(reviews + [r], targetType, targetId) ==
      StarsFor(reviews, targetType, targetId) + if Targets(r, targetType, targetId) then [r.stars] else []
  {
    assert (reviews + [r])[..|reviews|] == reviews;
  }

  lemma FoldSnoc(stars: seq<int>, last: int)
    ensures Ratings.FoldRating(stars + [last]) == ReviewLogic.RecomputeRating(Ratings.FoldRating(stars), last)
  {
    assert (stars + [last])[..|stars|] == stars;
  }

  lemma NewReviewGood(s: State, user: User, orderId: Id, targetType: TargetType, stars: int)
    requires ReviewsGood(s.reviews, s.orders) && 1 <= stars <= 5
      && Reviews.CreateReview(s, user, orderId, targetType, stars).Success?
    ensures var s' := Reviews.CreateReview(s, user, orderId, targetType, stars).value;
      && s'.reviews ==
        s.reviews + [Review(user.id, targetType, TargetOf(s.orders[orderId], targetType).value, orderId, stars)]
      && ReviewsGood(s'.reviews, s'.orders)
  {
    var s' := Reviews.CreateReview(s, user, orderId, targetType, stars).value;
    var targetId := TargetOf(s.orders[orderId], targetType).value;
    forall i | 0 <= i < |s.reviews| ensures !SameSlot(s.reviews[i], s'.reviews[|s.reviews|]) {
      assert GoodReview(s.reviews[i], s.orders);
      assert !SameReview(s.reviews[i], user.id, targetType, targetId, orderId);
    }
    forall i | 0 <= i < |s'.reviews| ensures GoodReview(s'.reviews[i], s'.orders) {
      if i < |s.reviews| { assert GoodReview(s.reviews[i], s.orders); }
    }
  }

  lemma OneMoreReview(reviews: seq<Review>, r: Review, targetType: TargetType, targetId: Id)
    ensures Ratings.FoldRating(StarsFor(reviews + [r], targetType, targetId)) ==
      var before := Ratings.FoldRating(StarsFor(reviews, targetType, targetId));
      if Targets(r, targetType, targetId) then ReviewLogic.RecomputeRating(before, r.stars) else before
  {
    StarsSnoc(reviews, r, targetType, targetId);
    FoldSnoc(StarsFor(reviews, targetType, targetId), r.stars);
    assert StarsFor(reviews, targetType, targetId) + [] == StarsFor(reviews, targetType, targetId);
  }

  /** The rating of the review's target is recomputed; all others already fold their reviews. */
  lemma ApplyFolds(s: State, r: Review, i: Id, u: Id)
    requires RatingsFolded(s)
    ensures var s1 := s.(reviews := s.reviews + [r]);
      var s' := ApplyRating(s1, r.targetType, r.targetId, r.stars);
      && s'.reviews == s1.reviews && |s'.stores| == |s.stores| && s'.profiles.Keys == s.profiles.Keys
      && (i < |s.stores| ==> s'.stores[i].rating == Ratings.FoldRating(StarsFor(s'.reviews, StoreTarget, i)))
      && (u in s.profiles ==> s'.profiles[u].rating == Ratings.FoldRating(StarsFor(s'.reviews, CollaboratorTarget, u)))
  {
    OneMoreReview(s.reviews, r, StoreTarget, i);
    OneMoreReview(s.reviews, r, CollaboratorTarget, u);
  }

  lemma ReviewKeepsRatings(s: State, user: User, orderId: Id, targetType: TargetType, stars: int)
    requires RatingsFolded(s) && Reviews.CreateReview(s, user, orderId, targetType, stars).Success?
    ensures RatingsFolded(Reviews.CreateReview(s, user, orderId, targetType, stars).value)
  {
    var r := Review(user.id, targetType, TargetOf(s.orders[orderId], targetType).value, orderId, stars);
    var s' := ApplyRating(s.(reviews := s.reviews + [r]), r.targetType, r.targetId, r.stars);
    ApplyFolds(s, r, 0, 0);
    forall i | 0 <= i < |s'.stores|
      ensures s'.stores[i].rating == Ratings.FoldRating(StarsFor(s'.reviews, StoreTarget, i))
    {
      ApplyFolds(s, r, i, 0);
    }
    forall u | u in s'.profiles
      ensures s'.profiles[u].rating == Ratings.FoldRating(StarsFor(s'.reviews, CollaboratorTarget, u))
    {
      ApplyFolds(s, r, 0, u);
    }
  }

  /** Delivered orders stay delivered and keep their collaborator, so reviews stay good. */
  lemma ReviewsStayGood(s: State, c: Call)
    requires Accounts.Valid(s) && WellFormed(c) && ReviewsGood(s.reviews, s.orders)
    ensures ReviewsGood(s.reviews, Step(s, c).orders)
  {
    var s' := Step(s, c);
    assert Run(s, []) == s && [c][..0] == [] && Run(s, [c]) == s';
    Evolution.StepEvolves(s, c);
    forall i | 0 <= i < |s.reviews| ensures GoodReview(s.reviews[i], s'.orders) {
      var o := s.reviews[i].orderId;
      assert GoodReview(s.reviews[i], s.orders);
      Evolution.TerminalIsForever(s, [c], o);
      assert Evolution.OrderEvolves(s.orders[o], s'.orders[o]);
    }
  }

  lemma ElsewhereKeepsRatings(s: State, c: Call)
    requires Valid(s) && !c.CreateReview?
    ensures Step(s, c).reviews == s.reviews && RatingsFolded(Step(s, c))
  {
    if IsOrderCall(c) { OrderCallRatings(s, c); }
    else if IsStoreCall(c) { StoreCallRatings(s, c); }
    else if IsCatalogCall(c) { CatalogFrame(s, c); }
    else if IsProfileCall(c) { ProfileCallRatings(s, c); }
    else if IsSettlementCall(c) { SettlementFrame(s, c); }
    else if IsErrandCall(c) { ErrandFrame(s, c); }
    else { IntentFrame(s, c); }
  }

  lemma SameRatings(s: State, s': State)
    requires RatingsFolded(s) && s'.stores == s.stores && s'.reviews == s.reviews && s'.profiles.Keys == s.profiles.Keys
    requires forall u :: u in s.profiles ==> s'.profiles[u].rating == s.profiles[u].rating
    ensures RatingsFolded(s')
  {
  }

  lemma AdvanceDeliveryRatings(s: State, user: User, d: Id, status: DeliveryStatus, now: int)
    requires Valid(s) && Deliveries.AdvanceStatus(s, user, d, status, now).Success?
    ensures Deliveries.AdvanceStatus(s, user, d, status, now).value.reviews == s.reviews
    ensures RatingsFolded(Deliveries.AdvanceStatus(s, user, d, status, now).value)
  {
    Dispatch.AdvanceEffect(s, user, d, status, now);
    var o, order := Accounts.AdvanceDeliveryMoney(s, user, d, status, now);
    SameRatings(s, Deliveries.AdvanceStatus(s, user, d, status, now).value);
  }

  lemma AssignRatings(s: State, user: User, o: Id, near: seq<Id>)
    requires Valid(s) && Deliveries.AssignOrder(s, user, o, near).Success?
    ensures Deliveries.AssignOrder(s, user, o, near).value.reviews == s.reviews
    ensures RatingsFolded(Deliveries.AssignOrder(s, user, o, near).value)
  {
    var chosen := Dispatch.AssignEffect(s, user, o, near);
    SameRatings(s, Deliveries.AssignOrder(s, user, o, near).value);
  }

  lemma OrderCallRatings(s: State, c: Call)
    requires Valid(s) && IsOrderCall(c)
    ensures Step(s, c).reviews == s.reviews && RatingsFolded(Step(s, c))
  {
    if Try(s, c).Failure? {}
    else if c.AdvanceDelivery? { AdvanceDeliveryRatings(s, c.user, c.deliveryId, c.deliveryStatus, c.now); }
    else if c.AssignOrder? { AssignRatings(s, c.user, c.orderId, c.near); }
    else {
      RatersFrame(s, c);
      OrderFrame(s, c);
      SameRatings(s, Step(s, c));
    }
  }

  lemma RatersFrame(s: State, c: Call)
    requires IsOrderMove(c) || c.CreateOrder? || c.Webhook?
    ensures Step(s, c).profiles == s.profiles
  {
  }

  lemma StoreCallRatings(s: State, c: Call)
    requires Valid(s) && IsStoreCall(c)
    ensures Step(s, c).reviews == s.reviews && RatingsFolded(Step(s, c))
  {
    StoreFrame(s, c);
    NewTargetsUnrated(s, StoreTarget, |s.stores|);
  }

  lemma ProfileCallRatings(s: State, c: Call)
    requires Valid(s) && IsProfileCall(c)
    ensures Step(s, c).reviews == s.reviews && RatingsFolded(Step(s, c))
  {
    ProfileFrame(s, c);
    if c.BecomeCollaborator? && Try(s, c).Success? {
      NewTargetsUnrated(s, CollaboratorTarget, c.user.id);
    }
  }

  lemma StepKeepsValid(s: State, c: Call)
    requires Valid(s) && WellFormed(c)
    ensures Valid(Step(s, c))
  {
    Accounts.StepKeepsValid(s, c);
    Dispatch.StepKeepsValid(s, c);
    if c.CreateReview? {
      if Try(s, c).Success? {
        NewReviewGood(s, c.user, c.orderId, c.targetType, c.stars);
        ReviewKeepsRatings(s, c.user, c.orderId, c.targetType, c.stars);
      }
    } else {
      ReviewsStayGood(s, c);
      ElsewhereKeepsRatings(s, c);
    }
  }

  lemma {:induction false} RunKeepsValid(s: State, calls: seq<Call>)
    requires Valid(s) && AllWellFormed(calls)
    ensures Valid(Run(s, calls))
  {
    if calls != [] {
      var front := calls[..|calls| - 1];
      assert forall i :: 0 <= i < |front| ==> front[i] == calls[i];
      RunKeepsValid(s, front);
      StepKeepsValid(Run(s, front), calls[|calls| - 1]);
    }
  }

  // ----- what the numbers mean

  /** The delivered orders a target was part of. */
  function DeliveredFor(orders: seq<Order>, targetType: TargetType, targetId: Id): set<Id> {
    set o: Id | o < |orders| && orders[o].status == OrderStatus.Delivered
      && TargetOf(orders[o], targetType) == Some(targetId)
  }

  /** The orders a target was reviewed for. */
  function ReviewedFor(reviews: seq<Review>, targetType: TargetType, targetId: Id): set<Id> {
    if reviews == [] then {}
    else
      var n := |reviews| - 1;
      ReviewedFor(reviews[..n], targetType, targetId) +
      if Targets(reviews[n], targetType, targetId) then {reviews[n].orderId} else {}
  }

  lemma {:induction false} ReviewedFrom(reviews: seq<Review>, targetType: TargetType, targetId: Id, o: Id)
    returns (i: nat)
    requires o in ReviewedFor(reviews, targetType, targetId)
    ensures i < |reviews| && Targets(reviews[i], targetType, targetId) && reviews[i].orderId == o
  {
    i := |reviews| - 1;
    if !(Targets(reviews[i], targetType, targetId) && reviews[i].orderId == o) {
      i := ReviewedFrom(reviews[..i], targetType, targetId, o);
    }
  }

  lemma {:induction false} StarsAreStars(reviews: seq<Review>, targetType: TargetType, targetId: Id)
    requires forall i :: 0 <= i < |reviews| ==> 1 <= reviews[i].stars <= 5
    ensures Ratings.AreStars(StarsFor(reviews, targetType, targetId))
  {
    if reviews != [] {
      StarsAreStars(reviews[..|reviews| - 1], targetType, targetId);
    }
  }

  lemma NewSlot(reviews: seq<Review>, targetType: TargetType, targetId: Id)
    requires reviews != [] && OnePerOrder(reviews)
    requires Targets(reviews[|reviews| - 1], targetType, targetId)
    ensures reviews[|reviews| - 1].orderId !in ReviewedFor(reviews[..|reviews| - 1], targetType, targetId)
  {
    var front, last := reviews[..|reviews| - 1], reviews[|reviews| - 1];
    if last.orderId in ReviewedFor(front, targetType, targetId) {
      var i := ReviewedFrom(front, targetType, targetId, last.orderId);
      assert false;
    }
  }

  /** As many stars as orders reviewed. */
  lemma {:induction false} StarsPerOrder(reviews: seq<Review>, targetType: TargetType, targetId: Id)
    requires OnePerOrder(reviews)
    ensures |StarsFor(reviews, targetType, targetId)| == |ReviewedFor(reviews, targetType, targetId)|
  {
    if reviews != [] {
      var front := reviews[..|reviews| - 1];
      assert OnePerOrder(front);
      StarsPerOrder(front, targetType, targetId);
      if Targets(reviews[|reviews| - 1], targetType, targetId) {
        NewSlot(reviews, targetType, targetId);
      }
    }
  }

  lemma SubsetSize(a: set<Id>, b: set<Id>)
    requires a <= b
    ensures |a| <= |b|
  {
    assert b == a + (b - a);
  }

  /** A store's rating counts its reviews, no more than its delivered orders; it lies between one and
      five stars and within 0.0025 (n + 1) of their mean. */
  lemma StoreRatingIsHonest(s: State, i: Id)
    requires Valid(s) && i < |s.stores|
    ensures var stars, rating := StarsFor(s.reviews, StoreTarget, i), s.stores[i].rating;
      && rating.count == |stars| <= |DeliveredFor(s.orders, StoreTarget, i)|
      && (rating.count > 0 ==>
          var mean, slack := Ratings.SumStars(stars) as real / rating.count as real,
            0.0025 * (rating.count as real + 1.0);
          1.0 <= rating.avg <= 5.0 && -slack <= rating.avg - mean <= slack)
  {
    RatingIsHonest(s, StoreTarget, i);
  }

  /** The same for a collaborator. */
  lemma CollaboratorRatingIsHonest(s: State, u: Id)
    requires Valid(s) && u in s.profiles
    ensures var stars, rating := StarsFor(s.reviews, CollaboratorTarget, u), s.profiles[u].rating;
      && rating.count == |stars| <= |DeliveredFor(s.orders, CollaboratorTarget, u)|
      && (rating.count > 0 ==>
          var mean, slack := Ratings.SumStars(stars) as real / rating.count as real,
            0.0025 * (rating.count as real + 1.0);
          1.0 <= rating.avg <= 5.0 && -slack <= rating.avg - mean <= slack)
  {
    RatingIsHonest(s, CollaboratorTarget, u);
  }

  lemma RatingIsHonest(s: State, targetType: TargetType, targetId: Id)
    requires Valid(s)
    ensures var stars, rating := StarsFor(s.reviews, targetType, targetId),
      Ratings.FoldRating(StarsFor(s.reviews, targetType, targetId));
      && rating.count == |stars| <= |DeliveredFor(s.orders, targetType, targetId)|
      && (rating.count > 0 ==>
          var mean, slack := Ratings.SumStars(stars) as real / rating.count as real,
            0.0025 * (rating.count as real + 1.0);
          1.0 <= rating.avg <= 5.0 && -slack <= rating.avg - mean <= slack)
  {
    var stars := StarsFor(s.reviews, targetType, targetId);
    StarsPerOrder(s.reviews, targetType, targetId);
    assert forall i :: 0 <= i < |s.reviews| ==> GoodReview(s.reviews[i], s.orders);
    StarsAreStars(s.reviews, targetType, targetId);
    forall o | o in ReviewedFor(s.reviews, targetType, targetId)
      ensures o in DeliveredFor(s.orders, targetType, targetId)
    {
      var i := ReviewedFrom(s.reviews, targetType, targetId, o);
      assert GoodReview(s.reviews[i], s.orders);
    }
    SubsetSize(ReviewedFor(s.reviews, targetType, targetId), DeliveredFor(s.orders, targetType, targetId));
    Ratings.DriftBound(stars);
    if stars != [] {
      Ratings.StaysInRange(stars);
      Ratings.MeanDrift(stars);
    }
  }

  // ----- frozen ratings, over whole runs

  lemma {:induction false} StarsPrefix(a: seq<Review>, b: seq<Review>, targetType: TargetType, targetId: Id)
    requires a <= b
    ensures StarsFor(a, targetType, targetId) <= StarsFor(b, targetType, targetId)
    decreases |b|
  {
    if |a| < |b| {
      StarsPrefix(a, b[..|b| - 1], targetType, targetId);
    } else {
      assert a == b;
    }
  }

  lemma StepOnlyAdds(s: State, c: Call)
    requires Valid(s) && WellFormed(c)
    ensures s.reviews <= Step(s, c).reviews && s.profiles.Keys <= Step(s, c).profiles.Keys
  {
    if Try(s, c).Failure? {}
    else if c.CreateReview? { ReviewFrame(s, c); NewReviewGood(s, c.user, c.orderId, c.targetType, c.stars); }
    else {
      ElsewhereKeepsRatings(s, c);
      ProfilesStay(s, c);
    }
  }

  lemma ProfilesStay(s: State, c: Call)
    requires Dispatch.Valid(s) && Try(s, c).Success?
    ensures s.profiles.Keys <= Step(s, c).profiles.Keys
  {
    if c.AssignOrder? { var chosen := Dispatch.AssignEffect(s, c.user, c.orderId, c.near); }
    else if c.AdvanceDelivery? { Dispatch.AdvanceEffect(s, c.user, c.deliveryId, c.deliveryStatus, c.now); }
    else if IsProfileCall(c) { ProfileFrame(s, c); }
    else { Dispatch.ElsewhereKeepsDispatch(s, c); }
  }

  lemma {:induction false} RunOnlyAdds(s: State, calls: seq<Call>)
    requires Valid(s) && AllWellFormed(calls)
    ensures s.reviews <= Run(s, calls).reviews && s.profiles.Keys <= Run(s, calls).profiles.Keys
  {
    if calls != [] {
      var front := calls[..|calls| - 1];
      assert forall i :: 0 <= i < |front| ==> front[i] == calls[i];
      RunOnlyAdds(s, front);
      RunKeepsValid(s, front);
      StepOnlyAdds(Run(s, front), calls[|calls| - 1]);
    }
  }

  lemma FoldIsFrozen(a: seq<Review>, b: seq<Review>, targetType: TargetType, targetId: Id)
    requires a <= b && forall i :: 0 <= i < |b| ==> 1 <= b[i].stars <= 5
    requires Ratings.FoldRating(StarsFor(a, targetType, targetId)).count >= 799
    ensures Ratings.FoldRating(StarsFor(b, targetType, targetId)).avg ==
      Ratings.FoldRating(StarsFor(a, targetType, targetId)).avg
  {
    var x, y := StarsFor(a, targetType, targetId), StarsFor(b, targetType, targetId);
    StarsPrefix(a, b, targetType, targetId);
    StarsAreStars(b, targetType, targetId);
    Ratings.DriftBound(x);
    FrozenExtension(x, y);
  }

  lemma FrozenExtension(x: seq<int>, y: seq<int>)
    requires x <= y && Ratings.AreStars(y) && |x| >= 799
    ensures Ratings.FoldRating(y).avg == Ratings.FoldRating(x).avg
  {
    var rest := y[|x|..];
    assert y == x + rest;
    assert Ratings.AreStars(x) by {
      forall i | 0 <= i < |x| ensures 1 <= x[i] <= 5 { assert x[i] == y[i]; }
    }
    assert Ratings.AreStars(rest);
    Ratings.RatingFreezes(x, rest);
  }

  /** Once a store has 799 reviews, nothing that is ever called again moves its average. */
  lemma StoreAverageIsFrozen(s: State, calls: seq<Call>, i: Id)
    requires Valid(s) && AllWellFormed(calls) && i < |s.stores| && s.stores[i].rating.count >= 799
    ensures i < |Run(s, calls).stores| && Run(s, calls).stores[i].rating.avg == s.stores[i].rating.avg
  {
    RunOnlyAdds(s, calls);
    RunKeepsValid(s, calls);
    Evolution.RunEvolves(s, calls);
    StarsInBounds(Run(s, calls));
    FoldIsFrozen(s.reviews, Run(s, calls).reviews, StoreTarget, i);
  }

  /** The same for a collaborator. */
  lemma CollaboratorAverageIsFrozen(s: State, calls: seq<Call>, u: Id)
    requires Valid(s) && AllWellFormed(calls) && u in s.profiles && s.profiles[u].rating.count >= 799
    ensures u in Run(s, calls).profiles && Run(s, calls).profiles[u].rating.avg == s.profiles[u].rating.avg
  {
    RunOnlyAdds(s, calls);
    RunKeepsValid(s, calls);
    StarsInBounds(Run(s, calls));
    FoldIsFrozen(s.reviews, Run(s, calls).reviews, CollaboratorTarget, u);
  }

  lemma StarsInBounds(s: State)
    requires ReviewsGood(s.reviews, s.orders)
    ensures forall i :: 0 <= i < |s.reviews| ==> 1 <= s.reviews[i].stars <= 5
  {
    assert forall i :: 0 <= i < |s.reviews| ==> GoodReview(s.reviews[i], s.orders);
  }
}
