/** Collaborator availability against the deliveries they hold. */
module Dispatch {
  import opened Wrappers
  import opened Documents
  import opened Sequences
  import opened Platform
  import opened Frames
  import Orders
  import Deliveries
  import Collaborators
  import Payments
  import Lifecycle

  function ActiveFor(user: Id): Delivery -> int {
    (d: Delivery) => if d.collaboratorId == user && d.status != DeliveryStatus.Delivered then 1 else 0
  }

  /** The number of undelivered deliveries a collaborator holds. */
  function ActiveOf(deliveries: seq<Delivery>, user: Id): int {
    Sum(deliveries, ActiveFor(user))
  }

  predicate Known(deliveries: seq<Delivery>, profiles: map<Id, Profile>) {
    forall d :: 0 <= d < |deliveries| ==> deliveries[d].collaboratorId in profiles
  }

  /** On delivery means there is something to deliver. */
  predicate BusyHasWork(deliveries: seq<Delivery>, profiles: map<Id, Profile>) {
    forall u :: u in profiles && profiles[u].availability == OnDelivery ==> ActiveOf(deliveries, u) >= 1
  }

  /** One delivery at a time, and on delivery exactly while there is one. */
  predicate Exclusive(deliveries: seq<Delivery>, profiles: map<Id, Profile>) {
    forall u :: u in profiles ==>
      ActiveOf(deliveries, u) <= 1 && (profiles[u].availability == OnDelivery <==> ActiveOf(deliveries, u) == 1)
  }

  ghost predicate Valid(s: State) {
    Lifecycle.Valid(s) && Known(s.deliveries, s.profiles) && BusyHasWork(s.deliveries, s.profiles)
  }

  lemma ActiveIsCount(deliveries: seq<Delivery>, user: Id)
    ensures ActiveOf(deliveries, user) >= 0
    ensures ActiveOf(deliveries, user) == 0 <==>
      forall d :: 0 <= d < |deliveries| ==>
        deliveries[d].collaboratorId != user || deliveries[d].status == DeliveryStatus.Delivered
  {
    SumNonNegative(deliveries, ActiveFor(user));
    assert forall d :: 0 <= d < |deliveries| ==>
      (ActiveFor(user)(deliveries[d]) == 0 <==>
        deliveries[d].collaboratorId != user || deliveries[d].status == DeliveryStatus.Delivered);
  }

  lemma AssignEffect(s: State, user: User, o: Id, near: seq<Id>) returns (chosen: Id)
    requires Deliveries.AssignOrder(s, user, o, near).Success?
    ensures exists i :: 0 <= i < |near| && near[i] == chosen
                        && forall j :: 0 <= j < i ==> !Deliveries.Available(s.profiles, near[j])
    ensures Deliveries.Available(s.profiles, chosen)
    ensures var s' := Deliveries.AssignOrder(s, user, o, near).value;
      && s'.profiles == s.profiles[chosen := s.profiles[chosen].(availability := OnDelivery)]
      && |s'.deliveries| == |s.deliveries| + 1 && s'.deliveries[..|s.deliveries|] == s.deliveries
      && s'.deliveries[|s.deliveries|].collaboratorId == chosen
      && forall u :: ActiveOf(s'.deliveries, u) == ActiveOf(s.deliveries, u) + if u == chosen then 1 else 0
  {
    var candidates := Deliveries.FindAvailable(s.profiles, near);
    chosen := candidates[0];
    assert chosen in candidates;
    var nearest := Deliveries.NearestIsChosen(s.profiles, near);
    var s' := Deliveries.AssignOrder(s, user, o, near).value;
    forall u ensures ActiveOf(s'.deliveries, u) == ActiveOf(s.deliveries, u) + if u == chosen then 1 else 0 {
      SumSnoc(s.deliveries, s'.deliveries[|s.deliveries|], ActiveFor(u));
    }
  }

  lemma AdvanceEffect(s: State, user: User, d: Id, status: DeliveryStatus, now: int)
    requires Lifecycle.Valid(s) && Deliveries.AdvanceStatus(s, user, d, status, now).Success?
    ensures var s' := Deliveries.AdvanceStatus(s, user, d, status, now).value;
      && d < |s.deliveries| && s.deliveries[d].collaboratorId == user.id
      && s'.deliveries == s.deliveries[d := s.deliveries[d].(status := status)]
      && s'.profiles ==
        (if status == DeliveryStatus.Delivered then Deliveries.Release(s.profiles, user.id) else s.profiles)
      && forall u :: ActiveOf(s'.deliveries, u) ==
           ActiveOf(s.deliveries, u) - if u == user.id && status == DeliveryStatus.Delivered then 1 else 0
  {
    var s' := Deliveries.AdvanceStatus(s, user, d, status, now).value;
    var effect := Lifecycle.AdvanceDeliveryEffect(s, user, d, status, now);
    forall u
      ensures ActiveOf(s'.deliveries, u) ==
        ActiveOf(s.deliveries, u) - if u == user.id && status == DeliveryStatus.Delivered then 1 else 0
    {
      SumUpdate(s.deliveries, d, s'.deliveries[d], ActiveFor(u));
    }
  }

  /** The calls that neither touch a delivery nor anyone's availability. */
  lemma ElsewhereKeepsDispatch(s: State, c: Call)
    requires !c.AssignOrder? && !c.AdvanceDelivery? && !IsProfileCall(c)
    ensures Step(s, c).deliveries == s.deliveries && Step(s, c).profiles.Keys == s.profiles.Keys
    ensures forall u :: u in s.profiles ==> Step(s, c).profiles[u].availability == s.profiles[u].availability
  {
    if IsOrderCall(c) {}
    else if IsStoreCall(c) { StoreFrame(s, c); }
    else if IsCatalogCall(c) { CatalogFrame(s, c); }
    else if IsSettlementCall(c) { SettlementFrame(s, c); }
    else if IsErrandCall(c) { ErrandFrame(s, c); }
    else if c.CreateReview? { ReviewFrame(s, c); }
    else { IntentFrame(s, c); }
  }

  lemma ProfileCallEffect(s: State, c: Call)
    requires IsProfileCall(c) && Known(s.deliveries, s.profiles)
    ensures Step(s, c).deliveries == s.deliveries && s.profiles.Keys <= Step(s, c).profiles.Keys
    ensures forall u :: u in Step(s, c).profiles && u !in s.profiles ==>
      ActiveOf(s.deliveries, u) == 0 && Step(s, c).profiles[u].availability != OnDelivery
    ensures forall u :: u in s.profiles ==>
      || Step(s, c).profiles[u].availability == s.profiles[u].availability
      || (c.SetAvailability? && c.user.id == u && Step(s, c).profiles[u].availability != OnDelivery)
  {
    ProfileFrame(s, c);
    forall u | u !in s.profiles ensures ActiveOf(s.deliveries, u) == 0 {
      ActiveIsCount(s.deliveries, u);
    }
  }

  /** Nobody holding a delivery changes their own availability. */
  predicate HandsOff(s: State, c: Call) {
    c.SetAvailability? && Try(s, c).Success? ==> ActiveOf(s.deliveries, c.user.id) == 0
  }

  /** What a step must keep: the work behind every flag, and exclusiveness where there was any. */
  ghost predicate Keeps(s: State, s': State) {
    && Known(s'.deliveries, s'.profiles)
    && BusyHasWork(s'.deliveries, s'.profiles)
    && (Exclusive(s.deliveries, s.profiles) ==> Exclusive(s'.deliveries, s'.profiles))
  }

  lemma AssignKeeps(s: State, user: User, o: Id, near: seq<Id>)
    requires Valid(s) && Deliveries.AssignOrder(s, user, o, near).Success?
    ensures Keeps(s, Deliveries.AssignOrder(s, user, o, near).value)
  {
    var s' := Deliveries.AssignOrder(s, user, o, near).value;
    var chosen := AssignEffect(s, user, o, near);
    ActiveIsCount(s.deliveries, chosen);
    forall d | 0 <= d < |s'.deliveries| ensures s'.deliveries[d].collaboratorId in s'.profiles {
      if d < |s.deliveries| { assert s'.deliveries[d] == s.deliveries[d]; }
    }
  }

  lemma AdvanceKeeps(s: State, user: User, d: Id, status: DeliveryStatus, now: int)
    requires Valid(s) && Deliveries.AdvanceStatus(s, user, d, status, now).Success?
    ensures Keeps(s, Deliveries.AdvanceStatus(s, user, d, status, now).value)
  {
    AdvanceEffect(s, user, d, status, now);
    ActiveIsCount(Deliveries.AdvanceStatus(s, user, d, status, now).value.deliveries, user.id);
    assert s.deliveries[d].collaboratorId in s.profiles;
  }

  lemma StepKeepsValid(s: State, c: Call)
    requires Valid(s)
    ensures Valid(Step(s, c))
    ensures HandsOff(s, c) ==> Keeps(s, Step(s, c))
  {
    Lifecycle.StepKeepsValid(s, c);
    if Try(s, c).Failure? {}
    else if c.AssignOrder? { AssignKeeps(s, c.user, c.orderId, c.near); }
    else if c.AdvanceDelivery? { AdvanceKeeps(s, c.user, c.deliveryId, c.deliveryStatus, c.now); }
    else if IsProfileCall(c) { ProfileCallEffect(s, c); }
    else { ElsewhereKeepsDispatch(s, c); }
  }

  lemma {:induction false} RunKeepsValid(s: State, calls: seq<Call>)
    requires Valid(s)
    ensures Valid(Run(s, calls))
  {
    if calls != [] {
      RunKeepsValid(s, calls[..|calls| - 1]);
      StepKeepsValid(Run(s, calls[..|calls| - 1]), calls[|calls| - 1]);
    }
  }

  // ----- collaborators who leave their availability alone while delivering

  predicate AllHandsOff(s: State, calls: seq<Call>) {
    calls == [] || (
      var front := calls[..|calls| - 1];
      AllHandsOff(s, front) && HandsOff(Run(s, front), calls[|calls| - 1]))
  }

  /** Then nobody ever holds two deliveries, and the flag tells exactly who holds one. */
  lemma {:induction false} RunKeepsExclusive(s: State, calls: seq<Call>)
    requires Valid(s) && Exclusive(s.deliveries, s.profiles) && AllHandsOff(s, calls)
    ensures Exclusive(Run(s, calls).deliveries, Run(s, calls).profiles)
  {
    if calls != [] {
      var front := calls[..|calls| - 1];
      RunKeepsExclusive(s, front);
      RunKeepsValid(s, front);
      StepKeepsValid(Run(s, front), calls[|calls| - 1]);
    }
  }

  /** The condition is exact: a change of availability keeps the flag right exactly when the
      collaborator holds nothing. */
  lemma FlagSurvivesIffIdle(s: State, user: User, status: Availability, located: bool)
    requires Valid(s) && Exclusive(s.deliveries, s.profiles)
    requires Collaborators.SetAvailability(s, user, status, located).Success?
    ensures Exclusive(s.deliveries, Collaborators.SetAvailability(s, user, status, located).value.profiles)
       <==> ActiveOf(s.deliveries, user.id) == 0
  {
    var s' := Collaborators.SetAvailability(s, user, status, located).value;
    ActiveIsCount(s.deliveries, user.id);
    assert s'.profiles[user.id].availability != OnDelivery;
    if ActiveOf(s.deliveries, user.id) == 0 {
      assert Exclusive(s.deliveries, s'.profiles);
    }
  }

  /** A collaborator who goes online in the middle of a delivery is given another. */
  lemma OnlineTooSoon(s: State, courier: User, seller: User, o: Id)
    requires Valid(s) && courier.id in s.profiles
    requires s.profiles[courier.id].verification == VerificationStatus.Approved
      && ActiveOf(s.deliveries, courier.id) >= 1
    requires o < |s.orders| && s.orders[o].status == OrderStatus.Ready
      && s.stores[s.orders[o].storeId].ownerId == seller.id
    ensures var s1 := Collaborators.SetAvailability(s, courier, Online, true);
      && s1.Success?
      && var s2 := Deliveries.AssignOrder(s1.value, seller, o, [courier.id]);
      && s2.Success? && ActiveOf(s2.value.deliveries, courier.id) == ActiveOf(s.deliveries, courier.id) + 1 >= 2
  {
    var s1 := Collaborators.SetAvailability(s, courier, Online, true).value;
    assert !Lifecycle.HasDelivery(s.deliveries, o);
    assert Deliveries.FindAvailable(s1.profiles, [courier.id]) == [] + [courier.id];
    var chosen := AssignEffect(s1, seller, o, [courier.id]);
  }
}
