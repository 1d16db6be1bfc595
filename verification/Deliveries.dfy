/** app/delivery: the second status machine (logic.py) and its unguarded write to the first (service.py). */
module DeliveryLogic {
  import opened Wrappers
  import opened Documents

  function NextDeliveryStatus(current: DeliveryStatus): Option<DeliveryStatus> {
    match current
    case Assigned => Some(DeliveryStatus.EnRoutePickup)
    case EnRoutePickup => Some(DeliveryStatus.PickedUp)
    case PickedUp => Some(DeliveryStatus.EnRouteDropoff)
    case EnRouteDropoff => Some(DeliveryStatus.Delivered)
    case Delivered => None
  }

  function OrderStatusFor(status: DeliveryStatus): Option<OrderStatus> {
    match status
    case PickedUp => Some(OrderStatus.PickedUp)
    case Delivered => Some(OrderStatus.Delivered)
    case _ => None
  }
}

module Deliveries {
  import opened Wrappers
  import opened Documents
  import opened DeliveryLogic
  import Orders
  import Payments

  /** `get_by_ref`: the first delivery for a document. */
  function DeliveryByRef(deliveries: seq<Delivery>, refType: RefType, refId: Id): (r: Option<Id>)
    ensures r.Some? ==>
      r.value < |deliveries| && deliveries[r.value].refType == refType && deliveries[r.value].refId == refId
    ensures r.None? ==> forall k :: 0 <= k < |deliveries| ==>
      !(deliveries[k].refType == refType && deliveries[k].refId == refId)
  {
    if deliveries == [] then None
    else
      var n := |deliveries| - 1;
      var earlier := DeliveryByRef(deliveries[..n], refType, refId);
      if earlier.Some? then earlier
      else if deliveries[n].refType == refType && deliveries[n].refId == refId then Some(n)
      else
        assert forall k :: 0 <= k < n ==> deliveries[k] == deliveries[..n][k];
        None
  }

  predicate Available(profiles: map<Id, Profile>, user: Id) {
    && user in profiles
    && profiles[user].verification == VerificationStatus.Approved
    && profiles[user].availability == Online
  }

  /** `find_available_near`, given the users the geospatial index returns nearest first. */
  function FindAvailable(profiles: map<Id, Profile>, near: seq<Id>): (r: seq<Id>)
    ensures forall u :: u in r <==> u in near && Available(profiles, u)
  {
    if near == [] then []
    else
      var n := |near| - 1;
      FindAvailable(profiles, near[..n]) + if Available(profiles, near[n]) then [near[n]] else []
  }

  /** Where in the index's list the available users are. */
  function AvailableAt(profiles: map<Id, Profile>, near: seq<Id>): (positions: seq<nat>)
    ensures forall i :: i in positions <==> 0 <= i < |near| && Available(profiles, near[i])
    ensures forall j, k :: 0 <= j < k < |positions| ==> positions[j] < positions[k]
  {
    if near == [] then []
    else
      var n := |near| - 1;
      var earlier := AvailableAt(profiles, near[..n]);
      assert forall k :: 0 <= k < |earlier| ==> earlier[k] in earlier;
      if Available(profiles, near[n]) then earlier + [n] else earlier
  }

  /** The users at some positions of the index's list. */
  predicate Lists(near: seq<Id>, positions: seq<nat>, users: seq<Id>) {
    && |positions| == |users|
    && forall k :: 0 <= k < |users| ==> positions[k] < |near| && users[k] == near[positions[k]]
  }

  lemma ListsMore(near: seq<Id>, n: nat, positions: seq<nat>, users: seq<Id>)
    requires n < |near| && Lists(near[..n], positions, users)
    ensures Lists(near, positions, users) && Lists(near, positions + [n], users + [near[n]])
  {
  }

  /** Nearest first: the available users stand in the order of the index, none skipped. */
  lemma {:induction false} FindAvailableKeepsOrder(profiles: map<Id, Profile>, near: seq<Id>)
    ensures Lists(near, AvailableAt(profiles, near), FindAvailable(profiles, near))
  {
    if near != [] {
      var n := |near| - 1;
      var positions, users := AvailableAt(profiles, near[..n]), FindAvailable(profiles, near[..n]);
      FindAvailableKeepsOrder(profiles, near[..n]);
      ListsMore(near, n, positions, users);
      assert users + [] == users;
    }
  }

  /** The one chosen is the nearest of those available. */
  lemma NearestIsChosen(profiles: map<Id, Profile>, near: seq<Id>) returns (i: nat)
    requires FindAvailable(profiles, near) != []
    ensures i < |near| && FindAvailable(profiles, near)[0] == near[i] && Available(profiles, near[i])
    ensures forall j :: 0 <= j < i ==> !Available(profiles, near[j])
  {
    FindAvailableKeepsOrder(profiles, near);
    var positions := AvailableAt(profiles, near);
    i := positions[0];
    assert i in positions;
    forall j: nat | j < i ensures j !in positions {}
  }

  function AssignOrder(s: State, user: User, orderId: Id, near: seq<Id>): Result<State, Error> {
    if orderId >= |s.orders| then Failure(NotFound)
    else
      var order := s.orders[orderId];
      if order.storeId >= |s.stores| || (s.stores[order.storeId].ownerId != user.id && !user.IsAdmin())
      then Failure(Forbidden)
      else if order.status != OrderStatus.Ready then Failure(OrderNotReady)
      else if DeliveryByRef(s.deliveries, OrderRef, orderId).Some? then Failure(AlreadyAssigned)
      else
        var candidates := FindAvailable(s.profiles, near);
        if candidates == [] then Failure(NoCollaborator)
        else
          var chosen := candidates[0];
          assert chosen in candidates;
          Success(s.(
            deliveries := s.deliveries + [Delivery(OrderRef, orderId, chosen, DeliveryStatus.Assigned)],
            orders := s.orders[orderId :=
              Orders.RecordStatus(order.(collaboratorId := Some(chosen)), OrderStatus.Assigned, user.id)],
            profiles := s.profiles[chosen := s.profiles[chosen].(availability := OnDelivery)]))
  }

  /** Milestones are written to the order whatever its status; a delivered cash order is settled. */
  function SyncOrder(s: State, delivery: Delivery, target: DeliveryStatus, actor: Id, now: int): State {
    match OrderStatusFor(target)
    case None => s
    case Some(status) =>
      var o := delivery.refId;
      if delivery.refType != OrderRef || o >= |s.orders| then s
      else
        var s1 := s.(orders := s.orders[o := Orders.RecordStatus(s.orders[o], status, actor)]);
        if target == DeliveryStatus.Delivered && s.orders[o].payBy == Cash
        then Payments.SettleOrderPayment(s1, o, now)
        else s1
  }

  function Release(profiles: map<Id, Profile>, user: Id): map<Id, Profile> {
    if user in profiles && profiles[user].availability == OnDelivery
    then profiles[user := profiles[user].(availability := Online)]
    else profiles
  }

  function AdvanceStatus(s: State, user: User, deliveryId: Id, target: DeliveryStatus, now: int): Result<State, Error> {
    if deliveryId >= |s.deliveries| then Failure(NotFound)
    else
      var delivery := s.deliveries[deliveryId];
      if delivery.collaboratorId != user.id then Failure(Forbidden)
      else if NextDeliveryStatus(delivery.status) != Some(target) then Failure(InvalidTransition)
      else
        var s1 := s.(deliveries := s.deliveries[deliveryId := delivery.(status := target)]);
        var s2 := SyncOrder(s1, delivery, target, user.id, now);
        Success(if target == DeliveryStatus.Delivered then s2.(profiles := Release(s2.profiles, user.id)) else s2)
  }
}
