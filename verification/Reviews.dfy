/** app/reviews: the running average (logic.py) and who may review what (service.py). */
module ReviewLogic {
  import opened Documents
  import opened Rounding

  /** The stars a rating stands for: its average times its count. */
  function Weight(r: Rating): real {
    r.avg * r.count as real
  }

  function RecomputeRating(current: Rating, stars: int): Rating {
    var count := current.count + 1;
    Rating(RoundCents((Weight(current) + stars as real) / count as real), count)
  }
}

module Reviews {
  import opened Wrappers
  import opened Documents
  import opened ReviewLogic

  predicate SameReview(r: Review, fromUserId: Id, targetType: TargetType, targetId: Id, orderId: Id) {
    r.fromUserId == fromUserId && r.targetType == targetType && r.targetId == targetId && r.orderId == orderId
  }

  predicate Exists(reviews: seq<Review>, fromUserId: Id, targetType: TargetType, targetId: Id, orderId: Id) {
    exists i :: 0 <= i < |reviews| && SameReview(reviews[i], fromUserId, targetType, targetId, orderId)
  }

  function ApplyRating(s: State, targetType: TargetType, targetId: Id, stars: int): State {
    match targetType
    case StoreTarget =>
      if targetId < |s.stores| then
        var store := s.stores[targetId];
        s.(stores := s.stores[targetId := store.(rating := RecomputeRating(store.rating, stars))])
      else s
    case CollaboratorTarget =>
      if targetId in s.profiles then
        var profile := s.profiles[targetId];
        s.(profiles := s.profiles[targetId := profile.(rating := RecomputeRating(profile.rating, stars))])
      else s
  }

  function TargetOf(order: Order, targetType: TargetType): Option<Id> {
    match targetType
    case StoreTarget => Some(order.storeId)
    case CollaboratorTarget => order.collaboratorId
  }

  function CreateReview(s: State, user: User, orderId: Id, targetType: TargetType, stars: int): Result<State, Error> {
    if orderId >= |s.orders| then Failure(NotFound)
    else
      var order := s.orders[orderId];
      if order.clientId != user.id then Failure(Forbidden)
      else if order.status != OrderStatus.Delivered then Failure(NotDelivered)
      else match TargetOf(order, targetType)
           case None => Failure(NoCollaborator)
           case Some(targetId) =>
             if Exists(s.reviews, user.id, targetType, targetId, orderId) then Failure(AlreadyReviewed)
             else Success(ApplyRating(
               s.(reviews := s.reviews + [Review(user.id, targetType, targetId, orderId, stars)]),
               targetType, targetId, stars))
  }
}
