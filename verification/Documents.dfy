/** The stored documents and the database. A collection whose documents are never deleted is a
    sequence in insertion order and a document's id is its index; a deleted product leaves a gap. */
module Documents {
  import opened Wrappers

  type Id = nat

  datatype Error =
    | NotFound | Forbidden | InvalidTransition
    | StoreUnavailable | StoreNotOpen | InvalidProduct | ProductUnavailable | InsufficientStock | BelowMinOrder
    | OrderNotReady | AlreadyAssigned | NoCollaborator
    | NotWompi | InvalidSignature
    | NotDelivered | AlreadyReviewed
    | NotApproved | LocationRequired | InvalidStatus | AlreadyCollaborator
    | NoActiveSubscription
    | AssertionFailed

  datatype Role = Client | Seller | Collaborator | SuperAdmin

  datatype User = User(id: Id, role: Role) {
    predicate IsAdmin() { role == SuperAdmin }
  }

  /** The environment settings the money depends on. */
  datatype Settings = Settings(defaultCommissionRate: real, premiumCommissionRate: real)

  datatype StoreStatus = Open | Closed | Suspended

  datatype DeliveryConfig = DeliveryConfig(baseFee: int, minOrder: int, freeOver: Option<int>)

  datatype Rating = Rating(avg: real, count: nat)

  datatype Store = Store(
    ownerId: Id,
    status: StoreStatus,
    delivery: DeliveryConfig,
    commissionRate: Option<real>,
    rating: Rating)

  /** `stock == None` means the product is not stock-tracked. */
  datatype Product = Product(storeId: Id, price: int, stock: Option<int>, isAvailable: bool)

  datatype OrderStatus = Pending | Accepted | Preparing | Ready | Assigned | PickedUp | Delivered | Cancelled

  datatype PaymentMethod = Cash | Wompi

  datatype OrderItem = OrderItem(productId: Id, price: int, qty: int, subtotal: int)

  datatype OrderAmounts = OrderAmounts(itemsTotal: int, deliveryFee: int, platformFee: int, discount: int, total: int)

  datatype StatusEvent = StatusEvent(status: OrderStatus, actor: Id)

  datatype Order = Order(
    clientId: Id,
    storeId: Id,
    items: seq<OrderItem>,
    amounts: OrderAmounts,
    status: OrderStatus,
    history: seq<StatusEvent>,
    payBy: PaymentMethod,
    paymentId: Option<Id>,
    collaboratorId: Option<Id>)

  datatype RefType = OrderRef | ErrandRef

  datatype DeliveryStatus = Assigned | EnRoutePickup | PickedUp | EnRouteDropoff | Delivered

  datatype Delivery = Delivery(refType: RefType, refId: Id, collaboratorId: Id, status: DeliveryStatus)

  datatype VerificationStatus = Unverified | UnderReview | NeedsMoreInfo | Approved | Rejected

  datatype Availability = Offline | Online | OnDelivery

  datatype Profile = Profile(verification: VerificationStatus, availability: Availability, rating: Rating)

  datatype PaymentStatus = Pending | Approved | Declined

  /** A Wompi reference is `BA-` and the order's code. Codes are unique, so the order id stands for it. */
  datatype WompiProvider = WompiProvider(reference: Id, transactionId: Option<string>, wompiStatus: string)

  datatype Payment = Payment(
    refType: RefType,
    refId: Id,
    payerId: Id,
    amount: int,
    payBy: PaymentMethod,
    status: PaymentStatus,
    provider: Option<WompiProvider>)

  datatype LedgerType = Earning | Commission

  /** `userId == None` is the platform's account; `storeId` is set on order entries only. */
  datatype LedgerEntry = LedgerEntry(
    userId: Option<Id>,
    kind: LedgerType,
    amount: int,
    refType: RefType,
    refId: Id,
    storeId: Option<Id>,
    settled: bool,
    createdAt: int)

  datatype SettlementStatus = Due | Paid

  datatype Settlement = Settlement(
    storeId: Id,
    periodStart: int,
    periodEnd: int,
    ordersCount: nat,
    commissionTotal: int,
    status: SettlementStatus)

  datatype SubscriptionStatus = Active | Lapsed

  datatype Subscription = Subscription(status: SubscriptionStatus, commissionRate: real)

  datatype ErrandStatus = Open | Assigned | InProgress | Completed | Cancelled

  datatype Errand = Errand(
    clientId: Id,
    offeredFee: int,
    status: ErrandStatus,
    history: seq<ErrandStatus>,
    collaboratorId: Option<Id>,
    paymentId: Option<Id>)

  datatype TargetType = StoreTarget | CollaboratorTarget

  datatype Review = Review(fromUserId: Id, targetType: TargetType, targetId: Id, orderId: Id, stars: int)

  /** The whole database. Profiles are unique per user and subscriptions per store. */
  datatype State = State(
    settings: Settings,
    stores: seq<Store>,
    products: seq<Option<Product>>,
    orders: seq<Order>,
    deliveries: seq<Delivery>,
    profiles: map<Id, Profile>,
    payments: seq<Payment>,
    ledger: seq<LedgerEntry>,
    settlements: seq<Settlement>,
    subscriptions: map<Id, Subscription>,
    errands: seq<Errand>,
    reviews: seq<Review>)

  function EmptyState(settings: Settings): State {
    State(settings, [], [], [], [], map[], [], [], [], map[], [], [])
  }
}
