# A verified model of the order-to-money pipeline

The repository is the backend of a delivery marketplace: clients order from stores, sellers prepare,
collaborators deliver or run errands, and the platform withholds a commission. What is hard in it spans
modules: an order lives in two state machines, one of which writes into the other without looking; a
ledger is written by two routes that must not both write; seller statements cover arbitrary, overlapping
periods; stock is taken through stale copies and given back through fresh ones. This project models the
whole pipeline as one state machine and proves those properties for every run. Beside it stand three
self-contained cores: the running average of ratings, the fixed-window rate limiter, and the retrieval
ranking of the assistant.

`dafny verify dfyconfig.toml` checks everything.

## How it is organised

- `Documents`: the stored documents and the database. A document's id is its index in its collection;
  products can be deleted and leave a gap; profiles are keyed by user and subscriptions by store.
- `Orders`, `Deliveries`, `Payments`, `Settlements`, `Reviews`, `Environment`: the pure rules of each
  `logic.py`, and a specification function per service call, from the database before to the database
  after or the error raised.
- `Backend`: class `Services`, the services as they run. Its methods load copies, change them and save
  them one at a time in loops, as the source does, and each is proved to end in the state, or raise the
  error, of its specification; a method that raises leaves the database alone.
- `Server`: requests served one after the other. `Server.Serve` leaves the services in exactly the state of
  the platform's run of the same calls, so every theorem about runs is one about the services, and
  `Server.Launch` concludes that services started empty satisfy all the invariants whatever is requested.
- `Platform`: the 26 calls as atomic steps over the same specifications, and runs of them. `WellFormed` holds
  the bounds of the request schemas (quantity at least 1, non-negative price and stock, 1 to 5 stars,
  offered fee at least 1). `Frames` says what each family of calls leaves alone.
- `Ordering`, `Effects`, `Periods`: each call in plain terms, without its specification function: when it
  succeeds, with which error otherwise, what it writes field by field, and into which statements that falls.
- One module per theme, each with an invariant kept by every call: `Lifecycle`, `Accounts`, `Books`,
  `Revenue`, `Stock`, `Dispatch`, `Reputation`, `ErrandLifecycle`, `Earnings`, `Pricing`, `Amounts`; and
  what follows from them over runs: `Evolution`, `Conservation`, `Metrics`, `Webhooks`. `Reachable` puts them together for every
  state that calls on an empty platform can reach, and `Scenarios` holds the runs that reach the failures
  listed below.
- `Rounding`, `Ratings`, `RateLimit`, `Retrieval` (modules `Vectors`, `Embeddings`, `Ranking`): the
  self-contained cores. Rounding is roundTiesToEven of section 4.3.1 of IEEE 754-2019, on exact reals.

## What turned out otherwise than promised

Properties that fail, with the exact condition under which they hold:

- Stock conservation fails when one order lists a product on two lines: each line loads its own copy, so
  each is checked against the full stock and the last save wins, while cancelling gives both back
  (`Stock.DuplicateLinesInventStock`). It holds if and only if no order placed lists the product twice
  (`Stock.StockConserved`, `Stock.CreateConservesIffListedOnce`).
- A Wompi order approved before it has a collaborator never gets its delivery fee into the ledger. The
  ledger adds up if and only if the fee is 0, or is positive and there was a collaborator at that moment
  (`Conservation.ApprovalDecidesForever`, reached by `Scenarios.PrepaidFeeIsLost`). For cash it adds
  up if and only if the fee is not negative, which app/stores/models.py:32 does not enforce
  (`Conservation.MoneyConserved`, reached by `Scenarios.NegativeFeeLeavesAGap`).
- A collaborator can hold two deliveries after going online in the middle of one
  (`Dispatch.OnlineTooSoon`, reached by `Scenarios.TwoDeliveriesAtOnce`). A change of
  availability keeps the flag right if and only if they hold none (`Dispatch.FlagSurvivesIffIdle`).
- Ranking then filtering equals filtering then ranking if and only if `top_k` is not negative
  (`Ranking.DropCommutesIffNonNegative`).
- `gmv` is not what was collected: `Metrics.VolumeAgainstCollected` gives the exact difference, and
  `Scenarios.UnpaidVolumeIsReported` a run with volume and nothing collected.
- One request whose `expire` fails after a successful `incr` locks a client out: the key never expires, and
  past one limit every request is refused for ever (`RateLimit.FailedExpireLocksOut`). After any trace
  this is so if and only if `expire` failed for a request that started a window and the key has since
  counted up to the limit (`RateLimit.ExpiryIsLostIff`, `RateLimit.LockedOutAfterIff`).

Sharper than one would expect: the limiter admits at most 2 limit - 1, not 2 limit, requests in any
interval of one window's length, and a rating is frozen from 799 reviews on.

Where the documentation and the code disagree, the model follows the code:

- docs/ORDER_FLOW.md:36 allows cancelling until pickup; the code refuses from ASSIGNED on
  (app/orders/logic.py:17-24). That is what makes the unguarded sync safe.
- docs/ORDER_FLOW.md:128 says a declined Wompi payment cancels the order and restores the stock; the code
  changes neither, and a later approval still counts. Neither intent nor webhook looks at the order's
  status, so a cancelled order can be paid.
- docs/ORDER_FLOW.md:113 creates the payment with the order; the code creates it with the first intent or
  on cash delivery.
- docs/ORDER_FLOW.md:134-135 makes the webhook idempotent by transaction id; in the code it is the
  approved status that makes it so.
- docs/COMMISSION_AND_SUBSCRIPTION.md:46-48 resolves the rate from store, subscription and platform
  configuration; the code takes the store's override or the environment setting.
- app/errands/service.py:91 speaks of approved collaborators; the code checks the role only.

## Model

| member | source | states |
|---|---|---|
| `Backend.Services.CreateOrder` | app/orders/service.py:58-147 | a request is accepted iff the store is open, every line can be served and the total reaches the minimum; then the loaded copies are saved one after the other and the order is appended, else nothing changes |
| `Backend.Services.Validate` | app/orders/service.py:66-98 | all lines are of available products of the store with enough stock, and the items are their snapshots, or the error is that of the first line at fault; along with one loaded copy per tracked line |
| `Backend.Services.CommitStock` | app/orders/service.py:120-123 | the loop leaves the products that saving the copies one after the other leaves (a later copy overwrites an earlier one) |
| `Backend.Services.CancelOrder` | app/orders/service.py:249-283 | client, owner or admin; cancellable statuses only; each item is given back to a freshly loaded product, then CANCELLED is recorded |
| `Backend.Services.AssignOrder` | app/delivery/service.py:77-116 | READY orders without a delivery go to the first available collaborator: delivery, order and profile change together |
| `Backend.Services.AdvanceDelivery` | app/delivery/service.py:119-179 | delivery, unguarded order sync, cash settlement and release of the collaborator, in the specified combination |
| `Backend.Services.WriteLedger` | app/payments/service.py:35-58 | appends one entry per line, in order, with the line's account, type, amount and settled flag, the reference, the store and the time it is written |
| `Backend.Services.LedgerForOrder` | app/payments/service.py:61-74 | writes the split of the order for its store's owner, or nothing when the store is gone |
| `Backend.Services.SettleOrderPayment` | app/payments/service.py:77-105 | one approved payment of the order's total, the back reference and the unsettled split; nothing at all if the order already has a payment |
| `Backend.Services.SettleErrandPayment` | app/payments/service.py:108-155 | one approved cash payment and one earning; tells whether it paid |
| `Backend.Services.CreateIntent` | app/payments/service.py:158-198 | owner and Wompi only; reuses the order's payment, or adds one that is PENDING, of the order's total, with the order's reference and no transaction yet |
| `Backend.Services.HandleWompiWebhook` | app/payments/service.py:201-250 | an approved payment is returned untouched; otherwise the event is recorded, and an approval points the order at the payment and writes the settled split |
| `Backend.Services.GenerateSettlement` | app/settlements/service.py:24-59 | adds one statement, due, of the store and period asked for, both ends included, and flips exactly the unsettled commissions it covers |
| `Backend.Services.CreateReview` | app/reviews/service.py:40-83 | client of a delivered order, once per target; appends the review and updates the rating |
| `Backend.Services.Subscribe` | app/subscriptions/service.py:43-84 | creates or reactivates the subscription and writes the premium rate into the store |
| `Backend.Services.CancelSubscription` | app/subscriptions/service.py:87-110 | only an active subscription; clears the store's rate |
| `Ordering.LinesIff` | app/orders/service.py:66-100 | lines validate iff each is of an available product of the store with enough stock if tracked; items snapshot product, price and quantity, their total is the sum of price times quantity, and otherwise the error is that of the first line at fault |
| `Ordering.CreateIff` | app/orders/service.py:58-106 | creation succeeds iff the store is open, all lines can be served and the total reaches the minimum; otherwise it names the first thing wrong, in the source's order |
| `Ordering.CreateEffect` | app/orders/service.py:108-136 | one order is added: the caller's, of the store and method asked for, PENDING, unpaid, unassigned, charged the base fee unless delivery is free and the commission to the nearest integer, even at a tie; only stock changes beside it |
| `Effects.AssignEffect` | app/delivery/service.py:89-105 | the nearest free collaborator gets the delivery and the flag, and the order names them; nothing else changes |
| `Effects.AdvanceDeliveryIff` | app/delivery/service.py:122-129 | advancing succeeds iff the caller is the delivery's collaborator and the target is one step further; otherwise the error says which |
| `Effects.DeliverySyncs` | app/delivery/service.py:131-144 | picking up and arriving are appended to the order's history in the collaborator's name, other steps leave the order alone |
| `Effects.DeliveryPays` | app/payments/service.py:77-93 | arrival of a cash order, and nothing else a delivery does, adds one approved payment by its client of its total |
| `Effects.DeliveryFrees` | app/delivery/service.py:161-167 | arrival, and only arrival, puts a collaborator who is on delivery back online |
| `Effects.IntentIff` | app/payments/service.py:158-190 | an intent succeeds iff the caller is the client and the order is paid by Wompi; the provider assertion never fails; the first one adds a PENDING payment, others change nothing |
| `Effects.IntentThenEvents` | app/payments/service.py:171-243 | from a first intent on, over any run, the payment is PENDING iff no signed event named it, and APPROVED iff one approved |
| `Effects.WebhookIff` | app/payments/service.py:201-250 | an event is heard iff it is signed and its reference is known; an approved payment ignores it, another records its transaction and status and becomes APPROVED or DECLINED |
| `Effects.ErrandPays` | app/payments/service.py:119-130 | completing an errand, and no other step, adds one approved cash payment of its fee by its client |
| `Effects.ReviewIff` | app/reviews/service.py:40-72 | a review succeeds iff it is from the client of a delivered order, of its store or of the collaborator it has, and not made before; otherwise the error says which |
| `Effects.OneReviewEach` | app/reviews/service.py:50-61 | reviewing the store never stands in the way of reviewing the collaborator, or the other way round; reviewing the same again always fails |
| `Backend.Services.AdvanceErrand` | app/errands/service.py:112-150 | the assigned collaborator, along the table; completion pays the errand and stores the payment's id |
| `Deliveries.DeliveryByRef` | app/delivery/repository.py:16-17 | finds a delivery of the document whenever there is one |
| `Deliveries.FindAvailable` | app/collaborators/repository.py:30-48 | keeps exactly the nearby users that are approved and online |
| `Deliveries.FindAvailableKeepsOrder` | app/collaborators/repository.py:30-48 | the available users come nearest first: in the order of the index, none skipped |
| `Deliveries.NearestIsChosen` | app/delivery/service.py:89-94 | the one chosen is available, and nobody nearer is |
| `Payments.PaymentByRef` | app/payments/repository.py:16-17 | finds a payment of the document whenever there is one |
| `Payments.PaymentByReference` | app/payments/repository.py:20-21 | finds a payment with the Wompi reference whenever there is one |
| `Settlements.Captured` | app/settlements/service.py:26-32 | exactly the ids of the matching entries, each once, in insertion order |
| `Lifecycle.TransitionsAreExact` | app/orders/logic.py:10-24 | the seller table, the cancel table, acceptance, assignment and the synced milestones together allow the declared transitions and no others |
| `Lifecycle.SyncIsGuarded` | app/delivery/service.py:139-144 | in a coupled state the status written without a guard is always a legal next step of that order, so it neither moves it backwards nor revives a cancelled one |
| `Lifecycle.AcceptIff` | app/orders/service.py:193-199 | accepting succeeds iff the caller owns the store or is an admin and the order may become ACCEPTED; it appends that to its history and changes nothing else |
| `Lifecycle.AdvanceIff` | app/orders/service.py:218-229 | advancing succeeds iff the caller owns the store or is an admin, the target is PREPARING or READY and no status is skipped; it changes nothing else |
| `Lifecycle.CancelIff` | app/orders/service.py:249-273 | cancelling succeeds iff the caller is the client, the owner or an admin and the order may become CANCELLED; apart from the stock it changes nothing else |
| `Lifecycle.AssignIff` | app/delivery/service.py:77-101 | assigning succeeds iff the caller owns the store or is an admin, the order is READY and somebody nearby is available; the already-assigned check never fires |
| `Lifecycle.AdvanceDeliveryEffect` | app/delivery/service.py:119-144 | a successful delivery step changes one delivery and its one order, whose status becomes the one that goes with the delivery's |
| `Lifecycle.StepKeepsValid` | app/delivery/service.py:77-144 | every call keeps the coupling of orders and deliveries and all histories |
| `Lifecycle.RunKeepsValid` | app/delivery/logic.py:7-18 | in every run: an order has a delivery iff ASSIGNED, PICKED_UP or DELIVERED, at most one, both naming the same collaborator, with the order's status a function of the delivery's |
| `Lifecycle.RanksIncrease` | app/orders/service.py:52-55 | ranks strictly increase along a history, and nothing follows CANCELLED or DELIVERED |
| `Lifecycle.HistoryIsShort` | app/orders/service.py:52-55 | no status occurs twice, at most seven entries (five if cancelled), and the status tells the length of a history that was not cancelled |
| `Lifecycle.StepProgress` | app/orders/service.py:193-272 | a call that moves an order or its delivery raises their combined progress, and no other call changes it |
| `Lifecycle.AtMostEightMoves` | app/delivery/service.py:119-144 | over any run at most eight calls move an order together with its delivery |
| `Accounts.PaymentIsFound` | app/payments/repository.py:16-17 | the lookup returns the one payment the document has |
| `Accounts.ReferenceIsFound` | app/payments/service.py:214-216 | a Wompi reference leads to the one payment of the Wompi order it names |
| `Accounts.AdvanceDeliveryMoney` | app/delivery/service.py:145-152 | a cash order that arrives had no payment, gets one of its total and one split with its collaborator; no other delivery step moves money |
| `Accounts.WebhookMoney` | app/payments/service.py:214-233 | an event that changes anything concerns an unpaid Wompi order; an approval makes it paid, whatever its status, and adds one split; a decline touches neither order nor ledger |
| `Accounts.CompleteErrandMoney` | app/errands/service.py:126-139 | completing an errand always finds it unpaid and with a collaborator, and pays it |
| `Accounts.RunKeepsValid` | app/payments/service.py:77-181 | in every run: at most one payment per document, of its total, payer and method; approved iff the document points back; cash orders paid iff DELIVERED; errands paid iff COMPLETED |
| `Books.OrderPaidBooked` | app/payments/service.py:61-74 | writing the split of an unpaid order leaves that order with exactly this split and every other document's movements as they were |
| `Books.SettlingBooked` | app/settlements/service.py:45-48 | settling entries moves no money |
| `Books.RunKeepsValid` | app/payments/service.py:77-233 | in every run an order's ledger is empty while it is unpaid and exactly one split once it is paid; a commission is its order's platform fee; only cash commissions are ever unsettled; no order has two |
| `Periods.DeliveryWrites` | app/payments/service.py:61-96 | the exact entries of a cash order that arrives, dated at that call: the collaborator's settled, the platform's and the seller's waiting; no other delivery step writes |
| `Periods.WebhookWrites` | app/payments/service.py:225-233 | the exact entries of the order an event approves, all settled, dated at that call; no other event writes |
| `Periods.EntriesAreDated` | app/payments/service.py:41-51 | every entry any call adds carries the time of that call, and no call but a statement touches another |
| `Periods.StatementEffect` | app/settlements/service.py:26-48 | one statement is added, due, of the store and period asked for; its total and count are those of the entries the call settled, which are the unsettled commissions it covers |
| `Periods.SettledIffCovered` | app/settlements/service.py:26-48 | over any run an entry stays as written, and becomes settled iff some statement of its store had a period around the time it was written |
| `Periods.CommissionFallsInItsPeriod` | app/settlements/service.py:26-32 | the commission of a cash order delivered at a time is captured by a statement iff it is of that store, its period holds that time, and no statement since has captured it |
| `Evolution.RunEvolves` | app/orders/service.py:52-55 | over any run orders keep client, store, items, amounts, method, collaborator and payment, histories are only appended to, approved payments are final, and a ledger entry can only become settled |
| `Evolution.TerminalIsForever` | app/orders/logic.py:16-24 | a DELIVERED or CANCELLED order keeps status and history whatever is called |
| `Conservation.BatchTotal` | app/payments/logic.py:25-59 | a split sums to the items, plus the delivery fee when there is a collaborator to earn a positive one |
| `Conservation.PartiesGetTheirShare` | app/payments/logic.py:34-40 | for every account: the platform receives the fee, the seller items less fee, the collaborator the delivery fee, anyone else nothing |
| `Conservation.MoneyConserved` | app/payments/service.py:83-96 | a paid order's payment is its total; a cash order's ledger adds up to it iff its delivery fee is not negative (the store model does not bound base_fee) |
| `Conservation.LedgerIffPaid` | app/payments/service.py:77-96 | an order is in the ledger iff it is paid: for cash iff DELIVERED, for Wompi iff its payment is APPROVED; never two payments |
| `Conservation.BooksAreFrozen` | app/payments/service.py:214-218 | once an order is in the ledger, no run adds to, removes or alters its movements: replays and the other settlement route are harmless |
| `Conservation.ApprovalDecidesForever` | app/payments/service.py:225-233 | for a Wompi order the ledger adds up to the total, for ever, iff the delivery fee is 0, or is positive and a collaborator was set when it was approved; without one exactly the delivery fee is missing |
| `Revenue.StatementTakes` | app/settlements/service.py:34-48 | for each store and overall: settling takes out of the unsettled commissions exactly the statement's total and count |
| `Revenue.StatementCountsOrders` | app/settlements/logic.py:4-8 | the distinct orders of a statement are as many as its entries |
| `Revenue.RunKeepsValid` | app/settlements/service.py:24-48 | in every run, per store and overall: statements plus unsettled commissions are the fees of the paid cash orders, statement counts plus waiting entries are those orders, and all commissions are the fees of the paid orders |
| `Revenue.MarkPaidKeepsTotals` | app/settlements/service.py:62-71 | marking a statement as paid leaves every total and count of statements, per store and overall, as it was |
| `Revenue.RunEvolvesStatements` | app/settlements/service.py:62-71 | over any run a statement keeps store, period, count and total, and once paid stays paid |
| `Revenue.RevenueAgrees` | app/admin/service.py:40 | platform_revenue is the sum of platform_fee over the orders with an approved payment, and is statements plus unsettled cash commissions plus Wompi commissions |
| `Revenue.NothingCapturedTwice` | app/settlements/service.py:26-48 | whatever happens between two statements, and however their periods overlap, they share no entry |
| `Metrics.CollectedIsPaid` | app/payments/service.py:83-93 | approved order payments add up to the totals of the paid orders |
| `Metrics.VolumeAgainstCollected` | app/admin/service.py:39 | gmv exceeds what was collected by the Wompi orders delivered but never paid, less those paid but not delivered |
| `Stock.CommitEffect` | app/orders/service.py:120-123 | after the commit loop every listed tracked product has its original stock less the quantity of its last line, which was in stock |
| `Stock.RestoreEffect` | app/orders/service.py:265-270 | cancelling gives every tracked product all quantities of all its lines |
| `Stock.OrdersMoveOnlyStock` | app/orders/service.py:120-123 | placing or cancelling an order changes no product but for its stock |
| `Stock.StepKeepsStock` | app/orders/service.py:58-283 | every call but the seller's own edits keeps stock + held - surplus, and no stock becomes negative |
| `Stock.RunKeepsBalance` | app/orders/service.py:97-123 | the same over whole runs, surplus being what orders list beyond their last line for the product |
| `Stock.StockConserved` | app/orders/service.py:258-273 | over a run without the seller's edits, stock + held by non-cancelled orders is what it was iff no order placed in it lists the product twice; otherwise it has grown |
| `Stock.CreateConservesIffListedOnce` | app/orders/service.py:65-123 | a caller can tell beforehand: an accepted request conserves a product iff it lists it at most once |
| `Stock.DuplicateLinesInventStock` | app/orders/service.py:65-123 | the failing input: three and three of a product with five in stock is accepted, and after cancelling there are eight |
| `Dispatch.AssignEffect` | app/delivery/service.py:89-105 | the chosen collaborator is nearby, approved and online, becomes on-delivery, and holds one delivery more; nobody else changes |
| `Dispatch.AdvanceEffect` | app/delivery/service.py:161-167 | only arrival changes what a collaborator holds, by one, and only then may the flag go back to online |
| `Dispatch.ProfileCallEffect` | app/collaborators/service.py:27-134 | joining, verifying and setting availability change no delivery and nobody's flag but the caller's own, which they can never set to on-delivery; verification leaves it alone |
| `Dispatch.RunKeepsValid` | app/delivery/service.py:103-105 | in every run on-delivery implies an undelivered delivery |
| `Dispatch.RunKeepsExclusive` | app/collaborators/service.py:96-108 | when nobody changes their availability while holding a delivery, nobody ever holds two, and on-delivery means holding exactly one |
| `Dispatch.FlagSurvivesIffIdle` | app/collaborators/service.py:104-108 | the condition is exact: a change of availability keeps the flag right iff the collaborator holds nothing |
| `Dispatch.OnlineTooSoon` | app/collaborators/repository.py:30-41 | a collaborator who goes online in the middle of a delivery can be given a second one |
| `Rounding.RoundHalfEven` | app/orders/logic.py:42 | within a half, and even at a tie |
| `Rounding.RoundIsUnique` | app/orders/logic.py:42 | no other integer is within a half and even at a tie: the rounding is Python's, on exact values |
| `Ratings.DriftBound` | app/reviews/logic.py:4-8 | after n reviews the count is n, and average times count is within 0.0025 n (n + 1) of the stars given |
| `Ratings.MeanDrift` | app/reviews/logic.py:6-8 | after any n reviews the stored average is within 0.0025 (n + 1) of the true mean |
| `Ratings.RecomputeRounds` | app/reviews/logic.py:6-8 | the new average is the exact one to the nearest hundredth, even at a tie |
| `Ratings.StaysInRange` | app/reviews/logic.py:6-8 | the stored average lies between 1 and 5 |
| `Ratings.RatingFreezes` | app/reviews/logic.py:6-8 | from 799 reviews on no sequence of further reviews changes the stored average |
| `Ratings.FrozenNoSooner` | app/reviews/logic.py:6-8 | 798 are not enough: after 798 ones a five still moves it |
| `Reputation.ApplyFolds` | app/reviews/service.py:23-37 | when every rating is its reviews folded in order, one more review applied keeps it so, for the target and for everybody else |
| `Reputation.RunKeepsValid` | app/reviews/service.py:40-83 | in every run each store's and collaborator's rating is its reviews folded in order, and reviews are by clients of delivered orders, one per order and kind of target |
| `Reputation.StoreRatingIsHonest` | app/reviews/service.py:26-31 | a store's count is its number of reviews, at most its delivered orders; its average is in [1, 5] and within the drift bound |
| `Reputation.CollaboratorRatingIsHonest` | app/reviews/service.py:32-37 | the same for a collaborator |
| `Reputation.StoreAverageIsFrozen` | app/reviews/service.py:26-31 | once a store has 799 reviews no run changes its average |
| `Reputation.CollaboratorAverageIsFrozen` | app/reviews/service.py:32-37 | the same for a collaborator |
| `Webhooks.Decisive` | app/payments/service.py:217-245 | the first approving event, or the last event when none approves |
| `Webhooks.ClosedForm` | app/payments/service.py:217-243 | from PENDING: APPROVED iff some event approves, also after declines; DECLINED iff there were events and none approved; transaction id and status are the decisive event's |
| `Webhooks.PaymentIsItsEvents` | app/payments/service.py:214-243 | in the middle of any run a Wompi payment is its own validly signed events folded in order, and nothing else |
| `Webhooks.LedgerWrittenOnceOrNever` | app/payments/service.py:225-233 | from a pending payment, over any run, the order is in the ledger iff one of its events approves, and then with one split |
| `Earnings.CompletionEarns` | app/payments/service.py:132-145 | completing an errand adds its offered fee to its collaborator's earnings and to nobody else's |
| `ErrandLifecycle.AcceptIff` | app/errands/service.py:88-100 | accepting succeeds iff the caller is a collaborator and the errand may become ASSIGNED; it had no collaborator, and only this errand moves |
| `ErrandLifecycle.AdvanceIff` | app/errands/service.py:112-139 | advancing succeeds iff the caller is its collaborator, the target is IN_PROGRESS or COMPLETED and no status is skipped; only this errand moves |
| `ErrandLifecycle.CancelIff` | app/errands/service.py:153-164 | cancelling succeeds iff the caller is the client or an admin and the errand may become CANCELLED; no money moves |
| `ErrandLifecycle.HistoryIsShort` | app/errands/logic.py:9-15 | a history has at most four entries (three if cancelled), nothing follows COMPLETED or CANCELLED, and an OPEN errand has no collaborator |
| `ErrandLifecycle.RunKeepsErrands` | app/errands/service.py:28-31 | in every run histories start OPEN and take permitted steps only, and client, fee and collaborator of an errand never change once set |
| `ErrandLifecycle.TerminalIsForever` | app/errands/logic.py:14-15 | a COMPLETED or CANCELLED errand keeps status and history whatever is called |
| `Earnings.RunKeepsValid` | app/errands/service.py:112-139 | in every run, for each collaborator and overall, errand earnings are the offered fees of the completed errands |
| `Earnings.ErrandPaidOnce` | app/errands/service.py:129-139 | an errand has a payment iff COMPLETED, then one, of its fee, with one earning for its collaborator; so a cancelled one never pays |
| `Pricing.FeeBounds` | app/orders/logic.py:42 | at a rate in [0, 1] the fee lies between 0 and the items total |
| `Pricing.FeeIsMonotone` | app/orders/logic.py:42 | a larger order never pays a smaller commission |
| `Pricing.CreateChargesRateInForce` | app/orders/service.py:108-118 | a new order's fee is computed at the premium rate iff the store's subscription is active, else at the default rate |
| `Pricing.RunKeepsCoherent` | app/subscriptions/service.py:49-100 | in every run a store has a rate override iff its subscription is active, and it is the premium rate |
| `Pricing.RunKeepsValid` | app/orders/logic.py:31-50 | in every run, with rates in [0, 1], prices stay non-negative and every order's fee lies between 0 and its items total |
| `Pricing.FeeIsForever` | app/orders/service.py:108-118 | an order keeps the fee of the rate in force when it was placed, whatever is subscribed or cancelled later |
| `Pricing.StatementIsNearRate` | app/settlements/logic.py:4-8 | a statement over k orders placed at one rate is within k / 2 of that rate on their total |
| `Amounts.LedgerIsNonNegative` | app/payments/logic.py:41-58 | with fees in bounds no ledger entry is negative, whatever delivery fees stores set |
| `Amounts.NothingIsNegative` | app/settlements/service.py:34-43 | at rates in [0, 1] no ledger entry and no statement of any run is negative |
| `RateLimit.Limiter.Hit` | app/core/ratelimit.py:30-47 | one request: the counter afterwards and the verdict, in each case of Redis answering or failing |
| `RateLimit.Split` | app/core/ratelimit.py:30-47 | counter and admissions of a trace are those of its parts in sequence |
| `RateLimit.SameWindow` | app/core/ratelimit.py:34-43 | a live counter counts every request and admits exactly what is left of the limit |
| `RateLimit.FreshWindow` | app/core/ratelimit.py:34-47 | a window that starts with a fresh counter admits exactly the smaller of its hits and the limit |
| `RateLimit.SlidingWindow` | app/core/ratelimit.py:30-47 | in every timed trace, no half-open interval of one window's length admits more than 2 limit - 1 requests (none when the limit is 0) |
| `RateLimit.BoundIsReached` | app/core/ratelimit.py:30-47 | 2 limit - 1 is reached, for every limit of at least 1 and window of at least 2 time units |
| `RateLimit.FailedExpireLocksOut` | app/core/ratelimit.py:34-41 | the failing input: after one request whose expire raises, any later requests that reach Redis, at any times, share what is left of one limit, and then every request is refused for ever |
| `RateLimit.LostExpiryLocksOut` | app/core/ratelimit.py:34-47 | a key without an expiry that has reached the limit refuses every later request |
| `RateLimit.ExpiryIsLostIff` | app/core/ratelimit.py:34-41 | over every trace, whatever Redis does: the key is left without an expiry iff expire raised for some request that started a window |
| `RateLimit.LockedOutAfterIff` | app/core/ratelimit.py:30-47 | at a limit of at least 1, after any trace a client is refused for ever iff some request lost its window's expiry and the key has since counted up to the limit |
| `RateLimit.OutageLeavesNoTrace` | app/core/ratelimit.py:32-41 | requests made while Redis is down are all admitted and change nothing for the others: their counter and admissions are those of the trace without them |
| `Vectors.CauchySchwarz` | app/ai/retrieval.py:9-15 | for vectors of any two lengths the squared dot product is at most the product of the squared norms |
| `Vectors.CosineRange` | app/ai/retrieval.py:9-15 | similarity lies in [-1, 1], has the sign of the dot product, and times both lengths is the dot product |
| `Vectors.CosineIsQuotient` | app/ai/retrieval.py:10-15 | similarity times both lengths is the dot product, and 0 when a length is 0 |
| `Vectors.CosineOrder` | app/ai/retrieval.py:9-15 | of two vectors with a length, which one is closer to a query is told by dot products and lengths alone |
| `Vectors.DotSnoc` | app/ai/retrieval.py:10 | one more pair of coordinates adds its product |
| `Vectors.DotCuts` | app/ai/retrieval.py:10 | the longer vector is cut to the shorter |
| `Embeddings.EmbedTokens` | app/ai/embeddings.py:20-29 | the bucket loop and the normalisation give the normalised token counts per bucket |
| `Embeddings.EmbedIsUnit` | app/ai/embeddings.py:26-29 | an embedding has length 1, or is all zeros when there are no tokens |
| `Embeddings.EmbedEntry` | app/ai/embeddings.py:23-29 | each entry times the length of the counts is the number of tokens whose hash is that bucket modulo 256 |
| `Embeddings.SimilarIffBucketShared` | app/ai/embeddings.py:20-29 | the similarity of two texts lies in [0, 1] and is positive iff they share a hash bucket |
| `Embeddings.EmbedIgnoresOrder` | app/ai/embeddings.py:23-25 | the embedding is the same for any permutation of the tokens |
| `Ranking.Rank` | app/ai/retrieval.py:18-27 | the first top_k items by similarity and by position at a tie, each with its id, its similarity to the query and its content (a negative top_k cuts from the end) |
| `Ranking.RankedByDirection` | app/ai/retrieval.py:25-26 | of two ranked items with a length, the earlier has at least as large a dot product for its length |
| `Ranking.RankedSources` | app/ai/service.py:46-51 | what the chat keeps; for a non-negative top_k it is the top k of the related items |
| `Ranking.SortDescSorts` | app/ai/retrieval.py:26 | the ranking is in descending order and a permutation |
| `Ranking.SortDescIsStable` | app/ai/retrieval.py:26 | items of equal score keep their order |
| `Ranking.StableSortIsUnique` | app/ai/retrieval.py:26 | order and stability determine the ranking: any stable descending sort gives this one |
| `Ranking.TopKIsTop` | app/ai/retrieval.py:27 | nothing cut off scores higher than anything kept |
| `Ranking.DropCommutesWithTopK` | app/ai/service.py:46-51 | top k and then dropping non-positive scores is dropping first and then top k |
| `Ranking.RelatedIsFilter` | app/ai/service.py:51 | the filter keeps exactly what scores above 0, as often as it occurs, in order |
| `Ranking.DropCommutesIffNonNegative` | app/ai/service.py:46-51 | they commute on all lists iff top_k is not negative |
| `Reachable.EveryReachableStateIsSound` | app/orders/service.py:58-283 | all the invariants hold after any calls whatsoever on an empty platform, at any rates |
| `Reachable.OrderAndDeliveryAgree` | app/delivery/service.py:84-144 | the coupling, spelled out for one order of any reachable state |
| `Reachable.BooksBalance` | app/admin/service.py:28-41 | revenue, statements, unsettled commissions and errand earnings agree in any reachable state |
| `Reachable.StatementsAddUp` | app/settlements/service.py:24-48 | one store's statements and waiting commissions are its paid cash orders, in money and in number, in any reachable state |
| `Reachable.OneDeliveryEach` | app/delivery/service.py:89-105 | the exclusiveness of deliveries in any run in which nobody changes their availability in the middle of one |
| `Scenarios.PrepaidFeeIsLost` | app/payments/service.py:225-233 | from an empty platform: a Wompi order approved before it is assigned is short of its delivery fee, whatever is called afterwards |
| `Scenarios.NegativeFeeLeavesAGap` | app/payments/logic.py:42-47 | from an empty platform: a delivered cash order of a store with a negative fee is off by that fee |
| `Scenarios.UnpaidVolumeIsReported` | app/admin/service.py:39 | from an empty platform: a Wompi order is delivered and counted in gmv although nothing was collected |
| `Scenarios.TwoDeliveriesAtOnce` | app/collaborators/service.py:96-108 | from an empty platform: a courier goes online in the middle of a delivery and holds two |

## Left out

- Concurrency inside a request: each service call is one atomic step. The source has several awaits and no
  transactions, so none of this holds for requests racing on the same document.
- Failures in the middle of a call, among them an insert refused because a generated order or errand code
  is already taken. Codes are taken to be unique, and the order's id stands for its Wompi reference.
- Floating-point error: rates, averages and vectors are exact reals. Python's doubles may differ at exact
  rounding ties.
- The square root and MD5: parameters. Of the root only its defining law is used, of the hash nothing.
- The Wompi signature (HMAC, section 2 of RFC 2104): whether it is valid is an input.
- The geospatial search: the nearby users, nearest first, are an input; the filter on approval and
  availability is modelled. The limit of ten does not matter, since only the first candidate is used.
- Clocks: only the ledger's creation time, the statement period and the limiter's times are modelled, as
  inputs. No assumption is made on their order except where a lemma says so.
- A PATCH that sets a field to null explicitly, and the fields of stores and products that no order reads.
- `list.sort` and the tokenizer: the sort is given by what a stable descending sort returns, which
  `Ranking.StableSortIsUnique` shows to be one list; tokens are an input.
- Python objects loaded twice within one call: the order that delivery saves is passed on to the cash
  settlement, which saves it again; the model keeps the one stored document.
- Audit records, notifications, delivery tracking, routes, proofs, notes, addresses, payment references and
  `paid_at`: no effect on the modelled state.
- Routers, schemas beyond their numeric bounds, Mongo and Redis wiring, streaming, authentication, users,
  categories, knowledge documents and language-model calls: plumbing.
- Listing and reading endpoints, and the counts of the admin metrics: easy members.
- Claims the code does not support and the model therefore does not make: that cancelled Wompi orders stay
  out of the ledger, that Wompi orders are paid before delivery, that a decline is final, that the admin's
  configured default rate drives order fees, that a seller's cash earnings become settled.
