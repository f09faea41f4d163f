# wh-back order fulfilment, modelled in Dafny

wh-back is the back end of a small digital-goods web shop. Its data sits in MongoDB
collections: users, categories, products, product codes, cart rows, orders and
forgot-password tokens. Two BullMQ queues drive fulfilment. `DELIVER_AFTER_ORDER`
delivers a paid order. `CHECK_PENDING_TX` polls the payment gateway until an unconfirmed
payment settles.

The model covers the order pipeline from cart to delivery, and the account and cart state
machines that feed it. The pipeline runs in this order:

- `createOrder` checks the stock, clears the caller's cart and snapshots the order.
- `handlePayment` attaches the single payment attempt.
- Delivery hands out product codes or notifies an operator. On a stockout it refunds
  instead.
- Reconciliation re-reads a pending payment.

The model also covers the supporting logic:

- the cart handlers;
- `getQuantityAvailable` with its -1 "unlimited" answer;
- the bulk upload of codes;
- the listing filter;
- account registration, e-mail verification and the forgot-password tokens;
- the admin gate;
- the masks applied before records leave the server.

## Layout

Everything the handlers read or write lives in one `Store.Ledger` object:

- every collection as a `seq` or `map` field;
- the two queues as sets of order ids;
- an append-only log of gateway calls (`CreateRemoteOrder`, `Refund`);
- an append-only outbox of mails.

`Ledger.Valid()` states what every handler keeps:

- user ids and e-mails are unique;
- row ids are unique;
- there is one cart row per (user, product) pair, with a positive quantity;
- orders name existing users and products, and no product twice;
- every queued delivery belongs to an order that carries its payment attempt;
- every scheduled check belongs to a stored order. It may lack an attempt, because
  `handlePayment` schedules the check before the save that can reject the attempt;
- tokens name existing users.

Each handler that changes state is a method with `modifies` on exactly the fields it
touches. Its `ensures` give the whole new state in terms of specification functions.
Lemmas then prove what the shop promises about those functions. Pure code (filters, masks,
availability) is modelled as functions.

Inputs from outside the program are parameters:

- the gateway's payment status and order id;
- the clock (`now`, in milliseconds);
- fresh database ids;
- random tokens and secrets.

Mail is recorded by what it says (`Store.Mail`). `OrderJobs.Render` gives the wording
`sendMail` receives, and `OrderJobs.ComposeCodesMessage` builds the codes e-mail body as
the worker does.

| file | module | source |
|---|---|---|
| common.dfy | Common | option/result wrappers, first-index lookup |
| json.dfy | Json | JSON values, `_.pick` |
| text.dfy | Text | `split('\n')`, decimal rendering, UTF-8 and UTF-16 lengths |
| models.dfy | Models | warehouse/db/models.js |
| responses.dfy | Responses | the error codes of the handlers |
| store.dfy | Store | the collections, queues, gateway and mailer |
| product_utils.dfy | ProductUtils | warehouse/db/product-utils.js |
| public_display.dfy | PublicDisplay | warehouse/db/public-display-utils.js |
| authentication.dfy | Authentication | warehouse/utils/authentication.js (`adminOnly`) |
| cart_mgmt.dfy | CartMgmt | warehouse/routes/cart-mgmt.js |
| products.dfy | Products | warehouse/routes/products.js |
| order_mgmt.dfy | OrderMgmt | warehouse/routes/order-mgmt.js |
| order_jobs.dfy | OrderJobs | warehouse/jobs/order-jobs.js |
| user_accounts.dfy | UserAccounts | warehouse/routes/view-data/user.js |

## Model

| member | source | states |
|---|---|---|
| `Common.IndexOf` | warehouse/routes/order-mgmt.js:87 | the lookup finds a key exactly when it is present, at its first occurrence |
| `Json.Pick` | warehouse/db/public-display-utils.js:4-12 | `_.pick` keeps exactly the listed keys that are present, with their values |
| `Text.Split` | warehouse/routes/products.js:105 | splitting always yields at least one segment |
| `Text.SplitSegments` | warehouse/routes/products.js:105 | a text splits into one more segment than its separators, none containing the separator |
| `Text.JoinSplit` | warehouse/routes/products.js:105 | joining the segments with the separator gives the text back |
| `Text.SplitJoin` | warehouse/routes/products.js:105 | splitting a join of separator-free parts gives the parts back |
| `Text.Decimal` | warehouse/jobs/order-jobs.js:48 | a quantity renders as a non-empty string of digits without a leading zero |
| `Text.DecimalRoundTrip` | warehouse/jobs/order-jobs.js:48 | reading the rendered quantity back gives the quantity |
| `Text.Utf8Length` | warehouse/routes/view-data/user.js:105 | `Buffer.from(s)` takes at least one and at most four bytes per character |
| `Text.Utf16Length` | warehouse/routes/view-data/user.js:79 | the schema's `length` counts one or two UTF-16 units per character |
| `Text.AsciiLengths` | warehouse/routes/view-data/user.js:105 | a string's UTF-8 length is its character count exactly when it is ASCII; ASCII takes one UTF-16 unit per character |
| `Text.Utf8AgainstUtf16` | warehouse/routes/view-data/user.js:79-105 | the UTF-8 byte count is never below the UTF-16 unit count, and equals it exactly for ASCII text |
| `Models.TypeTagRoundTrip` | warehouse/db/models.js:42-43 | reading a product's `type` string and writing it back loses nothing |
| `Store.Ledger.Valid` | warehouse/db/models.js:10-109 | the consistency every handler keeps: unique user ids and e-mails, one positive row per (user, product) pair, orders of existing users over existing, pairwise different products, delivery jobs only for orders with a payment attempt, check jobs only for stored orders (a check can be scheduled for an order whose attempt the save then rejected), tokens of existing users |
| `Store.Ledger.constructor` | warehouse/db/models.js:10-109 | the empty store is consistent |
| `Store.OrderUpdateKeepsValid` | warehouse/jobs/order-jobs.js:136-145 | rewriting status or payment attempt of an order keeps orders and queued jobs consistent |
| `ProductUtils.QuantityAvailable` | warehouse/db/product-utils.js:3-10 | -1 exactly for a manually delivered product; otherwise the number of positions holding an unredeemed code of that product, so never below 0 |
| `ProductUtils.UnredeemedIndices` | warehouse/db/product-utils.js:7-10 | the positions of the product's unredeemed codes: each once, in natural order, all of them |
| `ProductUtils.CountIsPositionCount` | warehouse/db/product-utils.js:7-10 | the count agrees with the set of available positions |
| `ProductUtils.RedeemLowersByOne` | warehouse/db/product-utils.js:7-10 | redeeming one available code lowers that product's count by one and no other product's |
| `ProductUtils.AddCodeRaisesByOne` | warehouse/db/product-utils.js:7-10 | adding one new unredeemed code raises that product's count by one |
| `ProductUtils.CountAppend` | warehouse/db/product-utils.js:7-10 | appending codes adds their own count |
| `PublicDisplay.MaskCategory` | warehouse/db/public-display-utils.js:17-23 | a masked category keeps only id, categoryName and parentCategory, each as it was |
| `PublicDisplay.MaskProduct` | warehouse/db/public-display-utils.js:3-15 | only the whitelisted keys plus category; a truthy category is masked, a falsy one passed through |
| `PublicDisplay.MaskUser` | warehouse/db/public-display-utils.js:25-34 | no verification token or request times; every whitelisted key present is kept |
| `PublicDisplay.MaskItem` | warehouse/db/public-display-utils.js:47-54 | an order line keeps its own fields, with its product replaced by the masked product |
| `PublicDisplay.MaskOrder` | warehouse/db/public-display-utils.js:36-56 | the whitelisted order keys, no `paymentAttempt`, and the lines in the same number and order, each masked |
| `PublicDisplay.MaskedProductDocKeys` | warehouse/db/public-display-utils.js:3-15 | a masked product never shows its type, SKU number or sales counters |
| `PublicDisplay.MaskedUserDocKeys` | warehouse/db/public-display-utils.js:25-34 | a masked `toJSON()` user has no `id` key, because the document carries `_id` |
| `PublicDisplay.MaskedOrderHidesPayment` | warehouse/db/public-display-utils.js:36-46 | the whitelist names `paymentAttempts`, so the payment attempt is never shown under either name |
| `Authentication.AdminGate` | warehouse/utils/authentication.js:14-23 | levels below 3 get 403 ADMIN_ONLY and no `next`; from 3 on `next` and no response |
| `Authentication.AdmittedLevels` | warehouse/utils/authentication.js:15 | exactly levels 3 and 4 pass |
| `CartMgmt.PairQuantity` | warehouse/routes/cart-mgmt.js:31-44 | the quantity a user holds of a product, summed over the cart rows of that pair (its properties are the lemmas below) |
| `CartMgmt.PairQuantityAppend` | warehouse/routes/cart-mgmt.js:31-44 | a pair's quantity over two cart parts is the sum of the parts |
| `CartMgmt.RowIsPairQuantity` | warehouse/routes/cart-mgmt.js:31-44 | with one row per pair, the row's quantity is the pair's quantity |
| `CartMgmt.FindPairRow` | warehouse/routes/cart-mgmt.js:31-34 | `findOne({user, product})` finds a row exactly when the pair has one, and it is that pair's |
| `CartMgmt.CartAdd` | warehouse/routes/cart-mgmt.js:31-49 | the reported row id is a row of the pair; when the pair has a row, exactly that row's quantity rises by the amount and its id is reported, the rest of the cart unchanged; the cart keeps its length exactly when the pair had a row, and otherwise gains exactly the new row at the end and reports its id |
| `CartMgmt.CartAddQuantity` | warehouse/routes/cart-mgmt.js:35-44 | adding raises exactly the added pair's quantity, by exactly the amount added |
| `CartMgmt.CartAddKeepsValid` | warehouse/routes/cart-mgmt.js:31-49 | adding keeps one row per pair, unique ids and positive quantities; the reported id is the pair's row |
| `CartMgmt.AddProductToCart` | warehouse/routes/cart-mgmt.js:15-51 | NO_PRODUCT_FOUND leaves the cart; otherwise the pair's existing row alone is raised by the quantity and its id answered, or exactly one new row is appended and the fresh id answered; the cart stays consistent |
| `CartMgmt.CartUpdate` | warehouse/routes/cart-mgmt.js:86-96 | missing row throws, non-owner is refused, the owner's existing row always succeeds, and it alone gets the new quantity |
| `CartMgmt.CartDelete` | warehouse/routes/cart-mgmt.js:113-122 | missing row throws, non-owner is refused, the owner's existing row always succeeds, and it alone is removed |
| `CartMgmt.CartUpdateQuantity` | warehouse/routes/cart-mgmt.js:95 | updating sets, not adds, the pair's quantity, and leaves every other pair's |
| `CartMgmt.CartDeleteQuantity` | warehouse/routes/cart-mgmt.js:122 | deleting empties the pair and leaves every other pair's quantity |
| `CartMgmt.UpdateQuantity` | warehouse/routes/cart-mgmt.js:80-101 | refusals change nothing; the owner's update of an existing row succeeds and is `CartUpdate`; the cart stays consistent |
| `CartMgmt.DeleteCartProduct` | warehouse/routes/cart-mgmt.js:107-127 | refusals change nothing; the owner's delete of an existing row succeeds and is `CartDelete`; the cart stays consistent |
| `CartMgmt.CartOf` | warehouse/routes/cart-mgmt.js:54-56 | exactly the caller's rows, each of them the caller's |
| `CartMgmt.CartOfAppend` | warehouse/routes/cart-mgmt.js:54-56 | the caller's rows keep their cart order: the rows of two cart pieces are the rows of the whole |
| `CartMgmt.CartOfCounts` | warehouse/routes/cart-mgmt.js:54-56 | each of the caller's rows comes as often as in the cart, no other row at all |
| `CartMgmt.CartOfDistinctProducts` | warehouse/routes/cart-mgmt.js:54-56 | with one row per pair, the caller's rows name pairwise different products |
| `CartMgmt.CartEntry` | warehouse/routes/cart-mgmt.js:57-64 | an entry carries the row id, its quantity and the product's price as masked |
| `CartMgmt.GetProductsInCart` | warehouse/routes/cart-mgmt.js:53-73 | one entry per row of the caller, in order, and total Σ price × quantity |
| `CartMgmt.EntriesTotalIsCartTotal` | warehouse/routes/cart-mgmt.js:69-71 | summing over the masked entries prices the rows as the product list does |
| `CartMgmt.MaskedProductPrice` | warehouse/routes/cart-mgmt.js:62 | the masked product keeps its price |
| `CartMgmt.UnpopulatedCategoryMasked` | warehouse/routes/cart-mgmt.js:62 | an unpopulated category is an ObjectID, which is truthy, so the masked product shows it as an object with only its `id` |
| `Products.TranslateQueryToFilter` | warehouse/routes/products.js:10-25 | price bounds exactly for a two-element `priceRange`, the category exactly for a 24-character string, no other key |
| `Products.MaskedProductDocFields` | warehouse/routes/products.js:43 | the masked product has its public keys, id, price and name |
| `Products.ProductView` | warehouse/routes/products.js:43-44 | the masked product shows exactly its public keys plus `availableQuantity`, with its id, price and name and the given availability |
| `Products.GetProductById` | warehouse/routes/products.js:27-50 | NO_ID_SUPPLIED exactly without an id, NO_OBJECT_FOUND exactly for an unknown id, every known id succeeds with the masked product whose `availableQuantity` is `getQuantityAvailable` |
| `Products.NewCodes` | warehouse/routes/products.js:105-110 | the codes the store accepts: one per non-empty segment, never more than the segments |
| `Products.NonEmptyCountAll` | warehouse/routes/products.js:105-110 | with no empty segment every segment becomes a code |
| `Products.NewCodesMembers` | warehouse/routes/products.js:105-110 | every accepted code is of the product, unredeemed, non-empty and one of the segments |
| `Products.NewCodesInOrder` | warehouse/routes/products.js:105-110 | with no empty segment the codes are the segments, in order |
| `Products.UploadStep` | warehouse/routes/products.js:105-110 | one more segment adds its code after the others exactly when it is non-empty |
| `Products.NewCodesCount` | warehouse/routes/products.js:105-110 | the uploaded codes count one per non-empty segment for their product and none for another |
| `Products.UploadRaisesAvailability` | warehouse/routes/products.js:105-110 | after an upload a product's availability grows by its number of non-empty lines, one more than its newlines when none is empty; no other product's moves |
| `Products.AddCodesToProduct` | warehouse/routes/products.js:90-115 | INVALID_PRODUCT adds nothing; otherwise one unredeemed code per non-empty segment after the untouched existing codes, answered ok exactly when no segment is empty and left unanswered (the insert of `''` rejects) otherwise |
| `Products.CreateNewProduct` | warehouse/routes/products.js:128-153 | INVALID_CATEGORY adds nothing; otherwise exactly the new product is added |
| `OrderMgmt.LineSatisfiable` | warehouse/routes/order-mgmt.js:25-31 | a line can be filled: its product is unlimited (-1) or has at least its quantity available |
| `OrderMgmt.AllSatisfiable` | warehouse/routes/order-mgmt.js:25-40 | every line of the cart can be filled; checkout refuses with PRODUCT_UNSATISFIABLE otherwise |
| `OrderMgmt.Snapshot` | warehouse/routes/order-mgmt.js:59-63 | one order line per cart row, in cart order, copying product, current price and quantity |
| `OrderMgmt.SnapshotTotal` | warehouse/routes/order-mgmt.js:46-48 | the stored lines total what the cart totals |
| `OrderMgmt.RemoveUserRows` | warehouse/routes/order-mgmt.js:42-44 | `deleteMany({user})` keeps exactly the rows of other users |
| `OrderMgmt.RemoveUserRowsCarts` | warehouse/routes/order-mgmt.js:42-44 | the caller's cart becomes empty and every other cart is unchanged |
| `OrderMgmt.RemoveUserRowsValid` | warehouse/routes/order-mgmt.js:42-44 | deleting a user's rows keeps the cart consistent |
| `OrderMgmt.SnapshotDistinct` | warehouse/routes/order-mgmt.js:59-63 | the lines copied from a consistent cart name pairwise different, known products |
| `OrderMgmt.NewOrder` | warehouse/routes/order-mgmt.js:56-66 | the stored order: the caller's, AWAITING_PAYMENT, the gateway order id, the snapshot, total 100 × Σ price × quantity |
| `OrderMgmt.ClearCart` | warehouse/routes/order-mgmt.js:42-44 | exactly the caller's rows are deleted and the store stays consistent |
| `OrderMgmt.StoreOrder` | warehouse/routes/order-mgmt.js:56-66 | exactly the new order is appended and the store stays consistent |
| `OrderMgmt.CreateOrder` | warehouse/routes/order-mgmt.js:13-74 | NO_PRODUCTS_IN_CART and PRODUCT_UNSATISFIABLE change nothing; otherwise exactly the caller's rows are deleted and the total is sent to the gateway, and then the order with that total is stored and answered, or, for an empty gateway order id (required at models.js:88), the handler throws with the cart gone and no order stored |
| `OrderMgmt.CheckoutChargesCartTotal` | warehouse/routes/order-mgmt.js:46-48 | the charged total is 100 times the total the cart view shows |
| `OrderMgmt.PaymentGuard` | warehouse/routes/order-mgmt.js:87-108 | ORDER_NOT_FOUND, ORDER_NOT_OWNED, PAYMENT_ALREADY_ADDED, each exactly under its condition, in the handler's order |
| `OrderMgmt.AttachPayment` | warehouse/routes/order-mgmt.js:110-135 | the attempt is Razorpay, the payment id and the gateway status; PAID_AWAITING_SHIPMENT exactly when confirmed, else PAYMENT_NOT_CONFIRMED; nothing else changes |
| `OrderMgmt.SecondAttachRefused` | warehouse/routes/order-mgmt.js:103-108 | after one attach every later attach on the order is refused |
| `OrderMgmt.HandlePayment` | warehouse/routes/order-mgmt.js:81-142 | refusals change nothing; an empty gateway status (required at models.js:94) schedules the check job, stores no attempt and throws; otherwise the payment is attached, delivery is queued when confirmed and a check job otherwise, and the new status is answered |
| `OrderMgmt.OrderView` | warehouse/routes/order-mgmt.js:171-174 | the masked order keeps its id, creator, date, total, status name and payment order id, hides the payment attempt, and its items are, line by line, the masked populated order lines |
| `OrderMgmt.GetOrderById` | warehouse/routes/order-mgmt.js:144-175 | ID_MISSING exactly without an id, ORDER_NOT_OWNED exactly for a missing or foreign order, and the caller's own existing order always succeeds with its masked view |
| `OrderMgmt.OrdersOf` | warehouse/routes/order-mgmt.js:180-182 | exactly the caller's orders |
| `OrderMgmt.InsertByDatePermutes` | warehouse/routes/order-mgmt.js:182-184 | insertion adds exactly the one order |
| `OrderMgmt.InsertByDateSorted` | warehouse/routes/order-mgmt.js:182-184 | insertion keeps the list newest first |
| `OrderMgmt.SortNewestFirst` | warehouse/routes/order-mgmt.js:182-184 | `sort({createdAt: -1})` as insertion sort; the two lemmas below prove it a permutation and sorted |
| `OrderMgmt.SortNewestFirstPermutes` | warehouse/routes/order-mgmt.js:182-184 | the sort neither drops nor adds an order |
| `OrderMgmt.SortNewestFirstSorted` | warehouse/routes/order-mgmt.js:182-184 | the sort puts newer orders first |
| `OrderMgmt.ListOrder` | warehouse/routes/order-mgmt.js:177-186 | every order of the caller and no other, newest first, each masked |
| `OrderJobs.CodesMessage` | warehouse/jobs/order-jobs.js:9 | the codes e-mail body: header, divider, one code per line, divider (its line structure is the next row) |
| `OrderJobs.CodesMessageLines` | warehouse/jobs/order-jobs.js:9 | read line by line, the codes e-mail is its header, a 15-dash divider, the codes in order, and a divider |
| `OrderJobs.ComposeCodesMessage` | warehouse/jobs/order-jobs.js:80-84 | the body built line by line is header, divider, one code per line, divider |
| `OrderJobs.SelectCodes` | warehouse/jobs/order-jobs.js:53-56 | `find(...).limit(n)`: the first min(n, available) unredeemed codes of the product, in natural order |
| `OrderJobs.SameProductOverlap` | warehouse/jobs/order-jobs.js:53-56 | two lines of one product are offered the same leading codes |
| `OrderJobs.ShortMeansSelectionShort` | warehouse/jobs/order-jobs.js:58 | a line falls short exactly when its selection is not its quantity |
| `OrderJobs.FirstShortfall` | warehouse/jobs/order-jobs.js:33-69 | the first automatic line with too few codes, or none when every line can be filled |
| `OrderJobs.LatestOperator` | warehouse/jobs/order-jobs.js:35-45 | the most recently created user of level 3 or more, or none exactly when there is no such user |
| `OrderJobs.OperatorIsAdmin` | warehouse/jobs/order-jobs.js:36-38 | the operator told about manual lines passes the admin gate |
| `OrderJobs.ManualNotices` | warehouse/jobs/order-jobs.js:34-51 | the operator notices, one per manual line while there is an operator (shape in the next row) |
| `OrderJobs.ManualNoticesShape` | warehouse/jobs/order-jobs.js:34-51 | one notice per manual line to the operator, naming the buyer; none without an operator |
| `OrderJobs.Batches` | warehouse/jobs/order-jobs.js:52-75 | the code selection per automatic line, in line order (shape in the next row) |
| `OrderJobs.BatchesShape` | warehouse/jobs/order-jobs.js:52-75 | one batch per automatic line, carrying its product's name and its selection |
| `OrderJobs.FilledBatches` | warehouse/jobs/order-jobs.js:58-74 | with no shortfall every batch holds exactly its line's quantity of codes |
| `OrderJobs.BatchesIn` | warehouse/jobs/order-jobs.js:53-56 | every batch points at existing codes |
| `OrderJobs.Render` | warehouse/jobs/order-jobs.js:46-90 | each recorded mail goes to its recipient with the worker's wording |
| `OrderJobs.RedeemSetCount` | warehouse/jobs/order-jobs.js:91-94 | redeeming a set of positions lowers a product's stock by its available codes among them |
| `OrderJobs.LineFor` | warehouse/jobs/order-jobs.js:52 | the automatic line of a product, if any |
| `OrderJobs.SelectionMeetsProduct` | warehouse/jobs/order-jobs.js:53-56 | a selection for one product holds no code of another |
| `OrderJobs.PickedForProduct` | warehouse/jobs/order-jobs.js:53-56 | the codes picked for a product are exactly its own line's selection |
| `OrderJobs.DeliveryRedeemsQuantity` | warehouse/jobs/order-jobs.js:79-95 | success lowers each automatic product's stock by exactly its line's quantity and no other product's |
| `OrderJobs.StoredOrderDistinct` | warehouse/jobs/order-jobs.js:28-33 | every stored order's lines name known, pairwise different products, as `DeliveryRedeemsQuantity` needs |
| `OrderJobs.StoredOrderRedeemsQuantity` | warehouse/jobs/order-jobs.js:79-95 | delivering a stored order with no shortfall lowers each automatic product's stock by its line's quantity and no other stock |
| `OrderJobs.StoredOrderStock` | warehouse/jobs/order-jobs.js:79-95 | the same for every product at once |
| `OrderJobs.RedeemSetUnion` | warehouse/jobs/order-jobs.js:91-94 | redeeming in two rounds is redeeming the union |
| `OrderJobs.RedeemBatch` | warehouse/jobs/order-jobs.js:91-94 | exactly the batch's codes become redeemed |
| `OrderJobs.SendCodes` | warehouse/jobs/order-jobs.js:79-95 | one buyer mail per batch, in order, and exactly the picked codes redeemed |
| `OrderJobs.FirstPass` | warehouse/jobs/order-jobs.js:32-76 | stops at the first shortfall; operator notices for the manual lines before it; otherwise all notices and the batches |
| `OrderJobs.Deliver` | warehouse/jobs/order-jobs.js:32-95 | a shortfall gives exactly one refund and one stockout mail, no code redeemed; otherwise the code mails and the picked codes redeemed, no refund |
| `OrderJobs.MarkDelivered` | warehouse/jobs/order-jobs.js:66-67 | the order becomes DELIVERED, nothing else about it changes, and its delivery job is done |
| `OrderJobs.HandleDelivery` | warehouse/jobs/order-jobs.js:23-99 | `Deliver` on the order's lines for its buyer and payment, then DELIVERED with items, total and payment untouched; without a shortfall each product's stock falls by exactly its line's quantity |
| `OrderJobs.Reconcile` | warehouse/jobs/order-jobs.js:136-141 | the attempt takes the gateway status; PAID_AWAITING_SHIPMENT when confirmed; nothing else changes |
| `OrderJobs.ReconcileIdempotent` | warehouse/jobs/order-jobs.js:136-141 | reconciling twice with the same answer is reconciling once |
| `OrderJobs.LateConfirmationMatchesImmediate` | warehouse/jobs/order-jobs.js:136-141 | a later confirmation leaves the order as an immediate one would have |
| `OrderJobs.RepollUndoesDelivery` | warehouse/jobs/order-jobs.js:136-141 | a confirmed poll of a delivered order sets it back to PAID_AWAITING_SHIPMENT, items unchanged |
| `OrderJobs.CheckPendingTx` | warehouse/jobs/order-jobs.js:133-148 | the job fails and changes nothing exactly when the order has no attempt or the status is empty (the save rejects it); otherwise confirmed: delivery queued (again, for an order already delivered) and the check kept scheduled; refunded/failed: the check job taken out of the set; else only the recorded status changes |
| `UserAccounts.DifferenceInDays` | warehouse/routes/view-data/user.js:63 | the whole days between the two times, rounded toward zero |
| `UserAccounts.DifferenceInHours` | warehouse/routes/view-data/user.js:151 | the whole hours between the two times, rounded toward zero |
| `UserAccounts.AtMostOneDay` | warehouse/routes/view-data/user.js:63 | `differenceInDays <= 1` means less than two days have passed |
| `UserAccounts.UnderOneHour` | warehouse/routes/view-data/user.js:151 | `differenceInHours < 1` means less than one hour has passed |
| `UserAccounts.AppendUserKeepsValid` | warehouse/routes/view-data/user.js:40-46 | a user with a fresh id and e-mail can be added |
| `UserAccounts.RegisteredAccountFound` | warehouse/routes/view-data/user.js:40-46 | the new account is found by id and by e-mail and cannot pass the admin gate |
| `UserAccounts.RegisterUserAccount` | warehouse/routes/view-data/user.js:23-52 | a taken e-mail gives ACCOUNT_ALREADY_REGISTERED and no user; otherwise exactly one unverified level-1 user |
| `UserAccounts.ResendVerification` | warehouse/routes/view-data/user.js:54-75 | EMAIL_ALREADY_VERIFIED when verified, INELIGIBLE_TOO_SOON under two days after the last send, otherwise ok |
| `UserAccounts.VerifyCheck` | warehouse/routes/view-data/user.js:88-111 | USER_ID_INVALID, EMAIL_ALREADY_VERIFIED, a throw when the tokens' UTF-8 byte lengths differ, TOKEN_ID_INVALID, each exactly under its condition |
| `UserAccounts.HexTokenComparison` | warehouse/routes/view-data/user.js:77-114 | against a stored 32-character hex token, a 32-unit token throws exactly when it is not ASCII |
| `UserAccounts.Verified` | warehouse/routes/view-data/user.js:113-114 | verified, with the new token, nothing else changed |
| `UserAccounts.VerifiedOnce` | warehouse/routes/view-data/user.js:97-103 | after a verification every later attempt is refused as already verified |
| `UserAccounts.VerifyEmailWithToken` | warehouse/routes/view-data/user.js:82-120 | for a token of 32 UTF-16 units: refusals change nothing; success verifies exactly that user |
| `UserAccounts.ForgotCheck` | warehouse/routes/view-data/user.js:132-157 | USER_ID_INVALID, EMAIL_NOT_VERIFIED, REQUESTED_LESS_THAN_ONE_HOUR_AGO, each exactly under its condition |
| `UserAccounts.WithoutTokensOf` | warehouse/routes/view-data/user.js:162-164 | `deleteMany({user})` keeps exactly the other users' tokens |
| `UserAccounts.ExactlyOneToken` | warehouse/routes/view-data/user.js:159-168 | after a request the user holds exactly the new token; other users' tokens are unchanged |
| `UserAccounts.RequestForgotPassword` | warehouse/routes/view-data/user.js:126-179 | refusals change nothing; success records the request time and replaces the user's tokens by the new one |
| `UserAccounts.RedeemCheck` | warehouse/routes/view-data/user.js:194-211 | TOKEN_NOT_FOUND, a throw on a length mismatch, INVALID_SECRET, each exactly under its condition |
| `UserAccounts.TokenSingleUse` | warehouse/routes/view-data/user.js:213-216 | a redeemed token cannot be presented again |
| `UserAccounts.RedeemForgotPasswordToken` | warehouse/routes/view-data/user.js:188-221 | refusals change nothing; success sets the owner's key and deletes the token |

## Left out

- I/O is not modelled: MongoDB, Redis, the gateway client and the mailer become ledger
  fields, logs and parameters. Express responses become results. A handler that throws
  sends no response at all (no handler is wrapped), so `HandlerThrew` has no status code.
- BullMQ semantics are not modelled: retries (5 attempts, exponential backoff), the
  `*/20 * * * *` repeat, worker concurrency and the races between concurrent workers.
  Handlers run one at a time on a consistent ledger. The queues are sets of order ids.
- `OrderJobs.CheckPendingTx`: `CheckPendingTxQ.remove(job.id)` is modelled as taking
  the order out of the scheduled checks. In BullMQ it removes only the running instance
  of the repeatable job, so a refunded or failed payment goes on being polled every 20
  minutes. Delivery does not stop the polling either: the check job stays scheduled,
  and a later confirmed poll sets a delivered order back to PAID_AWAITING_SHIPMENT and
  queues a second delivery (`OrderJobs.RepollUndoesDelivery`).
- `OrderMgmt.CreateOrder`, `OrderMgmt.HandlePayment`, `OrderJobs.CheckPendingTx`: a
  gateway call always answers. Its answer is any string, and an empty answer is followed
  into the save the schema rejects. A gateway call that itself rejects (network or API
  error) is not modelled. In `createOrder` that would also lose the cart, already deleted
  before the call.
- `Promise.all` runs its steps in some order. The model runs them in list order, since
  the final state does not depend on the order. In `addCodesToProduct` every `create`
  has started before the empty segment's rejection surfaces, so the model stores the
  codes of all non-empty segments and then answers nothing.
- Prices and quantities are integers. JavaScript floating point, fractional quantities
  and `limit(0)` (MongoDB has no limit for 0, quantities are positive) are not modelled.
- Timestamps are integer milliseconds. date-fns `differenceInDays` is modelled as
  truncating division by 24 hours, so the daylight-saving and calendar-day rules of
  date-fns are not modelled.
- `UserAccounts.ResendVerification`: when `lastEmailVerificationSent` is unset, date-fns
  returns NaN, and `NaN <= 1` is false, so the re-send is allowed. The model follows
  that. The re-send itself is a TODO in the source and sends nothing.
- `crypto.timingSafeEqual` compares the UTF-8 bytes of the two tokens. The model counts
  those bytes with `Text.Utf8Length` and compares the strings themselves, which is the
  same as comparing their bytes because UTF-8 is one-to-one. The schema's `length(32)`
  counts UTF-16 units (`Text.Utf16Length`), so a non-ASCII token passes the schema and
  then throws (`UserAccounts.HexTokenComparison`). Lone surrogates, which JavaScript
  strings can hold and Dafny characters cannot, are not modelled.
- Malformed ObjectId strings (a CastError, or INVALID_ORDER in `getOrderById`) are not
  modelled: ids are numbers.
- `findById` on a missing cart row and dereferencing `cp.user` throw in
  `updateQuantity`/`deleteCartProduct`. The model answers `HandlerThrew` with nothing
  changed.
- Joi schema acceptance becomes `requires` clauses: positive quantities, non-empty
  strings, key and secret lengths, string lengths in UTF-16 units. E-mail syntax is only
  required to be non-empty.
- The difference between undefined and absent keys in JSON is not modelled.
- Sort ties in `listOrder` are not modelled: orders with equal dates may come in either
  order, and the model proves only the order by date.
- The subdocument `_id` of order lines is not modelled.
- Mails are recorded as `Store.Mail` values. `OrderJobs.Render` and
  `OrderJobs.ComposeCodesMessage` give their wording.
- `CartMgmt.CartEntry` and `OrderMgmt.PopulatedItem`: `getProductsInCart` and `listOrder`
  do not populate the product's category, so it is the driver's ObjectID, and the mask
  picks its `id` property, the raw 12 bytes. The model writes those bytes as the id number
  (`Models.ObjectIdValue`); how a `Buffer` serialises to JSON is not modelled.
- `OrderMgmt.PopulatedItem`: a line whose product is no longer in the store populates to
  null where the source's mask would throw at `pro.category`; a consistent store has no
  such line, since every stored order line names a stored product.
- `whoami`, the listing handlers (`getTopTwentyProducts`, `getAllProductsForAdmin`), the
  homepage, search, admin CRUD routes, index wiring and configuration are not part of
  this model.
- The authentication middleware around `adminOnly` comes from an external library and is
  not modelled. Handlers take the signed-in user as a parameter.
