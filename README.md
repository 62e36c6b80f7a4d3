# Car-parts marketplace backend — a Dafny model of its business rules

The system is an Express/Mongoose backend for a car-parts marketplace.
Buyers fill a cart and place orders, which a payment gateway confirms
through a callback. Sellers list products, mark their items as processed
and hand orders to a courier. Couriers claim orders in their district and
report delivery. Buyers file complaints on delivered items, and sellers
resolve them. Admins manage accounts and categories.

Each HTTP handler reads one record, checks its guards in a fixed order,
changes fields in memory and saves only on success. The model follows that
shape:

- The database is one object, `Db.Store`. It holds one map per
  collection: products, carts (one item list per buyer), orders, users and
  categories.
- A handler that writes is a `method` on the store. It names the fields it
  may change (`modifies db`orders`) and states the status it answers with
  and the whole new state.
- A read-only handler, or the pure part of one, is a `function`. Examples
  are the buyer's unified status, the seller and courier views, the
  analytics counts, the login gates and the complaint page.
- A source loop is a method with its loop invariants, proved against a
  specification function. Examples: building the items of an order,
  marking every item, the stock `$inc` loop, the cart cleanup after
  payment, and the seller's per-item update.
- Lemmas about those functions state what the handlers promise. They also
  connect handlers with each other: a fresh complaint can be resolved, a
  registered seller can log in only after approval, and a profile update
  never stores two default addresses. The address step of order creation
  adds a second default exactly when it appends a new address sent marked
  default (`SecondDefaultFromRequest`).

Values:

- Money is integer cents and stock is an `int`.
- Ids are natural numbers. A handler that creates a record receives its
  fresh id as a parameter.
- A string field that may be absent is an `Option<string>`, and `Truthy`
  is JavaScript truthiness on it.
- Status strings are enums. For inputs, `None` stands for any string
  outside the enum.

Some components depend on the outside world, and each becomes a parameter:

- The payment signature check is a boolean `signatureMatches`.
- A password comparison is a boolean `passwordMatches`.
- A bcrypt hash is a string `hash`.
- A generated tracking number (`TRK-<time>`) is a string
  `generatedTracking`.

Behaviours the source has as written, which the model keeps and proves:

- **Address step in order creation.** A stored address has no district,
  because the user schema lacks the field. So a shipping address with a
  district never equals a stored one. Once the user has an address, it is
  appended on every order (`AddressWithDistrictAlwaysAppended`). An
  appended address keeps the request's `isDefault` flag as sent, and the
  first address of a user becomes the default whatever the request says.
  The address is saved before the order is checked, so it persists when
  the order is refused.
- **Stock.** The payment callback decrements stock before the buyer can
  cancel. Cancellation restores stock although it is allowed only while
  the order is unpaid (`PaidOrderNotCancellable`). Re-cancelling an item
  already cancelled restores its quantity again. The decrement is
  unchecked, so stock can become negative. A later `save` of such a
  product checks `min: 0` on the loaded stock, so deleting it, or
  updating it without a new non-negative stock, answers 500
  (`DeleteProduct`, `UpdateProduct`).
- **Unknown payment code.** An unknown `status_code` makes the order
  "Cancelled" exactly when some item is already cancelled
  (`PaymentOutcome`).
- **Unified status.** In the buyer's unified status, the "Delivered"
  branch for a shipped item is unreachable (`UnifiedStatus`).
- **Courier 403.** In `updateCourierStatus`, the 403 "assigned to another
  courier" branch cannot be reached. The lookup already refuses such an
  order with 404, so the model keeps the branch, and the handler's answer
  equals `UpdateGuard`, which never answers 403.
- **Last-admin check.** The check counts admin accounts whatever their
  status. Soft deletes never lower the count, so every admin can be
  deleted (`EveryAdminCanBeDeleted`).
- **Category cycles.** Only a direct self-parent is refused, so a
  two-category cycle is accepted (`TwoCategoryCycleAccepted`).
- **Order-level courier fields.** The seller and courier handlers read and
  write `courierDetails`, `courierStatus` and `statusHistory` on the order.
  The live order schema (models/Order.js:69-133) declares these fields only
  on items; the order-level ones exist only in the commented-out schema at
  models/Order.js:40-56. On a live document `order.statusHistory` and
  `order.courierDetails` are therefore `undefined`, so
  `order.statusHistory.push` (sellerController.js:106, 154, 168;
  courierController.js:103, 114, 205) and `order.courierDetails.courierId`
  (courierController.js:100) throw, and the `catch` answers 500 with
  nothing saved. As written, updateOrderStatus fails whenever the seller
  owns an item, and handoverToCourier, updateCourierStatus and
  reportDeliveryIssue fail whenever they get past their lookup. The
  `complaint` the complaint handlers write on an item is not in the item
  schema either; Mongoose's strict mode drops it on save without an error.
  The model deliberately follows the fields the handlers intend, the
  order-level record of the commented-out schema and a stored item
  complaint, and states what those handlers would then do. This is listed
  again under "Left out".

## Model

| member | source | states |
|---|---|---|
| ProductModel.AvailabilityFor | controllers/productController.js:25 | availability is "In Stock" exactly when stock > 0, otherwise "Pre-order" |
| Common.FirstIndexOf | controllers/cartController.js:28 | the `findIndex` both lists use: -1 iff no position holds the id, else the first one that does |
| CartModel.FindLine | controllers/cartController.js:28 | `findIndex`: -1 iff no line has the product, else the first index holding it |
| OrderModel.FindItem | controllers/orderController.js:352 | `findIndex` on order items: -1 iff no item has the product, else the first such index |
| OrderModel.AllSellerStatusesComplete | models/Order.js:75-79 | the six item seller statuses are all listed in the breakdown's key set |
| CartController.MergeLine | controllers/cartController.js:27-39 | an existing line gains the quantity in place with the others unchanged; otherwise one line is appended at the end; product ids stay distinct; quantities stay ≥ 1 when the merged one is |
| CartController.RemoveAt | controllers/cartController.js:66 | splice removes exactly the line at k, keeps the others in order, and keeps the cart valid with that product gone |
| CartController.ActiveLinesMembers | controllers/cartController.js:80-92 | the kept lines are exactly the lines whose product is active |
| CartController.ActiveLinesValid | controllers/cartController.js:80-92 | the filter keeps a valid cart valid |
| CartController.ActiveLinesConcat | controllers/cartController.js:80-92 | the filter works line by line and keeps the cart's order: filtering two parts one after the other is filtering the whole |
| CartController.AddToCart | controllers/cartController.js:5-47 | 404 for a missing/inactive product, 400 when the quantity or merged quantity exceeds stock, 500 when a quantity < 1 would be saved; otherwise the merged cart is saved; any failure leaves carts unchanged |
| CartController.RemoveFromCart | controllers/cartController.js:50-73 | 404 without a cart or a matching line; otherwise exactly that line goes |
| CartController.GetCart | controllers/cartController.js:76-105 | no cart: empty list, total 0, nothing created; otherwise the inactive lines are dropped and saved, and total = Σ price × quantity of what remains |
| CartController.ClearCart | controllers/cartController.js:108-124 | 404 without a cart, otherwise the item list becomes empty |
| OrderController.AsSent | controllers/orderController.js:41 | an appended address is the default exactly when the request's `isDefault` is true |
| OrderController.MergeShippingAddressSpec | controllers/orderController.js:30-44 | the address step keeps every saved address in place and adds at most one, leaving a non-empty list unchanged exactly when a saved address equals the request; a first address becomes the only default; an appended one is the request's address with its `isDefault` as sent, and the default count grows by one exactly when that flag is true |
| OrderController.SecondDefaultFromRequest | controllers/orderController.js:30-44 | with one default saved, the step leaves two defaults exactly when it appends an address sent with `isDefault: true` |
| OrderController.AddressWithDistrictAlwaysAppended | controllers/orderController.js:33-42 | a request with a district never matches a saved address, so it is appended whenever the list is non-empty |
| OrderController.FirstLineError | controllers/orderController.js:49-56 | Ok iff every line's product is active with stock ≥ quantity; otherwise it is the 404/400 of the first failing line |
| OrderController.BuildOrderItems | controllers/orderController.js:49-69 | the loop stops at the first failing line; on success each item has the product's current price, its quantity, seller and courier status "Pending", no courier, and one "Order created" system entry |
| OrderController.PrefixError | controllers/orderController.js:49-56 | an error found in a prefix of the lines is the error of the whole request |
| OrderController.OrderTotalMatchesCartTotal | controllers/orderController.js:99 | the new order's total equals Σ current price × quantity over its lines, the cart view's total |
| OrderController.CreateOrder | controllers/orderController.js:19-151 | 500 for a missing buyer; the address step is saved before the checks; 400 with no lines; the first line's 404/400; 500 for an unlisted district; otherwise a "Pending" order with those items and their total is added; stock untouched |
| OrderController.MarkItems | controllers/orderController.js:193-200 | every item gets the status (when given) and exactly one new history entry, nothing else changes |
| OrderController.AdjustStock | controllers/orderController.js:203-208 | every product's stock goes down (payment) or up (cancel) by the ordered quantity of that product; keys and other fields unchanged |
| OrderController.AdjustStep | controllers/orderController.js:203-208 | one `$inc` extends the processed prefix by one item |
| OrderController.ConsumeCart | controllers/orderController.js:211-223 | the cart cleanup never adds lines |
| OrderController.ConsumeCartKeepsUnordered | controllers/orderController.js:213-215 | a cart line whose product was not ordered is kept unchanged |
| OrderController.ConsumeCartKeepsReduced | controllers/orderController.js:216-218 | a cart line holding more than the ordered quantity is kept, reduced by that quantity |
| OrderController.ConsumeCartDropsUsedUp | controllers/orderController.js:219-220 | in a cart with distinct products, a line holding at most the ordered quantity leaves no line of its product |
| OrderController.ConsumeCartConcat | controllers/orderController.js:211-221 | the cleanup works line by line and keeps the order of the remaining lines |
| OrderController.ConsumeCartOrigin | controllers/orderController.js:213-221 | every remaining line comes from a cart line that held more than the ordered quantity, reduced by it, or from an unordered one |
| OrderController.ConsumeLineValid | controllers/orderController.js:216-220 | a reduced line keeps its product and a quantity ≥ 1 |
| OrderController.ConsumeCartValid | controllers/orderController.js:211-223 | a valid cart stays valid after the cleanup |
| OrderController.ConsumeCartLines | controllers/orderController.js:211-223 | the filter loop computes `ConsumeCart` and keeps a valid cart valid |
| OrderController.PaymentOutcome | controllers/orderController.js:188-256 | "2": all items Accepted, order Confirmed; "0": statuses kept, order Pending; "-1"/"-2": all Cancelled; known codes add one entry per item; unknown codes change no item and cancel iff an item is already cancelled |
| OrderController.ApplyPayment | controllers/orderController.js:188-256 | the per-item loop and status derivation give `PaymentItems` and `DerivedStatus` |
| OrderController.NotifyOrder | controllers/orderController.js:154-263 | a bad signature (400) or missing order (404) changes nothing; otherwise the order is updated; only on "2" are stock decremented by the quantities and the buyer's cart consumed; valid carts stay valid |
| OrderController.MarkedQuantity | controllers/orderController.js:193-208 | marking items keeps each product's ordered quantity, so the stock change uses the original quantities |
| OrderController.UnifiedStatus | controllers/orderController.js:276-305 | "Cancelled" whenever order or item is cancelled; "Delivered" iff the item is Delivered and the order not cancelled; Shipped with courier Delivered falls back to the payment string |
| OrderController.PaidOrderNotCancellable | controllers/orderController.js:339-348 | once "2" confirmed a non-empty order the buyer's cancel guards refuse it |
| OrderController.ActiveTotalAfterCancel | controllers/orderController.js:372-378 | cancelling item k lowers the recomputed total by its line amount, or by nothing when it was already cancelled |
| OrderController.CancelOrder | controllers/orderController.js:329-411 | 404 for another buyer's or a missing order; 400 unless all items are Pending/Cancelled and the order Pending; item cancel restores that item's quantity, recomputes the total over non-cancelled items, and sets status Cancelled iff all are; order cancel restocks and cancels all items |
| SellerController.SellerItems | controllers/sellerController.js:20-24 | exactly the items whose product belongs to the seller |
| SellerController.HasSellerItemIff | controllers/sellerController.js:193-195 | an order has a seller item iff its filtered item list is non-empty |
| SellerController.SellerView | controllers/sellerController.js:17-35 | every order with a seller item appears restricted to those items; every returned order is such a restriction |
| SellerController.SellerViewOnlyOwnItems | controllers/sellerController.js:17-35 | each returned order is non-empty and holds only the seller's items |
| SellerController.SellerOrderById | controllers/sellerController.js:44-79 | 404 for a missing order or one without seller items; otherwise the order restricted to the seller's items |
| SellerController.CountSellerItemsIsLength | controllers/sellerController.js:143-149 | the updated-item count equals the number of seller items |
| SellerController.SetSellerItems | controllers/sellerController.js:101-113 | only the seller's items get the status; one history entry per updated item; `updated` iff some item belongs to the seller |
| SellerController.UpdateOrderStatus | controllers/sellerController.js:82-127 | 400 unless Processing/Shipped/Delivered; 404 for a missing order or no seller items, nothing saved; otherwise those items change and one entry per item is logged |
| SellerController.AllShippedAfterHandover | controllers/sellerController.js:172-179 | after handover every item is Shipped iff every item of another seller already was |
| SellerController.HandedOverSpec | controllers/sellerController.js:151-179 | seller items become Shipped; courier reset to none with the given or generated tracking number; courier status Pending; order Shipped iff all items are Shipped |
| SellerController.HandoverToCourier | controllers/sellerController.js:130-186 | 404 for a missing order or no seller items, nothing saved; otherwise the order becomes `HandedOver` |
| SellerController.ItemsRevenueIsDeliveredTotal | controllers/sellerController.js:197-203 | revenue = Σ quantity × price over the seller's items that are Delivered |
| SellerController.SellerOrders | controllers/sellerController.js:193-195 | exactly the orders with a seller item |
| SellerController.ItemStatusesPartition | controllers/sellerController.js:206-213 | the per-status counts of an order's seller items add up to their number |
| SellerController.BreakdownSumsToItemCount | controllers/sellerController.js:206-213 | the status breakdown sums to the seller's item count over all orders |
| SellerController.SellerOrdersRevenue | controllers/sellerController.js:193-203 | filtering the orders first does not change the revenue |
| SellerController.SellerOrdersItemCount | controllers/sellerController.js:193-213 | filtering the orders first does not change the item count |
| SellerController.NoSellerItemsNoCount | controllers/sellerController.js:197-213 | an order without seller items adds nothing to revenue or counts |
| SellerController.SellerAnalytics | controllers/sellerController.js:192-213 | 500 iff a seller order holds an item whose product is gone; otherwise order count, delivered revenue and a breakdown of the non-zero status counts |
| CourierController.CourierOrders | controllers/courierController.js:12-21 | exactly the orders assigned to the courier, or unassigned, in its region and Shipped |
| CourierController.CourierOrderById | controllers/courierController.js:31-63 | 400 for an invalid courier; the order iff it exists and is accessible; otherwise 404 |
| CourierController.UpdateGuard | controllers/courierController.js:70-98 | Ok iff the status is one of the five, Failed Delivery has a reason, the courier is valid and the order accessible; never 403 |
| CourierController.CourierUpdatedSpec | controllers/courierController.js:100-137 | Picked Up on an unassigned order claims it, keeping any tracking number; courier status becomes the request's; Delivered → Delivered, Failed/Picked Up → Shipped, other statuses keep the order status |
| CourierController.UpdateCourierStatus | controllers/courierController.js:65-144 | the answer is `UpdateGuard`'s and on Ok the order becomes `CourierUpdated`; nothing changes otherwise |
| CourierController.ReportDeliveryIssue | controllers/courierController.js:183-229 | 400 without a reason, 404 unless assigned to the caller; otherwise Failed Delivery, status Shipped and two history entries |
| CourierController.CountsPartition | controllers/courierController.js:250-258 | the six status counts add up to the number of orders |
| CourierController.Summarize | controllers/courierController.js:250-258 | each count is the number of orders in that status and the counts sum to totalOrders |
| CourierController.CourierDashboard | controllers/courierController.js:231-264 | 400 for an invalid courier; otherwise the summary of exactly the accessible orders |
| CourierController.AssignedOrders | controllers/courierController.js:277 | exactly the orders assigned to the courier |
| CourierController.CourierBreakdown | controllers/courierController.js:268-286 | 400 unless the caller is a courier (no region needed); otherwise the summary of its assigned orders |
| ComplaintController.NewComplaint | controllers/complaintController.js:40-46 | a new complaint is Open, unresolved, with the refund flag, and refund amount 0 when no refund is requested |
| ComplaintController.SubmitGuard | controllers/complaintController.js:10-37 | Ok iff the order is the buyer's, has the item, the item is Delivered, any earlier complaint is Closed, and a requested refund is in (0, price × quantity] or absent |
| ComplaintController.SubmitComplaint | controllers/complaintController.js:4-54 | the answer is `SubmitGuard`'s; on Ok exactly that item gets the new complaint |
| ComplaintController.LocateItem | controllers/complaintController.js:79-83 | with every product present it is the first item with the product or 404; the first item with the product is found whenever no earlier item's product is gone, and a gone product met earlier gives 500 |
| ComplaintController.ResolveGuard | controllers/complaintController.js:63-105 | Ok iff the resolution is not Open, the order and item exist, the caller owns the product, the item is Delivered with an Open complaint, and a refund resolution has a refund request |
| ComplaintController.ResolveComplaint | controllers/complaintController.js:57-118 | the answer is `ResolveGuard`'s; on Ok the complaint takes the resolution and records the seller |
| ComplaintController.SubmittedComplaintIsResolvable | controllers/complaintController.js:89-105 | a just-submitted complaint can be resolved by the product's seller, with a refund resolution iff a refund was requested |
| ComplaintController.OrderComplaints | controllers/complaintController.js:152-153 | every item with a complaint has its entry, carrying the order and buyer, and every entry is such an item's |
| ComplaintController.OrderComplaintsCount | controllers/complaintController.js:152-153 | an order gives exactly as many entries as it has items with a complaint |
| ComplaintController.AllComplaints | controllers/complaintController.js:151-185 | every item with a complaint in every order has its entry, and every entry is such an item's |
| ComplaintController.AllComplaintsCount | controllers/complaintController.js:151-188 | the list has one entry per complaint over all orders |
| ComplaintController.Page | controllers/complaintController.js:189-190 | the page holds at most `limit` consecutive entries starting at (page-1) × limit, and is non-empty when that start is in range |
| ComplaintController.EveryComplaintOnItsPage | controllers/complaintController.js:188-190 | entry k is entry k mod limit of page k div limit + 1 |
| ComplaintController.GetAllComplaints | controllers/complaintController.js:122-206 | 403 unless admin; 400 when page or limit is < 1 after the `\|\| 1`/`\|\| 10` defaults; otherwise the page, the page and limit used, and as total the number of complaints over all orders |
| AdminController.RegionOf | models/User.js:22-32 | a courier's stored region is present iff a listed district was given |
| AdminController.NewAdmin | controllers/adminController.js:26-33 | an active admin with the email and hash; valid iff both are non-empty |
| AdminController.NewCourier | controllers/adminController.js:89-98 | an active, available courier in the region; valid iff email, hash and a listed region are given |
| AdminController.InsertAccount | controllers/adminController.js:19-34 | 400 for an email already used, 500 without a password or for an invalid record, otherwise inserted; emails stay unique |
| AdminController.AddAdmin | controllers/adminController.js:15-43 | as `InsertAccount` for `NewAdmin`; the active admins grow by the new id |
| AdminController.AddCourier | controllers/adminController.js:78-108 | as `InsertAccount` for `NewCourier` |
| AdminController.DeleteAdmin | controllers/adminController.js:45-66 | 404 for a missing id or non-admin, 403 when at most one admin account exists, otherwise a soft delete; the admin count never changes |
| AdminController.EveryAdminCanBeDeleted | controllers/adminController.js:55-59 | with two admin accounts both deletes pass the guard and no active admin remains |
| AdminController.MergedCourier | controllers/adminController.js:120-123 | each of name, phone, region, availability is replaced only when truthy; role, email, password and status stay; validity is kept |
| AdminController.UpdateCourier | controllers/adminController.js:110-131 | 404 for a missing id or non-courier, 500 for an unlisted region, otherwise `MergedCourier` is saved |
| AdminController.ApproveSeller | controllers/adminController.js:168-185 | 404 for a missing id or non-seller, 400 when already active, otherwise status "active" |
| AdminController.SoftDeleteWithRole | controllers/adminController.js:137-143 | 404 for a missing id or another role, otherwise only the status becomes "deleted" and the record stays |
| AdminController.DeleteCourier | controllers/adminController.js:133-148 | soft delete of a courier, 404 otherwise |
| AdminController.DeleteSeller | controllers/adminController.js:187-201 | soft delete of a seller, 404 otherwise |
| AdminController.DeleteBuyer | controllers/adminController.js:212-226 | soft delete of a buyer, 404 otherwise |
| UserModel.SetStatus | controllers/adminController.js:59-61 | a status change keeps all keys, the other users, the admin count and unique emails, and moves the id in or out of the active admins |
| UserModel.InsertKeepsEmailsUnique | models/User.js:9-13 | inserting an account whose email is free keeps emails unique |
| UserModel.ReplaceKeepsEmailsUnique | models/User.js:9-13 | replacing an account by one with the same email keeps emails unique |
| CategoryController.CreatedParent | controllers/categoryController.js:20-23 | `parentCategory \|\| null`: a parent is stored iff one was given |
| CategoryController.CreateGuard | controllers/categoryController.js:8-18 | 400 for a name already used, 404 for a missing or deleted parent, otherwise Created |
| CategoryController.CreateCategory | controllers/categoryController.js:4-33 | on success an active category is inserted; live parents and unique names are kept |
| CategoryController.UpdateGuard | controllers/categoryController.js:66-86 | Ok iff the category is live, a rename's name is free, a given parent is live and not the category itself |
| CategoryController.Updated | controllers/categoryController.js:88-89 | name replaced only when truthy; parent replaced whenever the key is present, `null` included |
| CategoryController.UpdateCategory | controllers/categoryController.js:61-101 | the answer is `UpdateGuard`'s; on Ok the category becomes `Updated`; live parents and unique names are kept |
| CategoryController.TwoCategoryCycleAccepted | controllers/categoryController.js:83-85 | only the direct self-parent is refused: a two-category cycle passes |
| CategoryController.DeleteGuard | controllers/categoryController.js:108-120 | 404 for a missing category, 400 when already deleted or with an active subcategory, otherwise Ok |
| CategoryController.DeleteCategory | controllers/categoryController.js:104-130 | on Ok only the status changes, to deleted; every active category still has a live parent |
| ProductController.NewProduct | controllers/productController.js:12-28 | an active product of the caller with availability "In Stock" iff stock > 0; valid iff title non-empty and stock ≥ 0 |
| ProductController.CreateProduct | controllers/productController.js:4-38 | 500 when a required field is missing or stock < 0, otherwise the product is inserted |
| ProductController.MergedProduct | controllers/productController.js:77-90 | falsy values keep the old field (price 0 ignored); stock replaced whenever given (0 included) and only then availability recomputed; seller and status kept; consistent availability kept |
| ProductController.UpdateProduct | controllers/productController.js:63-103 | 404 unless owned by the caller and not deleted, 500 for a negative stock, otherwise the merged record is saved |
| ProductController.DeleteProduct | controllers/productController.js:106-127 | 404 unless owned, 400 when already deleted, 500 when the loaded record fails the schema's validators (a negative stock) and nothing changes, otherwise only the status becomes deleted and the product is no longer active |
| ProfileController.ProfileGate | controllers/profileController.js:8-10 | 404 exactly for a missing or inactive user |
| ProfileController.GetProfile | controllers/profileController.js:5-15 | the user iff the gate passes, otherwise 404 |
| ProfileController.ProfileUpdated | controllers/profileController.js:28-43 | name, phone, image, password replaced only when truthy; addresses replaced only by a given list; role, email and status kept |
| ProfileController.UpdateProfile | controllers/profileController.js:18-56 | 404 at the gate; 400 for non-array addresses or more than one default, nothing saved; otherwise saved; no saved list has two defaults |
| ProfileController.DeleteProfile | controllers/profileController.js:59-72 | 404 at the gate, otherwise status inactive, after which the gate refuses the user |
| AuthController.RegisteredUser | controllers/authController.js:21-29 | a seller is pending with its store name; a buyer is active with none |
| AuthController.Register | controllers/authController.js:5-45 | 400 for a role other than buyer/seller, 400 for a used email, 500 without a password or for an invalid record, otherwise inserted; emails stay unique |
| AuthController.UserByEmail | controllers/authController.js:51 | the account with the email, present iff the email is used |
| AuthController.LoginGate | controllers/authController.js:56-72 | 401 for a wrong password, then 403 for deleted, inactive, or a seller not active; Ok otherwise |
| AuthController.Login | controllers/authController.js:47-87 | 401 for an unknown email or a wrong password alike; for a known email the answer is `LoginGate`'s on that account; success exactly for the account with the email, the right password, neither deleted nor inactive, and active if a seller |
| AuthController.UserByEmailAfterInsert | controllers/authController.js:51 | after inserting an account with a free email, the lookup finds it |
| AuthController.RegisteredBuyerCanLogIn | controllers/authController.js:28 | a registered buyer logs in at once with the right password |
| AuthController.RegisteredSellerWaitsForApproval | controllers/authController.js:70-72 | a registered seller gets 403 until its status becomes active, then logs in |
| AuthController.DisabledAccountCannotLogIn | controllers/authController.js:62-68 | a soft-deleted or deactivated account cannot log in whatever the password |

## Specification functions

These functions and predicates only compute, so they carry no contract of
their own. Each one is pinned down by the members named beside it, which
appear in the table above.

- `CourierController.Accessible` (controllers/courierController.js:84-98): `CourierOrders`, `CourierOrderById`, `UpdateGuard`, `CourierDashboard`.
- `OrderController.Cancellable` (controllers/orderController.js:340-348): `CancelOrder`, `PaidOrderNotCancellable`.
- `CartController.CartTotal` (controllers/cartController.js:92-97): `GetCart`, `OrderTotalMatchesCartTotal`.
- `CartController.ActiveLines` (controllers/cartController.js:80-92): `ActiveLinesMembers`, `ActiveLinesValid`, `ActiveLinesConcat`, `GetCart`.
- `OrderController.MergeShippingAddress` (controllers/orderController.js:30-44): `MergeShippingAddressSpec`, `SecondDefaultFromRequest`, `AddressWithDistrictAlwaysAppended`, `CreateOrder`.
- `OrderController.ConsumeLine` (controllers/orderController.js:216-220): `ConsumeLineValid`, `ConsumeCartKeepsReduced`, `ConsumeCartDropsUsedUp`.
- `OrderController.Restocked` (controllers/orderController.js:203-208): `AdjustStock`, `AdjustStep`.
- `OrderController.PaymentItems` and `OrderController.DerivedStatus` (controllers/orderController.js:188-256): `PaymentOutcome`, `ApplyPayment`.
- `SellerController.HandedOver` (controllers/sellerController.js:151-179): `HandedOverSpec`, `AllShippedAfterHandover`, `HandoverToCourier`.
- `SellerController.ItemsRevenue` (controllers/sellerController.js:197-203): `ItemsRevenueIsDeliveredTotal`, `SellerOrdersRevenue`.
- `CourierController.CourierUpdated` (controllers/courierController.js:100-137): `CourierUpdatedSpec`, `UpdateCourierStatus`.
- `OrderModel.Total` (controllers/orderController.js:99): `OrderTotalMatchesCartTotal`, `CreateOrder`.
- `OrderModel.ActiveTotal` (controllers/orderController.js:372-378): `ActiveTotalAfterCancel`, `CancelOrder`.
- `UserModel.ValidUser` (models/User.js:4-33): `NewAdmin`, `NewCourier`, `RegisteredUser`, `InsertAccount`, `MergedCourier`.
- `ProductModel.ValidProduct` (models/Product.js:4-26): `NewProduct`, `CreateProduct`.
- `CartModel.ValidCart` (models/Cart.js:12 and controllers/cartController.js:27-39): `MergeLine`, `RemoveAt`, `ActiveLinesValid`, `ConsumeCartValid`, `ConsumeCartLines`, `NotifyOrder`.
- `OrderModel.ValidItems` (models/Order.js:73): `CreateOrder`, which answers 500 when the new order's items would fail it.

## Left out

- Password hashing and comparison (bcrypt) and token signing (JWT) are not modelled. A hash and a match are parameters.
- The payment signature (`generatePayHereHash`, MD5 over a float amount) and the amount parsing at orderController.js:158-168 are not modelled. They are a boolean `signatureMatches`, and a non-numeric amount's 400 is not represented.
- The PayHere request data assembled after an order is created (orderController.js:117-139) is not modelled. That includes the default-address lookup.
- Timestamps are not modelled (`createdAt`, `updatedAt`, `resolvedAt`, the `updatedAt` of history entries). A generated `TRK-<time>` tracking number is a parameter.
- Concurrency and atomicity are not modelled. Each handler is one sequential step, and the stock writes are applied together with the order's save.
- Database errors, and the 500 of the `catch` blocks for causes the model does not represent, are not modelled. Such causes include an ObjectId that does not cast, a request body field of the wrong JSON type, a `null` entry in an address list, and a missing `shippingAddress` object.
- `populate`/`lean` projections (buyer and product names, e-mails, titles) are not modelled. The views return the stored records, and getProfile's removal of the password field is not represented.
- Aggregation pipelines are not modelled: getAdminAnalytics, topProducts, topSellers, courier performance, average delivery time and the float success rate. The same goes for getSellerAnalytics' lowStockProducts query and getSellerProducts' skip/limit pagination.
- getAllOrders, getAllProducts and the role-filtered user lists are not modelled (getAdmins, getCouriers, getAllSellers, getPendingSellers, getAllBuyers). Each is one database query with equality filters.
- trackOrder (orderController.js:413-460) is not modelled, and neither is saveAddress (orderController.js:462-471). saveAddress writes a `shippingAddress` field the user schema does not have.
- models/Category.js is not part of this model. The category record holds the fields the category handlers use, and its save is assumed to accept them.
- Schema constraints beyond those the handlers can violate are assumed of stored records and not checked on every save. These are the item quantity ≥ 1, the enums and the required fields.
- ComplaintController.GetAllComplaints: keeps the order's ids and complaint records. It does not model the `|| "N/A"` display defaults or the 500 a dangling buyer or product reference would cause.
- CreateCategory / UpdateCategory: a request without `name` is not modelled. The name is a given string.
- UpdateProduct: a condition outside the enum is not modelled, nor is a stock of `null`.
- The order-level `courierDetails`, `courierStatus` and `statusHistory` the seller and courier handlers use are not in the live order schema. The TypeError this causes on a live document, and the 500 it gives updateOrderStatus, handoverToCourier, updateCourierStatus and reportDeliveryIssue, are not modelled. The same goes for the item `complaint` that strict mode drops on save. The model follows the intended record instead (see "Order-level courier fields" above).
- AuthController.Login: a request without a password, where `bcrypt.compare` throws and the handler answers 500 (authController.js:56), is not modelled. The comparison is the boolean `passwordMatches`.
- SellerController.SellerItems, SellerController.SellerView, SellerController.SellerOrders, CourierController.CourierOrders, CourierController.AssignedOrders: these filters state which elements they keep, not that they keep the source's order. Only the cart filter (`ActiveLinesConcat`) and the cart cleanup (`ConsumeCartConcat`) have an order lemma.
