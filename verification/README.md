# Ramro storefront: the client-side store logic in Dafny

Ramro is a small React storefront backed by Firestore. Its behaviour lives in
a handful of Zustand stores and the pages that call them. This project models
that logic as pure Dafny functions and proves what the code promises. It
covers:

- the cart: add, update, remove and the price getters;
- the wishlist, in both its persisted and its plain store;
- the inventory: stock arithmetic, reservations and the low-stock list;
- reviews: adding, deleting, "helpful" votes and the rating statistics;
- orders: adding, creating, status changes and the admin statistics;
- the product list: search, sort, edit and delete;
- the two checkout pages;
- the review widget, the star strip and the add-to-cart control;
- the parts of the e-mail service those flows call.

A store's state is an immutable value, and every action returns the new state.
A Firestore read becomes an argument. For example, `Option<StockDoc>` is `None`
when the document does not exist, and the outcome of an order write is a
`Result<string>`: the new document's id, or the message the write failed with.
Every other write is taken to succeed (see "Left out"). The clock, `Date.now()` and
generated ids are arguments too. Order documents are JavaScript objects that
are spread into one another, so they are modelled as `map<string, Value>`, and
`{ ...a, ...b }` becomes `a + b`.

Modules:

- `Wrappers`: `Option` and `Result`.
- `Text`: `trim`, ASCII lower-casing and substring search.
- `Session`: the signed-in user.
- `Catalog`: `productStore`.
- `Cart`: `cartStore`.
- `Inventory`: `inventoryStore`.
- `Wishlist`: `wishlistStore`.
- `UserWishlist`: `userStore`.
- `Reviews`: `reviewStore`.
- `Orders`: `orderStore`.
- `Email`: `emailService`.
- `Checkout` and `CheckoutPage`: the two checkout pages.
- `ReviewSystem` and `ReviewStars`: the review widgets.
- `AddToCartButton`: the add-to-cart control.

## Model

| member | source | states |
|---|---|---|
| Cart.AddToCart | src/store/cartStore.js:46-66 | An existing line gains `qty` and keeps its place. A new product is appended as one line. Ids stay unique, and the product is in the cart afterwards. |
| Cart.Bump | src/store/cartStore.js:50-56 | Only lines with the id change, by exactly `qty`. The length and the products are kept. |
| Cart.SetQuantity | src/store/cartStore.js:73-77 | Lines with the id get the new quantity and every other line is untouched. |
| Cart.UpdateQuantity | src/store/cartStore.js:68-79 | A quantity of zero or less removes the line. A positive one replaces the line's quantity rather than adding to it. Ids stay unique. |
| Cart.RemoveFromCart | src/store/cartStore.js:81-86 | No line with the id remains. Every other line survives and nothing new appears. The length drops by the number of matching lines. |
| Cart.ClearCart | src/store/cartStore.js:88-91 | The cart becomes empty. |
| Cart.ItemQuantity | src/store/cartStore.js:93-96 | The quantity of the first line with the id, or 0 when there is none. |
| Cart.CountId | src/store/cartStore.js:83 | The number of lines carrying an id is 0 exactly when no line has it. |
| Cart.TotalItems | src/store/cartStore.js:98-100 | An empty cart counts 0 items. Without negative quantities the count is never negative and no line holds more than it. |
| Cart.TotalPrice | src/store/cartStore.js:102-104 | An empty cart costs 0. Without negative prices or quantities the total is never negative. |
| Cart.Subtotal | src/store/cartStore.js:106-108 | `getSubtotal` is the same figure as `getTotalPrice`. |
| Cart.Tax | src/store/cartStore.js:110-112 | Tax is 8% of the total price. |
| Cart.Shipping | src/store/cartStore.js:114-117 | Shipping is free exactly when the total price is above 500, and a flat 50 otherwise. |
| Cart.GrandTotal | src/store/cartStore.js:106-121 | The grand total is the price plus 8% plus the shipping charge. |
| Cart.TotalItemsAppend | src/store/cartStore.js:98-100 | The item count of two carts joined is the sum of their counts. |
| Cart.TotalPriceAppend | src/store/cartStore.js:102-104 | The price of two carts joined is the sum of their prices. |
| Cart.ItemQuantityOfLine | src/store/cartStore.js:93-96 | With unique ids, the quantity getter returns each line's own quantity. |
| Cart.ItemQuantityAfterFresh | src/store/cartStore.js:93-96 | The getter reads the first line with the id. |
| Cart.BumpAbsent | src/store/cartStore.js:50-56 | Bumping an id that is not in the cart changes nothing. |
| Cart.BumpTotals | src/store/cartStore.js:50-56 | Bumping a line adds `qty` items and `qty` times its price to the totals. |
| Cart.BumpItems | src/store/cartStore.js:50-56 | Bumping a line adds `qty` to the item count. |
| Cart.BumpPrice | src/store/cartStore.js:50-56 | Bumping a line adds `qty` times its price to the total price. |
| Cart.AddExistingTotals | src/store/cartStore.js:46-66 | Adding a product already in the cart raises its quantity and both totals by the amount added, without a new line. |
| Cart.AddNewTotals | src/store/cartStore.js:46-66 | Adding a new product gives it quantity `qty`, adds one line and raises both totals by the amount added. |
| Cart.UpdateNonPositiveIsRemove | src/store/cartStore.js:68-72 | Updating to zero or below is exactly `removeFromCart`. |
| Cart.UpdatePositiveSets | src/store/cartStore.js:73-77 | After a positive update the getter reports the new quantity. An absent id leaves the cart unchanged. |
| Cart.FirstWithId | src/store/cartStore.js:94 | A cart holding the id has a first line with that id. |
| Cart.RemoveTotals | src/store/cartStore.js:81-86 | Removal lowers the item count by that product's quantity. |
| Cart.RemoveAppend | src/store/cartStore.js:83 | Removal is an order-preserving filter: it distributes over concatenation. |
| Cart.RemoveAbsent | src/store/cartStore.js:83 | Removing an id that is not in the cart leaves it unchanged. |
| Cart.ShippingThreshold | src/store/cartStore.js:114-121 | A total of exactly 500 still pays shipping, with a grand total of 590. A total of 501 ships free. |
| Wishlist.AddToWishlist | src/store/wishlistStore.js:47-56 | A present id leaves the list unchanged. An absent id is appended. No duplicates appear. |
| Wishlist.RemoveFromWishlist | src/store/wishlistStore.js:58-63 | Exactly the id leaves the list, and the list stays duplicate-free. |
| Wishlist.RemoveAll | src/store/wishlistStore.js:60 | The filter keeps every other id, never grows, and leaves a list without the id unchanged. |
| Wishlist.RemoveAllAppend | src/store/wishlistStore.js:60 | The filter distributes over concatenation, so the kept ids stay in order. |
| Wishlist.RemoveAllSingle | src/store/wishlistStore.js:60 | On a single id the filter keeps it exactly when it differs. |
| Wishlist.ToggleWishlist | src/store/wishlistStore.js:65-72 | Toggling flips the id's membership and leaves every other id as it was. |
| Wishlist.IsInWishlist | src/store/wishlistStore.js:74-76 | True exactly when some position holds the id. |
| Wishlist.ClearWishlist | src/store/wishlistStore.js:78-81 | The list becomes empty. |
| Wishlist.WishlistCount | src/store/wishlistStore.js:83-85 | The count is the length, which is the number of distinct ids when there are no duplicates. |
| Wishlist.DistinctCount | src/store/wishlistStore.js:83-85 | A duplicate-free list has as many elements as distinct ids. |
| Wishlist.ToggleTwiceAbsent | src/store/wishlistStore.js:65-72 | Toggling an absent id twice restores the list. |
| Wishlist.RemoveAppendedAbsent | src/store/wishlistStore.js:58-63 | Removing an id just appended restores the list. |
| Wishlist.ToggleTwicePresent | src/store/wishlistStore.js:65-72 | Toggling a present id twice moves it to the end. |
| UserWishlist.Toggle | src/store/userStore.js:6-13 | A present id is filtered out. An absent one is appended, and a missing list counts as empty. |
| UserWishlist.Clear | src/store/userStore.js:14 | The list becomes empty. |
| UserWishlist.ToggleTwiceRestores | src/store/userStore.js:6-13 | Toggling an absent id twice restores the list. |
| UserWishlist.AgreesWithWishlistStore | src/store/userStore.js:6-13 | On an existing list, the plain store toggles exactly like the persisted one. |
| Inventory.NewQuantity | src/store/inventoryStore.js:91-98 | Subtraction floors at zero. "add" adds. Any other operation sets the quantity directly. |
| Inventory.Available | src/store/inventoryStore.js:89 | `quantityAvailable \|\| 0`: a missing count reads as 0, a present one as itself. |
| Inventory.Reserved | src/store/inventoryStore.js:140 | `reservedQuantity \|\| 0`: a missing count reads as 0, a present one as itself. |
| Inventory.UpdateInventory | src/store/inventoryStore.js:78-125 | A missing document fails with "Product not found". Otherwise the new quantity is written with the time and the low-stock list is re-checked. Only this product's cache entry changes: its available count and time are new, and the spread keeps its reserved and total counts (absent for a new entry). |
| Inventory.Reserve | src/store/inventoryStore.js:128-157 | Fails when the document is missing or stock is short. Otherwise the units move from available to reserved. |
| Inventory.Release | src/store/inventoryStore.js:160-185 | Fails only when the document is missing. Otherwise the units return to available, and reserved stock never drops below zero. |
| Inventory.ReserveThenRelease | src/store/inventoryStore.js:128-185 | Releasing what was just reserved restores both counters. |
| Inventory.WithoutItem | src/store/inventoryStore.js:195 | The filter drops exactly the product's entries. |
| Inventory.CheckLowStock | src/store/inventoryStore.js:188-225 | A quantity in 1..threshold leaves one fresh entry for the product at the end. Above the threshold its entry goes. Zero or less leaves the list alone. Other products' entries are kept. |
| Inventory.CheckLowStockIdempotent | src/store/inventoryStore.js:188-225 | Checking twice with the same data and clock equals checking once. |
| Inventory.WithoutTwice | src/store/inventoryStore.js:195 | Filtering twice equals filtering once. |
| Inventory.WithoutAppend | src/store/inventoryStore.js:195 | The filter distributes over concatenation, so the other low-stock entries keep their order. |
| Inventory.OnSnapshot | src/store/inventoryStore.js:29-48 | An existing document refreshes only its own cache entry, with missing counters as 0, and re-checks low stock. A missing one changes nothing. |
| Inventory.InventoryStatus | src/store/inventoryStore.js:269-277 | One record per requested id, in order. The low-stock flag means at most 5 available and the out-of-stock flag means exactly 0. An uncached product gets neither flag, and out of stock implies low stock. |
| Reviews.RoundHalfUp | src/store/reviewStore.js:264 | `Math.round`: the integer within one half below and under one half above. |
| Reviews.Distribution | src/store/reviewStore.js:258-261 | The distribution counts each rating. Keys 1..5 are always present and other ratings appear as their own keys. |
| Reviews.Tally | src/store/reviewStore.js:258-261 | The reducer adds each review's rating count to the starting map. |
| Reviews.StatsOf | src/store/reviewStore.js:244-268 | No reviews give zeros. Otherwise the total is the count, the distribution matches the counts, and the average is the mean to one decimal: a multiple of 0.1 within 0.05 of the mean. |
| Reviews.GetReviewStats | src/store/reviewStore.js:244-268 | The statistics of exactly the product's cached reviews, with all that `StatsOf` states about them. A product with nothing cached gets zeros and the empty 1..5 distribution. |
| Reviews.DistributionSumsToTotal | src/store/reviewStore.js:258-265 | With ratings in 1..5, the five buckets add up to the number of reviews. |
| Reviews.SumWithin | src/store/reviewStore.js:255 | The rating sum lies between count times the lowest and count times the highest rating. |
| Reviews.MeanWithin | src/store/reviewStore.js:256 | A sum so bounded gives a mean between the bounds. |
| Reviews.AverageWithinRatings | src/store/reviewStore.js:255-264 | The rounded average stays within the range of the ratings. |
| Reviews.HasUserReviewed | src/store/reviewStore.js:235-241 | False when logged out. Otherwise true exactly when a cached review of the product carries the user's uid. |
| Reviews.ByUser | src/store/reviewStore.js:240 | `some(userId === uid)`. |
| Reviews.UpdateProductRating | src/store/reviewStore.js:97-114 | Nothing is written without reviews. Otherwise the write carries the review count and the same rounded average as the statistics. |
| Reviews.NameOf | src/store/reviewStore.js:65 | The display name when non-empty, else "Anonymous". |
| Reviews.AddReview | src/store/reviewStore.js:55-94 | Fails when logged out. Otherwise the review, stamped with the current time as both `createdAt` and `updatedAt`, with helpful 0 and unverified, goes first in its product's cache. The rating write that follows is the one `updateProductRating` computes from the new list. |
| Reviews.WithoutReview | src/store/reviewStore.js:161-163 | Exactly the reviews with that id leave. |
| Reviews.WithoutReviewAppend | src/store/reviewStore.js:161-163 | The filter distributes over concatenation, so the remaining reviews keep their display order. |
| Reviews.WithoutReviewSingle | src/store/reviewStore.js:161-163 | On one review the filter keeps it exactly when its id differs. |
| Reviews.WithoutReviewAbsent | src/store/reviewStore.js:161-163 | A list without that id is returned unchanged. |
| Reviews.DeleteReview | src/store/reviewStore.js:149-174 | Fails when logged out. Otherwise only that product's cache loses the review, and its rating is recomputed. |
| Reviews.DeleteUndoesAdd | src/store/reviewStore.js:55-174 | Deleting the review just added, under an id the list did not use, restores that product's list and leaves the others alone. |
| Reviews.SetHelpful | src/store/reviewStore.js:193-197 | Only the reviews with the id get the new count. |
| Reviews.MarkHelpful | src/store/reviewStore.js:177-205 | A missing document changes nothing. Otherwise the stored count (0 when missing) plus one is written and copied into every cached review with that id. |
| Orders.AddOrder | src/store/orderStore.js:77-99 | A failed write returns its error. Otherwise the stamped order with its new id is appended to both lists and the error is cleared. |
| Orders.AfterAddOrder | src/store/orderStore.js:95-97 | A failed write leaves the lists and records the message. A successful one grows both lists by one. |
| Orders.Forced | src/store/orderStore.js:105-112 | `createOrder` forces exactly user id, e-mail, status, order number and creation time. |
| Orders.Placed | src/store/orderStore.js:105-116 | The returned order has the caller's fields plus the forced ones and the id. Its status is "processing", its order number is "ORD-" and the stamp, `createdAt` is the write time, and the caller's other fields are kept. |
| Orders.PlacedKeeps | src/store/orderStore.js:105-112 | A field the caller set and `createOrder` does not force survives, also in the stored copy. |
| Orders.PlacedKeepsTotal | src/store/orderStore.js:105-112 | `createOrder` keeps the caller's total. |
| Orders.PlacedLacks | src/store/orderStore.js:105-112 | A field the caller left out and `createOrder` does not force stays absent. |
| Orders.CreateOrder | src/store/orderStore.js:101-120 | It succeeds exactly when a user is signed in and the write succeeds. Logged out fails "User not authenticated". A failed write passes its error through. On success both lists gain the order with `updatedAt`, and the caller gets the placed order. |
| Orders.MergeWhere | src/store/orderStore.js:148-153 | Orders with the id get the update merged in and the others are untouched. |
| Orders.UpdateData | src/store/orderStore.js:124-128 | The update holds `status`, `updatedAt` and the additional keys. Additional values win, and otherwise the status and time are the arguments. |
| Orders.FirstWithId | src/store/orderStore.js:134 | `find`: the order at the least position carrying the id, or none when no order has it. |
| Orders.FindOrder | src/store/orderStore.js:134-135 | When `orders` holds the id, the first such order there. Otherwise the first one in `userOrders`, or none. |
| Orders.UpdateOrderStatus | src/store/orderStore.js:122-158 | A failed write records its error and changes nothing. Otherwise status, time and additional data merge into that order in both lists, and a found order is passed on merged for the e-mail. |
| Orders.AnyStatusMayFollowAny | src/store/orderStore.js:125-129 | Any status may replace any other: there is no transition check. |
| Orders.AdditionalDataWins | src/store/orderStore.js:125-129 | A `status` inside the additional data overrides the status argument. |
| Orders.CountStatus | src/store/orderStore.js:166-169 | A status count never exceeds the number of orders. It is 0 exactly when no order has the status, and the full length exactly when every order has it. |
| Orders.GetOrderStats | src/store/orderStore.js:161-176 | The total is the number of orders, and the four status counts add up to at most that. With every order cancelled, revenue is 0. |
| Orders.CountsBounded | src/store/orderStore.js:165-169 | The four status counts add up to at most the total. |
| Orders.CancelledRevenue | src/store/orderStore.js:170-172 | Cancelled orders add nothing to revenue. |
| Orders.Revenue | src/store/orderStore.js:170-172 | No orders give 0, and with no negative total revenue is never negative. |
| Orders.RevenueAppend | src/store/orderStore.js:170-172 | Revenue of two lists joined is the sum of their revenues. |
| Orders.RevenueSingle | src/store/orderStore.js:170-172 | One order adds its total, read as `total \|\| 0`, unless it is cancelled. With `RevenueAppend` revenue is that sum over every list. |
| Orders.CountAppend | src/store/orderStore.js:166-169 | Status counts of two lists joined add up. |
| Orders.NewOrderStats | src/store/orderStore.js:101-120 | After `createOrder` the order count and the processing count grow by one, and revenue grows by the new order's total. |
| Catalog.FilterProducts | src/store/productStore.js:81-90 | Exactly the matching products are kept, each as often as it occurs. |
| Catalog.MatchesSearch | src/store/productStore.js:82-84 | An empty term matches everything. Otherwise the lower-cased term must occur in the lower-cased name or description. |
| Catalog.MatchesCategory | src/store/productStore.js:86 | "all" matches every product. Otherwise the category must be equal. |
| Catalog.NameLeqTotal | src/store/productStore.js:103 | Any two names are ordered one way or the other. |
| Catalog.NameLeqTransitive | src/store/productStore.js:103 | The name order is transitive. |
| Catalog.Precedes | src/store/productStore.js:92-105 | "a may stand before b" under the comparator: every product may stand before itself, and any key other than the four named ones compares names with `localeCompare`. |
| Catalog.PrecedesTotal | src/store/productStore.js:92-105 | For every sort key, any two products can be ordered. |
| Catalog.PrecedesTransitive | src/store/productStore.js:92-105 | For every sort key, the comparator order is transitive. |
| Catalog.Insert | src/store/productStore.js:92-105 | Inserting into a sorted list keeps it sorted and adds exactly that product. |
| Catalog.SortProducts | src/store/productStore.js:92-105 | The result is a sorted permutation of the input. |
| Catalog.SearchProducts | src/store/productStore.js:78-109 | The result holds exactly the matching products, each as often as it occurs, in the requested order. It is also stored as `searchResults`. |
| Catalog.SearchOrder | src/store/productStore.js:92-105 | Adjacent results follow each named sort: price up or down, rating down, newest first, otherwise name. |
| Catalog.DistinctFrom | src/store/productStore.js:35 | `[...new Set(...)]` keeps the values already seen as a prefix, adds no duplicates and loses no value. |
| Catalog.DistinctFromSnoc | src/store/productStore.js:35 | Appending a value adds it at the end exactly when it is new, so values keep the order of their first occurrence. |
| Catalog.CategoriesOf | src/store/productStore.js:35 | `map(p => p.category)`. |
| Catalog.DistinctCategories | src/store/productStore.js:35 | Each product category appears exactly once. The order of first occurrence is stated by `DistinctCategoriesSnoc`. |
| Catalog.DistinctCategoriesSnoc | src/store/productStore.js:35 | A product's category joins the end of the list exactly when no earlier product had it: categories appear in first-occurrence order. |
| Catalog.FetchProducts | src/store/productStore.js:25-41 | The loaded products replace the list, and the categories are exactly theirs, without duplicates, in the order `DistinctCategories` gives. |
| Catalog.UpdateProduct | src/store/productStore.js:129-145 | Only products with the id change. Each edited field (name, description, category, price, rating, stock) takes its new value, unedited fields and `createdAt` are kept, and `updatedAt` is the time. The others and the length are untouched. |
| Catalog.ApplyPatch | src/store/productStore.js:129-141 | The edit keeps the id and `createdAt` and stamps `updatedAt` with the time. An empty edit changes nothing else. |
| Catalog.UpdateProductIdempotent | src/store/productStore.js:129-145 | Applying the same edit twice equals applying it once. |
| Catalog.DeleteProduct | src/store/productStore.js:147-157 | Exactly the products with the id go, and every other occurrence stays. |
| Catalog.DeleteAppend | src/store/productStore.js:152 | The filter distributes over concatenation, so the remaining products keep their order. |
| Catalog.DeleteSingle | src/store/productStore.js:152 | On one product the filter keeps it exactly when its id differs. |
| Catalog.DeleteAfterUpdate | src/store/productStore.js:129-157 | Deleting after editing the same id is the same as deleting. |
| Text.Trim | src/pages/Checkout.jsx:55 | `trim()`, stripping every white-space and line-terminator character JavaScript does: the result is a contiguous piece of the input, everything removed before and after it is white space, it has no space at either end, and it is empty exactly when the input is blank. |
| Text.Lower | src/store/productStore.js:82-83 | `toLowerCase()` character by character, keeping the length. |
| Text.LowerChar | src/store/productStore.js:82-83 | Each capital maps to the lower-case letter at the same position in the alphabet, and other characters are kept. |
| Text.Contains | src/store/productStore.js:82-83 | `includes` is true exactly when the text occurs at some position. |
| Text.SkipSpace | src/pages/Checkout.jsx:55 | The first non-space position from `i`. |
| Text.SkipSpaceBack | src/pages/Checkout.jsx:55 | The last non-space position before `m`. |
| Checkout.Label | src/pages/Checkout.jsx:56 | The field name in a message has no capital letters. A name without capitals is kept. |
| Checkout.LabelOneCapital | src/pages/Checkout.jsx:56 | One capital becomes a space followed by its lower-case letter. |
| Checkout.LabelFirstName | src/pages/Checkout.jsx:56 | `firstName` reads "first name". |
| Checkout.LabelZipCode | src/pages/Checkout.jsx:65 | `zipCode` reads "zip code". |
| Checkout.FirstBlank | src/pages/Checkout.jsx:54-59 | None exactly when no listed field is blank after trimming. Otherwise the field at the least blank position. |
| Checkout.ValidateForm | src/pages/Checkout.jsx:51-72 | The form passes exactly when the seven shipping fields, and the four card fields for card payment, are non-blank. Otherwise the message names the first blank shipping field in their fixed order. When all of those are filled, it names the first blank card field, and only for card payment. |
| Checkout.BlankFirstNameFirst | src/pages/Checkout.jsx:52-59 | A blank first name is reported first, whatever else is blank. |
| Checkout.NeverRequired | src/pages/Checkout.jsx:51-72 | State, country and notes never affect validation. |
| Checkout.CardFieldsOnlyForCard | src/pages/Checkout.jsx:61-69 | The card fields matter only when paying by card. |
| Checkout.SameValues | src/pages/Checkout.jsx:54-59 | Forms equal on the checked fields fail on the same field. |
| Checkout.FirstBlankSameValues | src/pages/Checkout.jsx:54-59 | Forms equal on the listed fields fail on the same field. |
| Checkout.OrderData | src/pages/Checkout.jsx:87-111 | The order carries exactly the ten fields of the page, with status processing and payment pending. Its amounts are the cart getters' and its total is the grand total. |
| Checkout.OrdersAfter | src/pages/Checkout.jsx:118 | Logged out leaves the orders alone. A signed-in failed write records its message and changes nothing else. A successful `createOrder` yields its state. |
| Checkout.Submit | src/pages/Checkout.jsx:74-143 | An invalid form shows its message and an empty cart "Your cart is empty", both with no effect. Card payment only opens the payment step. Cash on delivery creates the order, attempts the confirmation (recorded with the corrected mailer, see Findings), then clears the cart. A failure shows "Failed to place order. Please try again." and keeps the cart. |
| Checkout.PlacedOrderTotal | src/pages/Checkout.jsx:104-110 | A placed order carries the grand total, also in its stored copy, with status processing and payment pending. |
| Checkout.ConfirmationAsWrittenThrows | src/services/emailService.js:26 | As written, every confirmation of an order placed here throws. |
| Checkout.SubmitMailAsWritten | src/pages/Checkout.jsx:116-127 | As written, the confirmation of the order `Submit` created throws, and the cart is cleared regardless. |
| Checkout.ConfirmationCorrectedSends | src/pages/Checkout.jsx:118-125 | With the corrected mailer the confirmation goes to the user's e-mail, greets the form's first name and lists every cart line. |
| Checkout.ConfirmationOfPlaced | src/services/emailService.js:20-41 | Any order data with `shippingInfo` and `items` is confirmed once placed. |
| Checkout.StatusMailsSayCustomer | src/services/emailService.js:79 | Status mails for orders placed here always greet "Customer". |
| CheckoutPage.PageTotal | src/pages/CheckoutPage.jsx:22-25 | The page's own total equals the cart store's total price. |
| CheckoutPage.AllFilled | src/pages/CheckoutPage.jsx:38 | The form fails exactly when one of name, address, city, zip and phone is empty. |
| CheckoutPage.Request | src/pages/CheckoutPage.jsx:51-56 | The page sends exactly items, `shipping`, total and `createdAt`, never `shippingInfo`, and the total it sends is the cart store's total price. |
| CheckoutPage.HandleCheckout | src/pages/CheckoutPage.jsx:31-64 | A missing field gives "All fields are required." and an empty cart "Your cart is empty.", both with no change. The cart is cleared exactly when `createOrder` succeeds, which is when the thank-you message shows. Otherwise the cart is kept with "Something went wrong. Please try again." |
| CheckoutPage.CreatedAtReplaced | src/pages/CheckoutPage.jsx:51-56 | The page's numeric `createdAt` is overwritten by the write time, and its total is kept. |
| ReviewSystem.Fills | src/components/ReviewSystem.jsx:12-14 | Filled stars always form a prefix. A hovered star fills itself and the stars before it. Without hover, stars up to the rating fill. |
| ReviewSystem.Handle | src/components/ReviewSystem.jsx:20-24 | A read-only strip ignores events. Enter sets the hover, leave clears it, and a click reports the star when a handler is attached. |
| ReviewSystem.Run | src/components/ReviewSystem.jsx:20-24 | A run of events reports at most one choice per event. |
| ReviewSystem.ReadonlyIgnoresEvents | src/components/ReviewSystem.jsx:20-24 | A read-only strip never changes and reports nothing. |
| ReviewSystem.ClicksChooseStars | src/components/ReviewSystem.jsx:24 | Clicks report exactly the clicked stars, in order. |
| ReviewSystem.Input | src/components/ReviewSystem.jsx:50-55 | The comment is trimmed. A blank title is left out, and any other title is trimmed. |
| ReviewSystem.CanSubmit | src/components/ReviewSystem.jsx:46 | A review can go out exactly when a rating is chosen and the trimmed comment is non-empty; the submit button is disabled otherwise (line 131). |
| ReviewSystem.SubmitReview | src/components/ReviewSystem.jsx:44-70 | Nothing happens without a rating and a non-blank comment, or without a user. Otherwise the review is added and the form resets. |
| ReviewSystem.Percentage | src/components/ReviewSystem.jsx:230-232 | A bar's share is count times 100 over the total, and 0 without reviews. |
| ReviewSystem.StatsPanel | src/components/ReviewSystem.jsx:206-252 | Nothing is shown without reviews. Otherwise five bars run from 5 down to 1, with each rating's count and share. |
| ReviewSystem.BarFor | src/components/ReviewSystem.jsx:229-232 | One bar: the bucket's count and its share of the total. |
| ReviewSystem.BarsSumToHundred | src/components/ReviewSystem.jsx:228-232 | With ratings in 1..5, the five bars fill exactly 100%. |
| ReviewSystem.SharesAddUp | src/components/ReviewSystem.jsx:230-232 | Shares of counts summing to the total add up to 100. |
| ReviewSystem.ShareIsMultiple | src/components/ReviewSystem.jsx:231 | Each share is its count times the share of one review. |
| ReviewSystem.ReviewArea | src/components/ReviewSystem.jsx:254-279 | The form area is hidden exactly when the user has reviewed the product. Otherwise the "Write a Review" button shows exactly when the form is closed, and the login prompt (lines 72-84) exactly when it is open with nobody signed in. A shown form means a user with no review yet. |
| ReviewSystem.SubmitHidesForm | src/components/ReviewSystem.jsx:263-279 | Once a review goes through, the form area disappears for that user. |
| ReviewStars.Glyphs | src/components/ReviewStars.jsx:3-13 | Five glyphs, the first floor(rating) of them full. A missing rating counts as 0. |
| ReviewStars.HalfLooksWhole | src/components/ReviewStars.jsx:6-10 | A half star draws as an empty one, so k + 0.5 looks like k. |
| ReviewStars.NoRatingNoStars | src/components/ReviewStars.jsx:3 | No rating shows five empty stars. |
| ReviewStars.AgreesWithStarRating | src/components/ReviewStars.jsx:3-13 | For every rating the strip fills the same stars as the review widget's read-only strip. |
| AddToCartButton.Render | src/components/AddToCartButton.jsx:5-39 | The add button shows exactly when the quantity is 0, disabled and "Out of Stock" exactly when stock is 0. Otherwise the stepper shows the quantity, and plus is disabled at or above known stock. |
| AddToCartButton.OnAdd | src/components/AddToCartButton.jsx:12 | After the add button the product is in the cart, and ids stay unique. |
| AddToCartButton.OnMinus | src/components/AddToCartButton.jsx:24 | At a quantity of one or less, minus takes the product out of the cart. Ids stay unique. |
| AddToCartButton.OnPlus | src/components/AddToCartButton.jsx:31 | Plus on a product not in the cart changes nothing, and ids stay unique. |
| AddToCartButton.AddShowsOne | src/components/AddToCartButton.jsx:9-18 | The add button puts exactly one unit in the cart and turns into the stepper. |
| AddToCartButton.MinusAtOneRemoves | src/components/AddToCartButton.jsx:24 | Minus at one removes the product and brings the add button back. |
| AddToCartButton.MinusLowersByOne | src/components/AddToCartButton.jsx:24 | Minus above one lowers the quantity by one. |
| AddToCartButton.PlusStaysWithinStock | src/components/AddToCartButton.jsx:31-32 | An enabled plus raises the quantity by one without passing known stock. |
| AddToCartButton.NoStockNoLimit | src/components/AddToCartButton.jsx:32 | Without a stock figure, plus is never disabled. |
| Email.StatusTemplate | src/services/emailService.js:57-72 | Only shipped, delivered and cancelled have a template, each its own. Any other status sends nothing. |
| Email.Subject | src/services/emailService.js:60-68 | Every subject starts "Your order #" and the order number. |
| Email.SubjectsDiffer | src/services/emailService.js:60-68 | The three subjects differ. |
| Email.CustomerName | src/services/emailService.js:79 | `shipping?.firstName \|\| 'Customer'`: a non-empty `firstName` in a `shipping` object is used. A missing `shipping`, a `shipping` without `firstName` (as on orders from the second checkout page) or an empty one gives "Customer". |
| Email.ItemSummaries | src/services/emailService.js:84-87 | Without items the list is empty. Otherwise there is one summary per line. |
| Email.StatusUpdate | src/services/emailService.js:52-98 | A status without a template sends nothing. Items that are not a list throw. Otherwise the mail goes to the order's e-mail with the right template. |
| Email.Notify | src/store/orderStore.js:137-145 | A status change that found no order sends nothing. Otherwise the merged order is mailed. |
| Email.ShippedMailsProcessingDoesNot | src/store/orderStore.js:133-145 | Marking an order shipped sends a mail, and marking it processing does not. |
| Email.LowStockAlert | src/services/emailService.js:121-144 | Nothing is sent exactly when `inventory` exceeds the threshold (default 5). Otherwise the admin gets the current stock. |
| Email.AlertIgnoresQuantityAvailable | src/services/emailService.js:123 | The alert reads `inventory`, never `quantityAvailable`. |
| Email.ConfirmationItems | src/services/emailService.js:29-34 | One line per item, or nothing when `items` is not a list. |
| Email.ConfirmationAsWritten | src/services/emailService.js:20-50 | As written, an order without `shipping` throws, and a sent mail greets `shipping.firstName`. |
| Email.Confirmation | src/services/emailService.js:20-50 | Corrected: the greeting reads the first name from `shippingInfo` when present. The mail goes to the order's e-mail, and it is sent exactly when `items` is a list. |
| Email.ConfirmationAgreesOnShipping | src/services/emailService.js:20-50 | Without `shippingInfo`, the corrected mailer sends what the original sends. |

## Findings

| source | as written | input that shows it | evidently intended | confidence | as-written member | corrected member |
|---|---|---|---|---|---|---|
| src/services/emailService.js:26 | `sendOrderConfirmation` reads `orderData.shipping.firstName`. The checkout page stores the address under `shippingInfo` (src/pages/Checkout.jsx:89), so the read throws. The caller swallows the error (src/pages/Checkout.jsx:121-125), so no confirmation is ever sent. | Any cash-on-delivery order placed from the checkout page. | Read the first name from `shippingInfo`, the key the checkout writes. | not executed | Checkout.ConfirmationAsWrittenThrows | Checkout.ConfirmationCorrectedSends |

The same key mismatch makes every status mail for those orders greet
"Customer" (`Checkout.StatusMailsSayCustomer`). That mail is still sent.

## Left out

- Firestore, local persistence and `setTimeout` saves: reads are arguments and writes are results.
- Loading flags and `clearError`: they carry no logic.
- Concurrency between store actions: each action is one atomic step.
- Queries that only fetch:
  - `fetchOrders`, `fetchUserOrders`, `getOrderById`;
  - `fetchProductReviews`, `fetchUserReviews`;
  - `fetchFeaturedProducts`, `getProductById`, `addProduct`;
  - `fetchLowStockProducts`, `loadCart`, `loadWishlist`.
- `updateReview`, `bulkUpdateInventory`, `trackProduct` listener bookkeeping and `cleanup`: they are not part of this model.
- The 24-hour gate on the low-stock e-mail: it only decides whether to call the mailer, whose own early return is modelled in `Email.LowStockAlert`.
- Payment (Stripe and Razorpay), `handlePaymentSuccess` and navigation after checkout: they are foreign code.
- The welcome and password-reset mails and the HTML of every mail: there is no logic to prove.
- All timestamps of one action are one `now` argument. `Date.now()` and generated ids are arguments too.
- Numbers are unbounded integers or exact reals, not IEEE doubles. Prices are whole numbers and the tax is exactly 8%.
- Email.Show: a numeric field appears in mail text as an empty string, because number-to-text formatting is not modelled. Order numbers are strings and unaffected.
- Checkout.Submit: the e-mail entry of its trace records the corrected mailer's outcome. As written, that call throws (`Checkout.SubmitMailAsWritten`), and the catch at src/pages/Checkout.jsx:123-125 swallows it. The cart, the orders and the message come out the same either way.
- Reviews.AddReview, Reviews.DeleteReview, Reviews.MarkHelpful: a failed Firestore write is not modelled. The error-recording catch paths (src/store/reviewStore.js:90-93, 170-173, 202-204) are left out.
- Inventory.UpdateInventory, Inventory.Reserve, Inventory.Release: a failed write is not modelled. Only "Product not found" and short stock fail (src/store/inventoryStore.js:121-124, 153-156, 181-184 are left out).
- Catalog.UpdateProduct, Catalog.DeleteProduct: a failed write is not modelled (src/store/productStore.js:142-144, 154-156 are left out).
- ReviewSystem.SubmitReview: a failed `addReview` keeps the form (src/components/ReviewSystem.jsx:65-67). The model takes the add to succeed whenever a user is signed in.
- Cart.AddToCart: the default `qty = 1` (src/store/cartStore.js:46) is not modelled: the quantity is always an explicit argument.
- Inventory.UpdateInventory: the default `operation = 'subtract'` (src/store/inventoryStore.js:78) is not modelled: the operation is always an explicit argument.
- Orders.TotalOf: a `total` that is not a number counts as 0, where JavaScript would concatenate strings.
- Text.Lower: only ASCII letters are lower-cased; Unicode case folding is not modelled.
- Catalog.NameLeq: `localeCompare` is modelled as plain character-code order.
- Catalog.SortProducts: the contract states a sorted permutation; the stability of `Array.prototype.sort` among ties is not stated.
- Orders.GetOrderStats: its contract bounds the counts and relates revenue to cancellation. The exact per-status counts come from `Orders.CountStatus`, and the effect of one new order is in `Orders.NewOrderStats`.
