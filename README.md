# Fashion store bookkeeping, modelled in Dafny

This project models the bookkeeping core of a MERN fashion store. It proves properties of that model.

The server side covers five route groups:
- **Cart**: the per-user cart lines. Adding merges by (product, size, colour name) or appends. Updating a line sets its quantity or removes it. Removing pulls a line, and clearing empties the cart.
- **Orders**: building an order from the cart, with server-side prices, the orderItems projection and the payment status. Viewing an order is limited to its owner or an admin.
- **Admin**: the order-status update and the dashboard statistics.
- **Wishlist**: the per-user list of product ids, with duplicate rejection.
- **Products and reviews**: listing with filters and pagination, the category route, create, update and a soft delete. Adding a review enforces one review per user and recomputes the rating; deleting a review recomputes it too.
- **Contact messages**: the input guards, the email pattern, the normalised stored message and the status update.

The browser side covers:
- **The cart context**: guest merge or append, the clamp on update, removal by `_id` or index, the hydration on load, the count and the total.
- **The wishlist context**: guest add with duplicate refusal, remove, the toggle and hydration.
- **Pages**: the cart, checkout and wishlist pages; the product card and product detail page; the category page; the review form; the registration form; and the admin dashboard's product-form and inbox helpers.
- **Small interaction machines**: the image slider, the route guard and the sale countdown.

Entities the source updates in place are classes with `modifies` clauses:
- the server stores: `CartStore`, `WishlistStore`, `Catalog`, `OrderBook` and `ContactInbox`;
- the browser providers: `CartProvider` and `WishlistProvider`;
- the review form's state and the countdown.

Everything else is functions over datatypes, with lemmas relating them. Money is an exact `real`. `Math.round` is `floor(x + 0.5)`. Text is ASCII.

Environment results are parameters of the operations. These are:
- the documents a `findById` or `populate` can find, as a map;
- a server reply, as an `Option`;
- fresh ids, the current time, and the URLs assigned to uploaded files.

## Model

| member | source | states |
|---|---|---|
| CartRoutes.Populate | backend/routes/cartRoutes.js:14-36 | each line keeps its id, quantity, size and colour, and its product is the catalog document or a missing-product marker |
| CartRoutes.AddMergesExisting | backend/routes/cartRoutes.js:69-78 | adding a variant that has a line adds the quantity to that line and changes no other line |
| CartRoutes.AddAppendsNew | backend/routes/cartRoutes.js:79-87 | adding a variant with no line appends exactly one line with the fresh id |
| CartRoutes.AddKeepsUnique | backend/routes/cartRoutes.js:63-87 | adding keeps variants unique, and keeps line ids unique given a fresh id |
| CartRoutes.SetQuantityKeepsUnique | backend/routes/cartRoutes.js:76-78 | changing a quantity keeps both uniqueness invariants |
| CartRoutes.PullKeepsUnique | backend/routes/cartRoutes.js:167 | pulling keeps both uniqueness invariants |
| CartRoutes.PullRemovesOnlyThatLine | backend/routes/cartRoutes.js:167 | with unique ids, pulling a present id removes exactly that line and keeps the rest in order |
| CartRoutes.PullAbsent | backend/routes/cartRoutes.js:167 | pulling an id no line has changes nothing |
| CartRoutes.PullIdempotent | backend/routes/cartRoutes.js:167 | pulling twice equals pulling once |
| CartRoutes.UpdateSetsQuantity | backend/routes/cartRoutes.js:129-140 | a positive quantity is stored on that line only |
| CartRoutes.UpdateRemovesLine | backend/routes/cartRoutes.js:129-134 | a quantity of 0 or less removes exactly that line |
| CartRoutes.UpdateKeepsUnique | backend/routes/cartRoutes.js:109-151 | updating keeps both uniqueness invariants |
| CartRoutes.MergeScenario | backend/routes/cartRoutes.js:63-87 | two adds of one variant give one line with the summed quantity; a different size gives a second line |
| CartRoutes.CartStore.Get | backend/routes/cartRoutes.js:14-36 | a missing cart is created empty; an existing one is returned unchanged |
| CartRoutes.CartStore.Add | backend/routes/cartRoutes.js:41-104 | the three outcomes, in order: 400 on a missing field, 404 on an unknown product, else merge-or-append; the store stays valid |
| CartRoutes.CartStore.Update | backend/routes/cartRoutes.js:109-151 | 404 for a missing cart or line; otherwise set the quantity, or remove the line at 0 or below |
| CartRoutes.CartStore.Remove | backend/routes/cartRoutes.js:156-183 | 404 without a cart; otherwise the pull, with an absent id being no error |
| CartRoutes.CartStore.Clear | backend/routes/cartRoutes.js:188-214 | the cart stays, with no lines |
| CartContext.FindFrom | frontend/src/context/CartContext.jsx:150-155 | the first entry matching by `_id` or by index, with no earlier match |
| CartContext.GuestAddMerges | frontend/src/context/CartContext.jsx:107-118 | a guest add of a present variant adds the quantity to the first such entry only |
| CartContext.GuestAddAppends | frontend/src/context/CartContext.jsx:119-125 | a guest add of a new variant appends one entry holding the product |
| CartContext.GuestAddCount | frontend/src/context/CartContext.jsx:88-131 | with positive quantities, a guest add raises the count by exactly the quantity |
| CartContext.CountTotalAppend | frontend/src/context/CartContext.jsx:210-225 | count and total are additive over concatenation |
| CartContext.GuestUpdateClamps | frontend/src/context/CartContext.jsx:148-169 | a guest update sets the first match to max(1, quantity), leaves the rest, and is None iff nothing matches |
| CartContext.DropFromSound | frontend/src/context/CartContext.jsx:175-177 | every entry removal keeps is one that did not match |
| CartContext.KeptFrom | frontend/src/context/CartContext.jsx:175-177 | the positions the filter keeps, each within the entries from the start position on |
| CartContext.KeptFromSound | frontend/src/context/CartContext.jsx:175-177 | no kept position matches the id by `_id` or by index |
| CartContext.KeptFromAscending | frontend/src/context/CartContext.jsx:175-177 | the kept positions are strictly increasing, so the filter keeps the original order |
| CartContext.KeptFromComplete | frontend/src/context/CartContext.jsx:175-177 | every position that does not match is kept |
| CartContext.DropFromIsKept | frontend/src/context/CartContext.jsx:175-177 | the filtered cart is exactly the entries at the kept positions, in that order |
| CartContext.GuestRemoveKeepsOthers | frontend/src/context/CartContext.jsx:172-177 | every entry that does not match survives a removal, however many entries match |
| CartContext.DropNone | frontend/src/context/CartContext.jsx:175-177 | with no match, nothing is removed |
| CartContext.DropExactlyOne | frontend/src/context/CartContext.jsx:175-177 | with a single match, exactly that entry is removed |
| CartContext.GuestIdMatchesByIdOnly | frontend/src/context/CartContext.jsx:175-177 | an id starting with a non-digit never matches an index |
| CartContext.RemoveByIndex | frontend/src/context/CartContext.jsx:172-191 | removing by the index string, when no `_id` collides with it, drops exactly that entry |
| CartContext.RemoveByGuestId | frontend/src/context/CartContext.jsx:172-191 | removing by a unique guest id drops exactly that entry |
| CartContext.RemoveAbsent | frontend/src/context/CartContext.jsx:172-191 | removing an id nothing matches leaves the cart unchanged |
| CartContext.HydrateKeepsShape | frontend/src/context/CartContext.jsx:46-67 | hydration keeps the number, order, ids, quantities, sizes and colours of entries |
| CartContext.GainedNameNeedsFetch | frontend/src/context/CartContext.jsx:46-67 | a write-back happens only when some entry lacking a name got a fetched product |
| CartContext.ClearedIsZero | frontend/src/context/CartContext.jsx:194-225 | a cleared or absent cart has count 0 and total 0 |
| CartContext.CartProvider.SetAuthenticated | frontend/src/context/CartContext.jsx:36-45 | changing the sign-in state copies neither cart into the other |
| CartContext.CartProvider.Load | frontend/src/context/CartContext.jsx:36-85 | signed in, the view is the server's cart; as a guest, the hydrated saved cart, written back only when a name was gained |
| CartContext.CartProvider.AddToCart | frontend/src/context/CartContext.jsx:88-145 | signed in, the view is the reply; as a guest, an unresolvable product changes nothing, and otherwise merge-or-append is saved and shown |
| CartContext.CartProvider.UpdateCartItem | frontend/src/context/CartContext.jsx:148-169 | signed in, the reply; as a guest, the clamped update is saved, or nothing changes when no entry matches |
| CartContext.CartProvider.RemoveFromCart | frontend/src/context/CartContext.jsx:172-191 | signed in, the reply; as a guest, the filtered cart is always saved and shown |
| CartContext.CartProvider.ClearCart | frontend/src/context/CartContext.jsx:194-207 | a guest cart is emptied and saved; signed in, the view empties only on success |
| Pricing.Shipping | frontend/src/pages/CartPage.jsx:49-52 | shipping is 0 exactly above 1000, and otherwise the flat 50 |
| Pricing.Summarize | frontend/src/pages/CheckoutPage.jsx:24-27 | shipping is 0 exactly above 1000 and 50 otherwise, tax is 18% of the subtotal, and total = subtotal + shipping + tax |
| Pricing.TotalBounds | backend/routes/orderRoutes.js:40-46 | the total is 118% of the subtotal, plus 50 at or below the threshold |
| Pricing.NotMonotoneAtThreshold | backend/routes/orderRoutes.js:40-46 | a 1001 cart costs less in total than a 1000 cart |
| Pricing.MonotoneOnEachSide | backend/routes/orderRoutes.js:40-46 | on either side of the threshold, a larger subtotal never costs less |
| CartPage.ValidItems | frontend/src/pages/CartPage.jsx:45-47 | the listed entries are exactly the displayable entries of the cart: each listed one is a cart entry and displayable, and every displayable entry is listed |
| CartPage.PageSummary | frontend/src/pages/CartPage.jsx:49-52 | the subtotal is `getCartTotal()`; shipping is 0 above 1000 and 50 otherwise; tax is 18% of the subtotal; the total is their sum |
| CartPage.ShowEmptyIff | frontend/src/pages/CartPage.jsx:54 | the empty view appears exactly when no entry is displayable |
| CartPage.HiddenEntriesCostNothing | frontend/src/pages/CartPage.jsx:49-52 | when every hidden entry lacks a full product, the total equals the total of the listed entries |
| CartPage.HiddenEntryCanCost | frontend/src/pages/CartPage.jsx:45-52 | an unnamed product with a price is hidden from the list but still priced |
| CartPage.DecrementRequest | frontend/src/pages/CartPage.jsx:103 | the requested quantity is at least 1, and one less for 2 or more |
| CartPage.IncrementRequest | frontend/src/pages/CartPage.jsx:110 | one more, with 0 read as 1 |
| CartPage.StepperRoundTrip | frontend/src/pages/CartPage.jsx:103-110 | minus undoes plus, and plus undoes minus from 2 up |
| CartPage.MoveToWishlist | frontend/src/pages/CartPage.jsx:22-30 | refused without a product id; otherwise it adds the product and removes that cart entry |
| CartPage.Checkout | frontend/src/pages/CartPage.jsx:13-20 | a guest goes to /login remembering /checkout; a signed-in user goes to /checkout |
| OrderRoutes.PaymentStatus | backend/routes/orderRoutes.js:69-72 | the status is Pending exactly for COD, else Completed |
| OrderRoutes.BuildOrder | backend/routes/orderRoutes.js:40-73 | every field of the new order: orderItems are the projected cart lines; itemsPrice is their price-times-quantity sum; shipping is 0 above 1000 and 50 otherwise; tax is 18%; the total is the sum; the payment status follows the method; the status starts Pending, undelivered |
| OrderRoutes.OrderItemsCopyLines | backend/routes/orderRoutes.js:49-57 | one order item per cart line, in order, copying quantity, size, colour and the product's name, price and first image |
| OrderRoutes.ItemsPriceMatchesOrderItems | backend/routes/orderRoutes.js:40-57 | itemsPrice is the sum of price times quantity over the order items |
| OrderRoutes.BrowserSubtotalMatchesOrder | backend/routes/orderRoutes.js:40-46 | with no zero quantities, the browser's subtotal equals the server's itemsPrice |
| OrderRoutes.ZeroQuantityDisagrees | backend/routes/orderRoutes.js:40-46 | a line of quantity 0 is priced once by the browser and not at all by the server |
| OrderRoutes.ViewOrder | backend/routes/orderRoutes.js:122-163 | 404 for an unknown id; the order is shown iff the requester owns it or is an admin; otherwise 403 |
| OrderRoutes.OrderBook.PlaceOrder | backend/routes/orderRoutes.js:20-77 | 400 on a missing address or method; 400 on an empty cart; else the order is appended and the cart cleared |
| CheckoutPage.CheckoutSummary | frontend/src/pages/CheckoutPage.jsx:24-27 | the checkout shows the same subtotal, shipping, tax and total as the cart page for the same cart |
| CheckoutPage.MethodName | frontend/src/pages/CheckoutPage.jsx:163-182 | the radio values, with COD told apart from card |
| CheckoutPage.Submit | frontend/src/pages/CheckoutPage.jsx:33-53 | a guest goes to /login; an empty cart is refused; otherwise the form and method are posted |
| CheckoutPage.AfterReply | frontend/src/pages/CheckoutPage.jsx:55-59 | an order id sends the user to its page; otherwise the page stays |
| CheckoutPage.PostPassesServerGuard | frontend/src/pages/CheckoutPage.jsx:33-53 | what the page posts always passes the server's first guard |
| AdminRoutes.ComputeStats | backend/routes/adminRoutes.js:16-52 | users count only role user, products only active ones, and the revenue is 0 with no orders |
| AdminRoutes.StatsCountExactly | backend/routes/adminRoutes.js:18-19 | the counts are exact: 0 for no documents, and one more account or product adds 1 exactly when it has role user or is active |
| AdminRoutes.RevenueGrowsByOrderTotal | backend/routes/adminRoutes.js:21-28 | an extra order raises the revenue by exactly its total |
| AdminRoutes.RevenueCoversEachOrder | backend/routes/adminRoutes.js:21-28 | with non-negative totals, the revenue is at least any single order's total |
| AdminRoutes.WithStatus | backend/routes/adminRoutes.js:122-126 | the status is stored; Delivered also sets isDelivered and deliveredAt; no other field changes |
| AdminRoutes.UpdateOrderStatus | backend/routes/adminRoutes.js:101-142 | 400 for an unlisted status; 404 for an unknown order; else the status is applied |
| AdminRoutes.AnyTransitionAllowed | backend/routes/adminRoutes.js:105-126 | any listed status may follow any other; Delivered stays recorded |
| WishlistRoutes.Without | backend/routes/wishlistRoutes.js:113-115 | the id is gone and every other id is kept |
| WishlistRoutes.WithoutAbsent | backend/routes/wishlistRoutes.js:113-115 | removing an unlisted id changes nothing |
| WishlistRoutes.WithoutIdempotent | backend/routes/wishlistRoutes.js:113-115 | removing twice equals removing once |
| WishlistRoutes.WithoutDropsOne | backend/routes/wishlistRoutes.js:113-115 | without duplicates, exactly that entry goes |
| WishlistRoutes.WithoutKeepsDistinct | backend/routes/wishlistRoutes.js:113-115 | removal never creates a duplicate |
| WishlistRoutes.WishlistStore.Get | backend/routes/wishlistRoutes.js:14-36 | a missing wishlist is created empty |
| WishlistRoutes.WishlistStore.Add | backend/routes/wishlistRoutes.js:41-96 | 400 without a product id; 404 for an unknown product; 400 for a duplicate; else appended; no duplicates ever |
| WishlistRoutes.WishlistStore.Remove | backend/routes/wishlistRoutes.js:101-132 | 404 without a wishlist; otherwise the filter |
| WishlistContext.WishlistCount | frontend/src/context/WishlistContext.jsx:162-167 | 0 without items; counts the entries with an id; equals the length iff all have one |
| WishlistContext.WishlistCountSnoc | frontend/src/context/WishlistContext.jsx:162-167 | the count is exact: 0 for an empty list, and one more entry adds 1 exactly when its product has an `_id` |
| WishlistContext.GuestAddShape | frontend/src/context/WishlistContext.jsx:88-120 | accepted exactly when the product is not listed and resolves; then one entry is appended with the fresh id and time |
| WishlistContext.AddThenIsIn | frontend/src/context/WishlistContext.jsx:112-120 | after an add, the product is in the wishlist |
| WishlistContext.AddKeepsIdsDistinct | frontend/src/context/WishlistContext.jsx:94-120 | guest adds never create two entries for one product |
| WishlistContext.RemoveThenNotIn | frontend/src/context/WishlistContext.jsx:135-154 | after removal the product is absent, others stay, and removing again changes nothing |
| WishlistContext.ToggleRequest | frontend/src/pages/ProductDetailPage.jsx:77-84 | the toggle removes exactly when the product is in the wishlist |
| WishlistContext.ToggleFlips | frontend/src/components/ProductCard.jsx:13-28 | for a resolvable product, a toggle flips membership |
| WishlistContext.HydrateKeepsShape | frontend/src/context/WishlistContext.jsx:46-71 | hydration keeps the number, order and product ids of entries |
| WishlistContext.WishlistProvider.Load | frontend/src/context/WishlistContext.jsx:36-85 | signed in, the reply; as a guest, the hydrated saved list |
| WishlistContext.WishlistProvider.AddToWishlist | frontend/src/context/WishlistContext.jsx:88-132 | signed in, the reply; as a guest, the checked append, saved |
| WishlistContext.WishlistProvider.RemoveFromWishlist | frontend/src/context/WishlistContext.jsx:135-154 | signed in, the reply; as a guest, the filter, saved |
| WishlistPage.ValidItems | frontend/src/pages/WishlistPage.jsx:38-40 | exactly the displayable entries are listed: each listed one is a wishlist entry and displayable, and every displayable entry is listed |
| WishlistPage.ShowEmptyIff | frontend/src/pages/WishlistPage.jsx:42 | the empty view appears exactly when nothing is displayable |
| WishlistPage.DefaultSize | frontend/src/pages/WishlistPage.jsx:17 | the first listed size, or M; never empty |
| WishlistPage.DefaultColor | frontend/src/pages/WishlistPage.jsx:18 | the first colour, or the fallback colour |
| WishlistPage.MoveToCart | frontend/src/pages/WishlistPage.jsx:11-23 | refused without a product id; otherwise one unit with the defaults |
| WishlistPage.MoveAddsOneUnit | frontend/src/pages/WishlistPage.jsx:21 | moving raises the guest cart count by exactly 1 |
| WishlistPage.RemoveRequest | frontend/src/pages/WishlistPage.jsx:76 | the remove button sends the product's own non-empty id |
| ProductModel.NewProduct | backend/models/Product.js:3-106 | the defaults: stock 0, not featured, active, no reviews, rating 0 |
| ProductModel.NewProductValid | backend/models/Product.js:3-106 | a new document with valid inputs passes the schema |
| ProductModel.Round | backend/models/Product.js:109-114 | the nearest integer, with halves rounded up |
| ProductModel.DiscountPercentage | backend/models/Product.js:109-114 | 0 unless the original price exceeds the price; else the rounded saving percentage, in 0..100 |
| ProductRoutes.Window | backend/routes/productRoutes.js:29-34 | the skip/limit window: its length, and element i is match skip+i |
| ProductRoutes.Paginate | backend/routes/productRoutes.js:13-34 | page and limit default to 1 and 100; a negative skip is an error; otherwise total, count and elements of the page |
| ProductRoutes.ListProducts | backend/routes/productRoutes.js:11-49 | every listed product is active and matches the filters; total counts all matches |
| ProductRoutes.EveryMatchOnItsPage | backend/routes/productRoutes.js:27-34 | match k appears as entry k mod limit of page k div limit + 1 |
| ProductRoutes.ListByCategory | backend/routes/productRoutes.js:87-120 | only active products of the capitalised category |
| ProductRoutes.CategoryRouteIsListing | backend/routes/productRoutes.js:87-120 | the category route is the listing filtered by the capitalised name |
| ProductRoutes.FindById | backend/routes/productRoutes.js:54-82 | found iff the id exists, inactive ones included; else 404 |
| ProductRoutes.IndexOfId | backend/routes/productRoutes.js:54-63 | the position of the document with that id, None iff none has it |
| ProductRoutes.Matching | backend/routes/productRoutes.js:14-29 | the selected documents are listed ones from the catalogue, and every listed one is selected |
| ProductRoutes.Deactivated | backend/routes/productRoutes.js:270-271 | only isActive of that product changes |
| ProductRoutes.SoftDeletedNeverListed | backend/routes/productRoutes.js:258-284 | a deleted product is never listed but is still found by id |
| ProductRoutes.NewImages | backend/routes/productRoutes.js:209-219 | uploads replace, or extend the kept list; without uploads the kept list, or the current images |
| ProductRoutes.ApplyChangesOnlyGiven | backend/routes/productRoutes.js:222-237 | an update with no fields and no uploads changes nothing |
| ProductRoutes.ApplyIdempotent | backend/routes/productRoutes.js:183-253 | applying the same update twice gives the same document as once |
| ProductRoutes.Created | backend/routes/productRoutes.js:125-178 | the create succeeds exactly when every number is given and the schema accepts the document (a trimmed name, description, brand, non-negative price and stock, a listed category, no empty image URL, named colours, listed sizes); the stored document carries each submitted field; any failure is 500 with the validation message |
| ProductRoutes.Catalog.Create | backend/routes/productRoutes.js:125-178 | the created product goes first; the catalog stays valid given a fresh id |
| ProductRoutes.Catalog.Update | backend/routes/productRoutes.js:183-253 | 404 for an unknown id; a document failing the schema is not saved |
| ProductRoutes.Catalog.Delete | backend/routes/productRoutes.js:258-284 | 404 for an unknown id; otherwise the soft delete |
| ReviewRoutes.MeanTimesCount | backend/routes/reviewRoutes.js:64-67 | rating times review count equals the sum of ratings |
| ReviewRoutes.MeanBounds | backend/routes/reviewRoutes.js:64-67 | ratings in 1..5 give a mean in 1..5, and 0 with no reviews |
| ReviewRoutes.MeanAfterAppend | backend/routes/reviewRoutes.js:53-67 | the new sum is the old one plus the new rating |
| ReviewRoutes.MeanAfterRemove | backend/routes/reviewRoutes.js:158-166 | the new sum is the old one minus the removed rating |
| ReviewRoutes.WithReview | backend/routes/reviewRoutes.js:53-67 | the review is appended, count and rating are consistent, and nothing else changes |
| ReviewRoutes.WithoutReview | backend/routes/reviewRoutes.js:158-166 | exactly that review goes, the rating is recomputed, and 0 when none remain |
| ReviewRoutes.WithReviewKeepsInvariants | backend/routes/reviewRoutes.js:41-69 | a first review by a user keeps one review per user, unique ids and schema validity |
| ReviewRoutes.WithoutReviewKeepsInvariants | backend/routes/reviewRoutes.js:149-166 | removing a review keeps the invariants |
| ReviewRoutes.GetReviews | backend/routes/reviewRoutes.js:94-130 | 404 for an unknown product; else its rating, count and reviews |
| ReviewRoutes.AddReview | backend/routes/reviewRoutes.js:10-89 | each guard, in source order, with no change on refusal; else the review is added and the invariants are kept |
| ReviewRoutes.DeleteReview | backend/routes/reviewRoutes.js:135-188 | 404 for an unknown product or review; else the review is removed and the rating recomputed |
| ReviewRoutes.SecondReviewRefused | backend/routes/reviewRoutes.js:41-50 | after a user's review, the duplicate guard refuses that user |
| ReviewForm.Submit | frontend/src/components/ReviewForm.jsx:16-39 | login, then rating, then a non-blank comment; the comment is sent trimmed |
| ReviewForm.SentPassesServerGuards | frontend/src/components/ReviewForm.jsx:16-39 | what the form sends passes the server's input guards, and the server's trim changes nothing |
| ReviewForm.ErrorMessage | frontend/src/components/ReviewForm.jsx:53-60 | the message chosen for each status, never empty |
| ReviewForm.FormState.Choose | frontend/src/components/ReviewForm.jsx:94 | a star sets the rating within 1..5 |
| ReviewForm.FormState.Type | frontend/src/components/ReviewForm.jsx:7-10 | typing sets only the comment |
| ReviewForm.FormState.Start | frontend/src/components/ReviewForm.jsx:13-33 | the guards run on the current rating and comment; a sent request marks the form as submitting; rating and comment stay |
| ReviewForm.FormState.Finish | frontend/src/components/ReviewForm.jsx:43-63 | success resets the form; either way submitting ends |
| ReviewForm.DisabledMatchesGuards | frontend/src/components/ReviewForm.jsx:142 | when idle, the button is disabled exactly when submitting would not send |
| ProductDetail.InitialColor | frontend/src/pages/ProductDetailPage.jsx:34-36 | the product's first colour; a product without colours keeps the previous selection (none on the first mount) |
| ProductDetail.StaleColorIsSent | frontend/src/pages/ProductDetailPage.jsx:34-36 | after a product with colours, one without keeps that colour, and "Add to Cart" sends it with the new product |
| ProductDetail.Related | frontend/src/pages/ProductDetailPage.jsx:39-44 | the listed products other than this one |
| ProductDetail.RelatedFromCategory | frontend/src/pages/ProductDetailPage.jsx:39-44 | at most four, none of them this product, all active and of its category |
| ProductDetail.AddToCart | frontend/src/pages/ProductDetailPage.jsx:54-65 | a size first, then a colour; then the add with the full product |
| ProductDetail.BuyNow | frontend/src/pages/ProductDetailPage.jsx:67-75 | both needed at once; then the add and go to the cart |
| ProductDetail.BuyNowIsAddThenCart | frontend/src/pages/ProductDetailPage.jsx:54-75 | both buttons refuse in the same states and send the same add |
| ProductDetail.Decrement | frontend/src/pages/ProductDetailPage.jsx:230 | at least 1, one less from 2 |
| ProductDetail.Increment | frontend/src/pages/ProductDetailPage.jsx:237 | one more, capped at the stock, as written |
| ProductDetail.IncrementOutOfStock | frontend/src/pages/ProductDetailPage.jsx:237 | with stock 0, plus turns 1 into 0, and the add sends quantity 0 |
| ProductDetail.IncrementWithinStock | frontend/src/pages/ProductDetailPage.jsx:237 | the intended increment: never below 1, one more below the stock |
| ProductDetail.StepperStaysInRange | frontend/src/pages/ProductDetailPage.jsx:230-237 | with the intended increment, the quantity stays within 1..stock |
| ProductDetail.WishlistButton | frontend/src/pages/ProductDetailPage.jsx:77-84 | the heart removes exactly when the product is listed |
| ProductDetail.WishlistButtonFlips | frontend/src/pages/ProductDetailPage.jsx:77-84 | pressing as a guest flips membership |
| ProductCard.Card | frontend/src/components/ProductCard.jsx:9-73 | no card without an id; the badge exactly for a positive discount; the strike-through exactly when the original price is above the price |
| ProductCard.BadgeImpliesStrike | frontend/src/components/ProductCard.jsx:46-73 | a badge always comes with a struck-through price |
| ProductCard.StrikeWithoutBadge | frontend/src/components/ProductCard.jsx:30-73 | a 0.1% saving is struck through with no badge |
| ProductCard.WishlistButton | frontend/src/components/ProductCard.jsx:13-28 | refused without an id; else removes exactly when listed |
| ProductCard.WishlistButtonFlips | frontend/src/components/ProductCard.jsx:13-28 | pressing as a guest flips membership when the product resolves |
| CategoryPage.CategoryPath | frontend/src/pages/CategoryPage.jsx:8 | the path after its first character, in lower case |
| CategoryPage.Category | frontend/src/pages/CategoryPage.jsx:9 | the first letter upper case and the rest lower case |
| CategoryPage.MenPath | frontend/src/pages/CategoryPage.jsx:8-9 | /men names Men |
| CategoryPage.WomenPath | frontend/src/pages/CategoryPage.jsx:8-9 | /WOMEN names Women |
| CategoryPage.KidsPath | frontend/src/pages/CategoryPage.jsx:8-9 | /Kids names Kids |
| CategoryPage.ServerCapitalizeIsIdentity | backend/routes/productRoutes.js:95 | the server's capitalisation of the page's category changes nothing |
| CategoryPage.CategoryIgnoresCase | frontend/src/pages/CategoryPage.jsx:8-9 | two paths name the same category iff they agree up to case |
| CategoryPage.RequestPath | frontend/src/pages/CategoryPage.jsx:20 | the category request path |
| CategoryPage.PageListsCategory | frontend/src/pages/CategoryPage.jsx:20 | the page lists what the general listing filtered by that category lists |
| ContactRoutes.Received | backend/routes/contactRoutes.js:10-37 | 400 iff a field is missing; then 400 iff the email fails the pattern; 500 for blank text; else the stored fields |
| ContactRoutes.StoredIsNormal | backend/routes/contactRoutes.js:32-37 | a stored message is trimmed, with its required fields non-empty, a valid lower-case email and status new |
| ContactRoutes.LowerKeepsEmail | backend/routes/contactRoutes.js:34 | lowercasing keeps an address valid |
| ContactRoutes.StoredEmail | backend/routes/contactRoutes.js:23-34 | a valid email has nothing to trim, and is stored lower cased and valid |
| ContactRoutes.NormalIsAccepted | backend/routes/contactRoutes.js:15-37 | a new message in normal form is accepted unchanged |
| ContactRoutes.ResubmitIsStable | backend/routes/contactRoutes.js:32-37 | resubmitting a stored message stores the same message |
| ContactRoutes.ContactInbox.Submit | backend/routes/contactRoutes.js:10-48 | only accepted messages are stored, newest first; the inbox stays valid |
| ContactRoutes.ContactInbox.List | backend/routes/contactRoutes.js:61-71 | the hundred newest messages |
| ContactRoutes.ContactInbox.UpdateStatus | backend/routes/contactRoutes.js:84-105 | 404 for an unknown id; an empty status changes nothing; an invalid one is refused; else stored |
| ContactRoutes.StatusUpdateKeepsOthers | backend/models/ContactMessage.js:25-29 | a valid status keeps the message normal and touches no other field |
| Text.EmailPatternIff | backend/routes/contactRoutes.js:23-24 | the decision procedure agrees with the regular expression `^[^\s@]+@[^\s@]+\.[^\s@]+$` |
| Text.TrimIdempotent | backend/routes/contactRoutes.js:33-36 | trimming twice equals trimming once |
| Text.Trim | backend/routes/contactRoutes.js:33-36 | no leading or trailing space remains, it is never longer, and it is empty exactly for blank input |
| Text.TrimIsSlice | backend/routes/contactRoutes.js:33-36 | the result is a slice of the input with only whitespace before and after it |
| Text.ToLower | backend/routes/contactRoutes.js:34 | the length is kept, and each letter is lower cased |
| Text.Capitalize | backend/routes/productRoutes.js:95 | only the first character changes, to upper case; the length is kept |
| Text.CapitalizeIdempotent | backend/routes/productRoutes.js:95 | capitalising twice equals capitalising once |
| Shapes.Resolve | frontend/src/context/CartContext.jsx:94-104 | the product already present, else the fetched one; none iff neither exists |
| AdminDashboard.SizeToggle | frontend/src/pages/AdminDashboard.jsx:108-115 | a listed size is removed and an unlisted one appended; other sizes are unaffected |
| AdminDashboard.SizeToggleKeepsDistinct | frontend/src/pages/AdminDashboard.jsx:108-115 | the toggle keeps the sizes duplicate-free |
| AdminDashboard.SizeToggleTwice | frontend/src/pages/AdminDashboard.jsx:108-115 | toggling twice restores the same set, and the same list for an unlisted size |
| AdminDashboard.ColorAdd | frontend/src/pages/AdminDashboard.jsx:97-106 | a colour is added only when both answers are non-empty |
| AdminDashboard.ColorAddKeepsNamed | frontend/src/pages/AdminDashboard.jsx:97-106 | every collected colour has a name and a code |
| AdminDashboard.ColorRemove | frontend/src/pages/AdminDashboard.jsx:435-439 | every colour but the one at idx, in order |
| AdminDashboard.ColorRemoveDropsOne | frontend/src/pages/AdminDashboard.jsx:435-439 | exactly one copy of the chosen colour goes |
| AdminDashboard.ColorRemoveUndoesAdd | frontend/src/pages/AdminDashboard.jsx:97-106 | removing the colour just added restores the list |
| AdminDashboard.ImagePayload | frontend/src/pages/AdminDashboard.jsx:140-148 | the kept list is sent only when editing with no new files and a non-empty list; files always |
| AdminDashboard.EditImages | frontend/src/pages/AdminDashboard.jsx:140-148 | on an edit, new files replace all images; otherwise the form's list, or the stored one when it is empty |
| AdminDashboard.NewMessageCount | frontend/src/pages/AdminDashboard.jsx:257-259 | the number of messages with status new, 0 iff none is new |
| AdminDashboard.NewMessageCountSnoc | frontend/src/pages/AdminDashboard.jsx:257-259 | the count is exact: one more message adds 1 exactly when it is new |
| AdminDashboard.Badge | frontend/src/pages/AdminDashboard.jsx:257-261 | shown, with the count, exactly when some message is new |
| AdminDashboard.StatusButtons | frontend/src/pages/AdminDashboard.jsx:654-669 | Mark as Read while new, Mark as Replied until replied; only valid statuses |
| AdminDashboard.StatusButtonsMoveForward | frontend/src/pages/AdminDashboard.jsx:654-669 | the buttons only move a message forward; a replied one has none |
| RegisterPage.NameError | frontend/src/pages/RegisterPage.jsx:30-32 | a message exactly for a blank name, and it is "Name is required" |
| RegisterPage.EmailError | frontend/src/pages/RegisterPage.jsx:34-38 | no message exactly for a non-blank email matching the pattern; else the blank or the format message |
| RegisterPage.PasswordError | frontend/src/pages/RegisterPage.jsx:40-44 | no message exactly for at least six characters; else the missing or the too-short message |
| RegisterPage.ConfirmError | frontend/src/pages/RegisterPage.jsx:46-50 | no message exactly for a given confirmation equal to the password; else the missing or the mismatch message |
| RegisterPage.NoErrorsIff | frontend/src/pages/RegisterPage.jsx:27-53 | no field's check fails exactly when every rule holds |
| RegisterPage.ErrorsOfEntries | frontend/src/pages/RegisterPage.jsx:28-50 | the filled dictionary holds each field's message under its key, and nothing under a field that passed |
| RegisterPage.ErrorsOfSize | frontend/src/pages/RegisterPage.jsx:28-53 | at most four messages, and none exactly when every rule holds |
| RegisterPage.ValidateForm | frontend/src/pages/RegisterPage.jsx:27-54 | the dictionary filled field by field, with each field's message; at most four; valid iff it is empty iff every rule holds |
| RegisterPage.Payload | frontend/src/pages/RegisterPage.jsx:66 | the form's fields other than the confirmation |
| RegisterPage.HandleSubmit | frontend/src/pages/RegisterPage.jsx:56-67 | no call for an invalid form; the call carries a confirmed password of at least 6 and a valid email |
| RegisterPage.PayloadOmitsConfirmation | frontend/src/pages/RegisterPage.jsx:66 | the confirmation never reaches the server |
| ProtectedRoute.Guard | frontend/src/components/ProtectedRoute.jsx:4-30 | spinner while loading; /login with the path without token and user; home for a non-admin on an admin route; else the page |
| ProtectedRoute.LoginBeforeAdmin | frontend/src/components/ProtectedRoute.jsx:18-27 | authentication is checked before the admin flag |
| ProtectedRoute.AdminSeesMore | frontend/src/components/ProtectedRoute.jsx:25-29 | an admin sees every page a user sees |
| ImageSlider.Previous | frontend/src/components/ImageSlider.jsx:16-18 | 0 wraps to n-1, else one back; always in range |
| ImageSlider.Next | frontend/src/components/ImageSlider.jsx:20-22 | n-1 wraps to 0, else one on; always in range |
| ImageSlider.PreviousNextInverse | frontend/src/components/ImageSlider.jsx:16-22 | each arrow undoes the other |
| ImageSlider.NextTimesAdd | frontend/src/components/ImageSlider.jsx:20-22 | a+b presses are a presses followed by b presses |
| ImageSlider.NextRoundTrip | frontend/src/components/ImageSlider.jsx:20-22 | n presses of next return to the start |
| ImageSlider.Shown | frontend/src/components/ImageSlider.jsx:8-14 | the placeholder exactly with no images; else the current image, with arrows iff more than one |
| ImageSlider.Step | frontend/src/components/ImageSlider.jsx:16-56 | every input keeps both indices in range; keys act only while the full view is open; Escape closes it |
| ImageSlider.Run | frontend/src/components/ImageSlider.jsx:16-56 | any input sequence keeps both indices in range |
| ImageSlider.ArrowsAreIndependent | frontend/src/components/ImageSlider.jsx:16-43 | each arrow pair moves only its own index, and each pair undoes itself |
| LandingPage.Countdown.constructor | frontend/src/pages/LandingPage.jsx:5-10 | 5 days, 12 hours, 30 minutes, within the clock ranges |
| LandingPage.Countdown.Tick | frontend/src/pages/LandingPage.jsx:16-34 | the borrow chain; zero is a fixed point; ranges are kept; the total drops by exactly 1 |
| LandingPage.FinishedIffZero | frontend/src/pages/LandingPage.jsx:16-34 | a valid clock has total 0 exactly at all-zero |

Some functions have no contract of their own: they are the specification that the lemmas and methods in the table state properties of.
- CartRoutes.AddLine: through CartRoutes.AddMergesExisting, AddAppendsNew, AddKeepsUnique, MergeScenario and CartStore.Add.
- CartRoutes.Pull: through CartRoutes.PullRemovesOnlyThatLine, PullAbsent, PullIdempotent, PullKeepsUnique and CartStore.Remove.
- CartRoutes.UpdateLine: through CartRoutes.UpdateSetsQuantity, UpdateRemovesLine, UpdateKeepsUnique and CartStore.Update.
- CartContext.GuestAdd: through CartContext.GuestAddMerges, GuestAddAppends and GuestAddCount.
- CartContext.GuestRemove: through CartContext.DropFromIsKept, GuestRemoveKeepsOthers, DropNone, DropExactlyOne, RemoveByIndex, RemoveByGuestId and RemoveAbsent.
- CartContext.GuestUpdate: through CartContext.GuestUpdateClamps.
- CartContext.Hydrate: through CartContext.HydrateKeepsShape and GainedNameNeedsFetch.
- OrderRoutes.ProjectItems: through OrderRoutes.OrderItemsCopyLines and BuildOrder.
- OrderRoutes.ItemsPrice: through OrderRoutes.ItemsPriceMatchesOrderItems, BrowserSubtotalMatchesOrder and BuildOrder.
- ReviewRoutes.Mean: through ReviewRoutes.MeanTimesCount, MeanBounds, MeanAfterAppend and MeanAfterRemove.
- WishlistContext.GuestAdd: through WishlistContext.GuestAddShape, AddThenIsIn and AddKeepsIdsDistinct.
- WishlistContext.GuestRemove: through WishlistContext.RemoveThenNotIn.
- WishlistContext.Toggle: through WishlistContext.ToggleFlips.
- ProductRoutes.Apply: through ProductRoutes.ApplyChangesOnlyGiven, ApplyIdempotent and Catalog.Update.
- AdminRoutes.TotalRevenue: through AdminRoutes.RevenueGrowsByOrderTotal and RevenueCoversEachOrder.

## Left out

- HTTP and persistence: routing, middleware, `save`/`populate` transport, and JSON response bodies beyond a status tag and a message. Stores are in-memory sequences and maps.
- Authentication: the `protect` and `admin` middleware, AuthContext, and User. These are not part of this model. The requester's id and role are parameters.
- Order.js and Cart.js: these are not part of this model. Their documents are the fields the routes read and write.
- Number parsing: `parseInt`, `Number` casts and `JSON.parse` on form fields are taken as already decoded. A numeric field absent on create is a validation failure (500), as NaN is.
- Floating point: prices, tax and review means are exact reals, so IEEE rounding is not modelled. Neither are `toFixed` and `toLocaleString`.
- Unicode: trim, case mapping and the regex class `\s` are restricted to ASCII.
- Ids: a malformed ObjectId makes Mongoose throw a CastError. Some handlers catch it and answer 404: `GET /api/products/:id` (backend/routes/productRoutes.js:71-76), `GET /api/orders/:id` (backend/routes/orderRoutes.js:152-157) and the three review routes (backend/routes/reviewRoutes.js:78-83, 119-124, 177-182). Every other handler answers it with 500, among them the product update and delete, the cart and wishlist routes, the admin status update and the contact status update. Ids here are plain strings that are found or not, so the model answers "not found" for a malformed id too.
- Environment values: ids, timestamps, upload URLs and server replies are supplied by the caller.
- Concurrency: timers (the countdown's `setInterval`, toasts), races between requests, and re-renders. One countdown tick is modelled.
- ProductDetail.AddToCart and ProductDetail.BuyNow: the selected size and the quantity are parameters, because the page keeps them when a related card opens another product in the same mounted page. The model does not track them from one product to the next; InitialColor does track the colour.
- The populate of `reviews.user` in GET reviews: a review's user stays an id.
- `GET /api/orders` (the user's list), the admin order list and `recentOrders`: these are queries with no logic beyond sorting.
- Messages: the 500 messages of schema failures keep only their fixed prefix ("... validation failed"), not Mongoose's per-field suffix.
- ProductCard.Card: requires a non-negative price, which the schema guarantees for stored products; the source does not check it.
- ProductModel.DiscountPercentage: requires a non-negative price, for the same reason.
- ProductRoutes.Apply: a text field is applied when it is a non-empty string. A JSON `0` or `false` sent for a text field is not distinguished.
- Product listing order: products are kept newest first and the listing keeps that order, rather than sorting by `createdAt`.
- `review.remove()` removes that subdocument; the model does not follow version differences in Mongoose.
- Code and description disagree on the server cart: `POST /api/cart` lets a negative quantity through its `!quantity` guard (backend/routes/cartRoutes.js:46-51). The model follows the code.

## Findings

| source | as written | input that shows it | evidently intended | confidence | as-written member | corrected member |
|---|---|---|---|---|---|---|
| frontend/src/pages/ProductDetailPage.jsx:237 | `Math.min(product.stock, quantity + 1)` | stock 0 and quantity 1: "+" sets the quantity to 0, which "Add to Cart" then sends | the quantity never drops below 1 | not executed | ProductDetail.IncrementOutOfStock | ProductDetail.StepperStaysInRange |
