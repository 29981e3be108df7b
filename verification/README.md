# Cartify storefront core, modelled in Dafny

Cartify is a single-page storefront built on a third-party e-commerce
backend. This project models its client-side logic as pure Dafny
functions and proves properties about them. The modelled logic covers:

- the optimistic cart mutations (quantity change, removal) with their
  rollback and invalidation rules;
- the effective-price arithmetic shared by the cart, the drawer and
  checkout;
- the cart query's back-fill of missing discounted prices from the
  request cache;
- the infinite product list: next-page decision, id normalisation,
  de-duplication and search;
- checkout: address validation, order construction, local order ledger;
- the order history merge (local and server orders, newest first);
- the product card and product details pricing, stepper and buttons;
- the session store, the theme store and the URL-parameter state hook;
- the sign-in and registration forms.

Files, one module each: `wrappers.dfy` (optional values, loosely typed
JSON fields), `seq_util.dfy` (subsequences, sums), `text.dfy` (trim,
whitespace, lower-case, substring search), `types.dfy` (the backend's
records), `cart_totals.dfy`, `cart_mutations.dfy`, `cart_page.dfy`,
`cart_query.dfy`, `catalog.dfy`, `storage.dfy`, `order_ledger.dfy`,
`order_history.dfy`, `checkout.dfy`, `product_view.dfy`,
`auth_store.dfy`, `theme_store.dfy`, `search_params.dfy`,
`auth_forms.dfy`.

Modelling conventions:

- `null` and `undefined` are both `None`. `a ?? b` is `GetOr`.
- A field the code probes with `typeof` is a `Scalar`: a number, a
  string, or anything else.
- `Number(s)` followed by `Number.isFinite` is a parameter
  `parse: string -> Option<int>`, so no property depends on how strings
  are converted to numbers.
- Prices and counts are unbounded integers.
- The request cache is a value: the direct `["product", id]` entries, and
  the `["products", …]` entries in cache order. Invalidation is an event
  recorded as a boolean.
- Local storage is a record with one slot per key, holding decoded
  values. A slot is empty, holds a value, or holds text that does not
  decode.
- Generated order ids, the current time and the system colour-scheme
  preference are parameters.

In these places the model follows the code as written:

- A cart line's effective price is `product.priceAfterDiscount ?? price`
  with no check that it is below the list price. Only the product card
  applies the "positive and below the list price" rule.
- The cart query's price lookup takes the first product in each cached
  list whose id matches. If that product has no usable price, the lookup
  moves on to the next list, not to a later product in the same list.
- Back-fill changes `priceAfterDiscount` on lines but leaves the
  server's `totalCartPrice` as received. The cart views compute their
  own total from the lines, so the shown total moves and the stored one
  does not.

## Model

| member | source | states |
|---|---|---|
| Text.Lower | src/pages/Products.tsx:159-162 | lower-casing keeps the length and maps each character on its own |
| Text.IncludesIff | src/pages/Products.tsx:163 | the substring test holds exactly when the query occurs at some position |
| Text.TrimEmptyIffBlank | src/pages/Checkout.tsx:36-37 | a trimmed value is empty exactly when the value is all whitespace |
| Text.StripSpacesTrim | src/pages/Checkout.tsx:36-43 | removing all whitespace after trimming gives the same digits as removing it from the raw value |
| Text.StripSpacesMembers | src/pages/Checkout.tsx:43 | removing whitespace keeps exactly the characters that are not whitespace |
| CartMutations.SetCount | src/pages/Cart.tsx:22-29 | every line of the product gets the new count, every other line is unchanged, and the length is kept |
| CartMutations.LinesFor | src/pages/Cart.tsx:57-61 | the lines of one product, in cart order: a subsequence that holds every line of the product and no other line |
| CartMutations.LinesForCounts | src/pages/Cart.tsx:57-61 | each line of the product occurs among the product's lines exactly as often as in the cart, and no other line occurs |
| CartMutations.RemoveLines | src/pages/Cart.tsx:57-61 | the result is an order-preserving subsequence that holds no line of the product and every other line |
| CartMutations.RemoveLinesSums | src/pages/Cart.tsx:57-67 | removal lowers the item count and the total by exactly the removed lines' count and total |
| CartMutations.SetCountSums | src/pages/Cart.tsx:22-35 | a quantity change moves the count by the count difference and the total by effective price times that difference |
| CartMutations.SetCountItemCount | src/pages/Cart.tsx:22-30 | a quantity change moves the item count by the new count on each product line minus the old counts |
| CartMutations.SetCountTotal | src/pages/Cart.tsx:22-35 | a quantity change moves the total by the effective price times the new count on each product line, minus the old line totals |
| CartMutations.Recompute | src/pages/Cart.tsx:30-40 | the snapshot carries the new lines, its count and total agree with them, and every other field is copied |
| CartMutations.Optimistic | src/pages/Cart.tsx:18-43 | with a cached line list the snapshot is consistent and holds the mutated lines; without one the cache is untouched |
| CartMutations.RunMutation | src/pages/Cart.tsx:15-49 | a failed request restores exactly the cart cached before; a success leaves a consistent snapshot; invalidation happens on success, or always for settle-invalidated mutations |
| CartMutations.OnError | src/pages/Cart.tsx:44-45 | a saved cart is written back; with nothing saved the entry stays as it is |
| CartMutations.RollbackOverridesInterleavedWrites | src/pages/Cart.tsx:44-45 | rollback restores the saved cart whatever was written meanwhile, and leaves the entry alone when nothing was saved |
| CartMutations.CartPageUpdateCount | src/pages/Cart.tsx:15-49 | the page's quantity update: a failure rolls back without invalidating, a success invalidates and shows the changed lines |
| CartMutations.CartPageRemove | src/pages/Cart.tsx:51-82 | the page's removal always invalidates, rolls back on failure, and on success shows every other line, in order and each as often as before |
| CartMutations.DrawerRemove | src/features/cart/CartDrawer.tsx:18-55 | the drawer's removal always invalidates, rolls back on failure, and on success keeps every other line in order and lowers count and total by the removed lines |
| CartMutations.DisplayedTotal | src/pages/Cart.tsx:84-90 | the shown total is 0 without lines; with lines it is Σ effective price × count over them, whatever the stored total says; on a consistent snapshot the two agree |
| CartMutations.ShownTotalAfterFetch | src/features/cart/CartDrawer.tsx:57-62 | after a fetch the shown total is summed over the back-filled lines, while the stored total is the server's |
| CartMutations.BackfillMovesShownTotal | src/pages/Cart.tsx:84-90 | a line of price 10 and count 1 in a cart whose stored total is 10, with a cached discounted price of 5, shows 10 before the fetch and 5 after, while the stored total stays 10 |
| CartPage.DecrementControl | src/pages/Cart.tsx:189-197 | the minus button never requests less than 1, and is enabled exactly when idle, above 1 and the line has a product id |
| CartPage.IncrementControl | src/pages/Cart.tsx:205-210 | the plus button requests a higher count, and is enabled exactly when idle and the line has a product id |
| CartPage.EnabledDecrementLowersByOne | src/pages/Cart.tsx:189-197 | an enabled minus press lowers that line's count by exactly one, never below 1 |
| CartPage.RemoveControl | src/pages/Cart.tsx:221-228 | the remove button asks to remove the line's product, and is enabled exactly when no removal is pending and the line has a product id (the drawer's button, src/features/cart/CartDrawer.tsx lines 153-160, has the same rule) |
| CartPage.EnabledRemoveDropsLine | src/features/cart/CartDrawer.tsx:153-160 | an enabled remove press takes the line out of the optimistic snapshot, which gets shorter |
| CartQuery.FindFirst | src/hooks/useCartQuery.ts:38-40 | returns the first product in a list carrying the id, or nothing when none carries it |
| CartQuery.ListPrice | src/hooks/useCartQuery.ts:38-46 | one array yields the usable price of its first product with the id, and nothing when that product has none or no product has the id |
| CartQuery.ScanLists | src/hooks/useCartQuery.ts:37-47 | the answer is what the first array that yields a price yields, and nothing exactly when no array yields one; any answer is a price the cache holds |
| CartQuery.ScanListsAppend | src/hooks/useCartQuery.ts:20-48 | a price from the earlier lists wins; the later lists decide only when the earlier ones give none |
| CartQuery.CachedPriceAfterDiscount | src/hooks/useCartQuery.ts:5-51 | a usable direct entry wins; without one the arrays are scanned in cache order; any answer is a price the cache holds for that product |
| CartQuery.FirstListedPriceWins | src/hooks/useCartQuery.ts:20-48 | without a usable direct entry, the first array whose first match has a usable price decides the answer |
| CartQuery.ListedPriceIsFound | src/hooks/useCartQuery.ts:20-50 | when some array's first match has a usable price, the lookup returns a price |
| CartQuery.UnknownProductHasNoCachedPrice | src/hooks/useCartQuery.ts:5-51 | a product the cache never mentions gets no price |
| CartQuery.EnrichItem | src/hooks/useCartQuery.ts:65-79 | a line with an id and no discounted price gets exactly the cached lookup's answer; no other line changes, and nothing but that price changes |
| CartQuery.Enrich | src/hooks/useCartQuery.ts:65-80 | back-fill maps the per-line step over the lines, in order |
| CartQuery.EnrichKeepsItemCount | src/hooks/useCartQuery.ts:65-85 | back-fill leaves the item count unchanged |
| CartQuery.FetchCart | src/hooks/useCartQuery.ts:58-87 | a transport error gives no cart; a cart without lines comes back as received; otherwise only the lines are back-filled |
| Types.ProductKey | src/pages/Products.tsx:14-18 | a present `id` wins even when empty, then `_id`, then "" |
| Catalog.PageItems | src/pages/Products.tsx:20-27 | a page yields its `data` array when it has one, and nothing for a `null` page or a `data` that is not an array |
| Catalog.PageWithoutArrayEndsList | src/pages/Products.tsx:79-80 | a `null` last page, or one without a `data` array, ends the list |
| Catalog.Normalize | src/pages/Products.tsx:29-36 | the id field is set to the product's id and nothing else changes |
| Catalog.NormalizeIdempotent | src/pages/Products.tsx:29-36 | normalising twice is normalising once |
| Catalog.DedupeFrom | src/pages/Products.tsx:38-46 | the kept products are a subsequence with unique non-empty ids not already seen, each the first with its id, in the order in which their ids first appear |
| Catalog.Dedupe | src/pages/Products.tsx:38-46 | a subsequence with unique non-empty ids, covering every non-empty id of the input, keeping first occurrences in the order in which their ids first appear |
| Catalog.DedupeMembers | src/pages/Products.tsx:38-46 | a product is kept exactly when its id is non-empty and it is the first product with that id |
| Catalog.DedupeKeepsFirstInPlace | src/pages/Products.tsx:38-46 | with ids "A" and "B", `[a, b, a]` becomes `[a, b]` |
| Catalog.SubseqFirstOrdered | src/pages/Products.tsx:150-165 | filtering a list in first-occurrence order keeps that order |
| Catalog.DedupeFromIdentity | src/pages/Products.tsx:38-46 | a list that already has unique unseen non-empty ids comes back unchanged |
| Catalog.DedupeIdempotent | src/pages/Products.tsx:38-46 | de-duplicating twice is de-duplicating once |
| Catalog.NextPageParam | src/pages/Products.tsx:78-121 | another page is asked for only when the last page is non-empty and brings an id not seen before |
| Catalog.NextPagePrecedence | src/pages/Products.tsx:99-120 | a numeric `nextPage` wins, then a parseable string one, then `currentPage + 1` exactly when below `numberOfPages`, then `page + 1` exactly when below `totalPages`; with none of these, only a full page asks for page `allPages.length + 1` |
| Catalog.RepeatedPageEndsList | src/pages/Products.tsx:90-97 | a last page with no new id ends the list |
| Catalog.FilterMatching | src/pages/Products.tsx:159-164 | keeps, in order, exactly the products whose lower-cased title or description contains the query |
| Catalog.FilterMatchingCounts | src/pages/Products.tsx:160-164 | each matching product is kept exactly as often as the input holds it, and no other product is kept |
| Catalog.Search | src/pages/Products.tsx:155-164 | a blank query keeps every product; otherwise exactly the matching ones are kept, in order and with their multiplicity |
| Catalog.NormalizeAll | src/pages/Products.tsx:151-152 | every product of the flattened pages is normalised in place |
| Catalog.RenderedItems | src/pages/Products.tsx:151-152 | the memo reads each page's array exactly as `getPageItems` does, and fails exactly when some page is `null` or has a `data` that is present but not an array |
| Catalog.VisibleProducts | src/pages/Products.tsx:150-165 | the render fails exactly when some page is `null` or has a non-array `data`; otherwise the listed products have unique non-empty ids, each stored in the id field |
| Catalog.VisibleProductsShown | src/pages/Products.tsx:150-165 | when every page renders, a loaded product is shown exactly when it is the first with its non-empty id and the query is blank or it mentions the trimmed, lower-cased query; shown products follow their ids' first appearance |
| Catalog.SubseqUnique | src/pages/Products.tsx:153-164 | filtering a list with unique ids keeps them unique |
| OrderLedger.GetOrders | src/utils/orders.ts:33-41 | the stored list, or the empty list when the key is empty or unreadable |
| OrderLedger.SaveOrder | src/utils/orders.ts:23-31 | a successful write puts the order in front of the previous list; a failed one changes nothing; other keys are untouched |
| OrderLedger.ClearOrders | src/utils/orders.ts:43-49 | afterwards the ledger reads empty; other keys are untouched |
| OrderLedger.SaveTwiceNewestFirst | src/utils/orders.ts:23-27 | the most recently saved order is listed first |
| OrderLedger.SaveOverUnreadable | src/utils/orders.ts:23-40 | saving over unreadable text starts a fresh one-order list |
| OrderHistory.InsertSorted | src/pages/Orders.tsx:32-34 | inserting into a newest-first list keeps it newest-first |
| OrderHistory.InsertMultiset | src/pages/Orders.tsx:32-34 | inserting adds exactly the one entry |
| OrderHistory.InsertWithTime | src/pages/Orders.tsx:32-34 | an inserted entry goes in front of the entries that share its timestamp |
| OrderHistory.SortDesc | src/pages/Orders.tsx:32-34 | the sorted history is newest first and holds exactly the entries it was given |
| OrderHistory.SortDescCorrect | src/pages/Orders.tsx:32-34 | the sort is a permutation, newest first, and stable: entries with equal timestamps keep their order |
| OrderHistory.ServerOrders | src/pages/Orders.tsx:21-29 | a loaded response contributes exactly its `data` list, or none when that is missing; a pending or failed request contributes no orders |
| OrderHistory.MergeOrders | src/pages/Orders.tsx:29-34 | the history holds exactly the local and server orders, newest first, local before server at equal times |
| OrderHistory.MergeTies | src/pages/Orders.tsx:32 | at each timestamp the entries of a concatenation are those of the first part, then those of the second |
| OrderHistory.MergeExample | src/pages/Orders.tsx:32-34 | two local orders and one server order come out newest first |
| OrderHistory.SortThree | src/pages/Orders.tsx:32-34 | three entries at 10:00, 10:10 and 10:05 sort as 10:10, 10:05, 10:00 |
| Checkout.FieldError | src/pages/Checkout.tsx:35-55 | the error is empty exactly when the field is valid; a blank field is "required"; a phone must be at least ten digits once whitespace is removed |
| Checkout.PlainPhonePasses | src/pages/Checkout.tsx:42-50 | ten plain digits are a valid phone |
| Checkout.HyphenatedPhoneFails | src/pages/Checkout.tsx:42-50 | a phone with hyphens is rejected |
| Checkout.SpacedPhonePasses | src/pages/Checkout.tsx:42-50 | a phone with inner spaces is accepted |
| Checkout.DigitsPass | src/pages/Checkout.tsx:42-50 | any ten or more digits are a valid phone |
| Checkout.SpacedDigitsPass | src/pages/Checkout.tsx:42-50 | digit groups joined by single spaces reduce to their digits and pass when there are ten or more |
| Checkout.NonDigitFails | src/pages/Checkout.tsx:42-50 | one character that is neither whitespace nor a digit makes the phone fail |
| Checkout.HandleSubmit | src/pages/Checkout.tsx:86-103 | every field is validated, all three errors are set, and the order is placed exactly when all fields are valid |
| Checkout.OrderItems | src/pages/Checkout.tsx:63-68 | one order line per cart line, in order |
| Checkout.OrderItemsTotalMatchesCart | src/pages/Checkout.tsx:29-32 | the order lines' price times count adds up to the checkout total |
| Checkout.BuildOrder | src/pages/Checkout.tsx:60-73 | the order's lines copy id, count and effective price; its total is the checkout total and matches its lines; it is unpaid and undelivered |
| Checkout.PlaceOrder | src/pages/Checkout.tsx:57-84 | the order is saved before the cart is cleared; it stays saved if the clear fails; a successful clear invalidates the cart and opens the history |
| CartTotals.EffectivePrice | src/pages/Cart.tsx:33 | a line is priced at its product's discounted price when there is one, else at the line's own price |
| ProductView.CardPrice | src/features/products/ProductCard.tsx:47-51 | the card price never exceeds the list price and is below it exactly when the card shows a sale: a discounted price that is present, positive and below the list price |
| ProductView.CardAddRequest | src/features/products/ProductCard.tsx:26-27 | adding from a card always asks for one unit of the card's product |
| ProductView.CardWithoutIdIsInert | src/features/products/ProductCard.tsx:103-135 | a product whose id is empty (both fields missing, or an empty `id`) cannot be added or wishlisted from its card |
| ProductView.WishlistToggle | src/features/products/ProductCard.tsx:35-37 | the wishlist button removes a listed product and adds an unlisted one |
| ProductView.ToggleFlipsMembership | src/features/products/ProductCard.tsx:35-37 | a toggle flips the product's membership and leaves every other product alone |
| ProductView.AddToCartSettle | src/features/products/ProductCard.tsx:26-33 | adding to the cart leaves the cached cart alone and invalidates it only on success |
| ProductView.DecrementQuantity | src/pages/ProductDetails.tsx:152 | the minus button lowers the quantity by one, never below 1 |
| ProductView.IncrementQuantity | src/pages/ProductDetails.tsx:162-163 | the plus button raises the quantity by at most one and never above the stock |
| ProductView.StepperStaysInStock | src/pages/ProductDetails.tsx:15-163 | for a product in stock the quantity stays between 1 and the stock |
| ProductView.IncrementWithoutStock | src/pages/ProductDetails.tsx:162-163 | with no stock the plus button sets the quantity to 0 |
| ProductView.DetailPrice | src/pages/ProductDetails.tsx:79 | the details page shows the discounted price when there is one, else the list price |
| ProductView.DetailHasDiscount | src/pages/ProductDetails.tsx:80 | the details page shows a sale whenever a discounted price is present, including one the card would not count as a sale |
| ProductView.DetailCardAndCartPrices | src/pages/ProductDetails.tsx:79-80 | the details page prices like a cart line; it agrees with the card on real sales and differs where the "discount" is not below the list price |
| ProductView.Gallery | src/pages/ProductDetails.tsx:78 | the image list is never empty: the images, or the cover alone |
| ProductView.DetailToggle | src/pages/ProductDetails.tsx:19-38 | the details page removes exactly when the route's id is in the wishlist |
| AuthStore.SetAuth | src/store/authStore.ts:22-26 | user and token reach state and storage and the session is signed in; theme and orders are untouched |
| AuthStore.Logout | src/store/authStore.ts:28-31 | the state is back to its initial value and both keys are removed; theme and orders stay |
| AuthStore.Hydrate | src/store/authStore.ts:33-41 | the state is read back from storage and is signed in exactly when a non-empty token and a readable user are stored |
| AuthStore.HydrateAfterSetAuth | src/store/authStore.ts:22-41 | a reload after signing in restores user and token, signed in only for a non-empty token |
| AuthStore.HydrateAfterLogout | src/store/authStore.ts:28-41 | a reload after signing out stays signed out |
| ThemeStore.SetTheme | src/store/themeStore.ts:19-23 | the theme is adopted, persisted and shown; no other key changes |
| ThemeStore.ToggleTheme | src/store/themeStore.ts:25-32 | the theme flips, and state, storage and document agree |
| ThemeStore.ToggleTwice | src/store/themeStore.ts:25-32 | toggling twice returns to the starting theme |
| ThemeStore.StoredTheme | src/utils/storage.ts:24-30 | a stored theme is returned; with none stored the result is dark exactly when the system prefers dark |
| ThemeStore.Hydrate | src/store/themeStore.ts:34-38 | a stored theme is adopted; with none stored the system preference decides; the document matches |
| ThemeStore.HydrateRestoresChoice | src/store/themeStore.ts:19-38 | after a change, a reload shows the chosen theme |
| SearchParams.ReadParam | src/hooks/useSearchParamsState.ts:9 | a present key gives its value, a missing one the default |
| SearchParams.SetValue | src/hooks/useSearchParamsState.ts:11-17 | a non-empty value is stored, an empty one deletes the key, and every other key keeps its value |
| SearchParams.ReadAfterSet | src/hooks/useSearchParamsState.ts:9-17 | reading back gives the value set, or the default after clearing |
| SearchParams.SetThenClear | src/hooks/useSearchParamsState.ts:11-17 | setting then clearing leaves exactly the other keys |
| AuthForms.LoginTarget | src/pages/Login.tsx:17-19 | the page that asked for sign-in, or "/home" |
| AuthForms.LoginRedirect | src/pages/Login.tsx:17-23 | a signed-in visitor is sent to the page that asked for sign-in, or home |
| AuthForms.LoginSubmit | src/pages/Login.tsx:38-45 | the form is sent exactly when email and password are both filled in |
| AuthForms.LoginErrorText | src/pages/Login.tsx:33-35 | the server's message, or "Login failed" |
| AuthForms.LoginSucceeded | src/pages/Login.tsx:28-32 | a successful sign-in stores the session and goes to the redirect target |
| AuthForms.RegisterSubmit | src/pages/Register.tsx:50-61 | a password mismatch is reported first; the form is sent exactly when the passwords match and name, email and password are filled in |
| AuthForms.MismatchReportedFirst | src/pages/Register.tsx:52-59 | an empty form with differing passwords is refused for the mismatch |
| AuthForms.RegisterErrorText | src/pages/Register.tsx:34-47 | the first field error when the errors object has entries ("Registration failed" if that entry is null), else the server's message, else "Registration failed" |
| AuthForms.RegisterRedirect | src/pages/Register.tsx:22-24 | a signed-in visitor is sent home |
| AuthForms.RegisterSucceeded | src/pages/Register.tsx:29-33 | a successful registration stores the session and goes home |

## Left out

- Rendering, toasts, animation, skeletons and the intersection observer that triggers the next-page fetch: presentation only.
- `cancelQueries`, concurrent mutations and late responses: the model runs one mutation at a time. `RollbackOverridesInterleavedWrites` covers a write that lands between `onMutate` and `onError`.
- `src/api` and the HTTP client: requests are values (`CartRequest`, `WishlistRequest`, the cart-clear outcome), and responses are inputs.
- `generateOrderId`, `Date.now()`, `new Date().toISOString()` and `Math.random`: the order id and timestamp are parameters. Timestamps are integers, so ISO-string parsing is not modelled.
- JavaScript numbers: prices and counts are unbounded integers, so there are no fractions, NaN, infinities or rounding. `Number()` with `isFinite` is the `parse` parameter.
- Text.IsSpace: ASCII whitespace only. Unicode spaces that `trim()` and `\s` also match are not modelled.
- Text.LowerChar: ASCII letters only. Unicode case mapping is not modelled.
- URLSearchParams as a multimap: the model keeps one value per key.
- The zustand `persist` middleware copies ("auth-storage", "theme-storage"): the stores read and write the plain keys through their own code, which is what is modelled.
- A stored theme string other than "light" or "dark": the slot holds a `Theme`.
- JSON encoding and decoding: slots hold decoded values, and text that does not decode is `Unreadable`.
- OrderLedger.GetOrders: stored text that is valid JSON but not an array (such as `null`) is not modelled. The code returns it as is; the next `saveOrder` then throws on the spread and swallows the error, so that order and every later one is lost. Here a slot holds a decoded order list or text that does not decode.
- A failing `removeItem` in `clearOrders`: the error is swallowed and the model treats the removal as done.
- `null` entries inside cached product lists and inside a page's `data` array: list elements are always products.
- The order of `Object.values` on the registration errors object: the model takes the entries already in that order (integer-like keys first).
- The navbar, sidebar, footer, home, brands, categories, wishlist, profile and about pages, the route table and the providers: not part of the core.
- The wishlist hooks (`useWishlistIds`, `useWishlistQuery`, `useWishlistCount`) and `useCartCount`: the wishlist is a set of ids given as input.
- The bundled `assets/*.js` files: compiled copies of the forms, not separate logic.
- Paid and delivered dates and the payment method selector: they do not affect the order that is saved.
