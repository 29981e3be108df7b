/** The rules behind the product card and the product details page:
    which price is shown, whether a product counts as on sale, the
    quantity stepper, the image list, and which cart and wishlist requests
    the buttons send. */
module ProductView {
  import opened Wrappers
  import opened Types
  import opened CartTotals
  import CartMutations

  /** `cartApi.add(productId, quantity)` */
  datatype CartRequest = AddToCart(productId: string, quantity: int)

  /** `wishlistApi.add(id)` or `wishlistApi.remove(id)` */
  datatype WishlistRequest = WishlistAdd(productId: string) | WishlistRemove(productId: string)

  // ---- Product card ----

  /** The card's sale rule: a discounted price that is present, positive
      and below the list price. */
  predicate CardHasDiscount(p: Product) {
    p.priceAfterDiscount.Some? && p.priceAfterDiscount.value > 0
    && p.priceAfterDiscount.value < p.price
  }

  /** The price the card shows. It never exceeds the list price, and it is
      below the list price exactly when the card shows a sale. */
  function CardPrice(p: Product): (r: int)
    ensures r <= p.price
    ensures r == p.price || (p.priceAfterDiscount == Some(r) && r > 0)
    ensures CardHasDiscount(p) <==> r < p.price
  {
    if CardHasDiscount(p) then p.priceAfterDiscount.value else p.price
  }

  /** The card's id for its links and requests. */
  function CardProductId(p: Product): string {
    ProductKey(Some(p))
  }

  /** Add-to-cart from a card always asks for one unit. */
  function CardAddRequest(p: Product): (r: CartRequest)
    ensures r.quantity == 1 && r.productId == CardProductId(p)
  {
    AddToCart(CardProductId(p), 1)
  }

  /** The card's wishlist and add-to-cart buttons: each is disabled while
      its own request is pending and when the card has no id. The
      full-width add button gets the pending half through its `loading`
      flag, which the shared button adds to `disabled`. */
  predicate CardButtonEnabled(p: Product, pending: bool) {
    !pending && CardProductId(p) != ""
  }

  /** A product without an id (both fields missing, or an empty `id`)
      cannot be added or wishlisted from its card. */
  lemma CardWithoutIdIsInert(p: Product, pending: bool)
    requires CardProductId(p) == ""
    ensures !CardButtonEnabled(p, pending)
  {
  }

  /** The wishlist button: remove when listed, add otherwise. */
  function WishlistToggle(inWishlist: bool, productId: string): (r: WishlistRequest)
    ensures r.productId == productId
    ensures r.WishlistRemove? <==> inWishlist
  {
    if inWishlist then WishlistRemove(productId) else WishlistAdd(productId)
  }

  /** The backend's wishlist after a request, a set of product ids. */
  function ApplyWishlist(ids: set<string>, r: WishlistRequest): set<string> {
    match r
    case WishlistAdd(id) => ids + {id}
    case WishlistRemove(id) => ids - {id}
  }

  /** Pressing the toggle with the true membership flips it and leaves every
      other product's membership alone. */
  lemma ToggleFlipsMembership(ids: set<string>, id: string)
    ensures var after := ApplyWishlist(ids, WishlistToggle(id in ids, id));
            (id in after <==> id !in ids) && after - {id} == ids - {id}
  {
  }

  /** Adding to the cart publishes no optimistic snapshot: the cached cart
      is left alone and only invalidated once the backend confirms. */
  function AddToCartSettle(entry: Option<CartResponse>, outcome: CartMutations.Outcome): (r: CartMutations.Settled)
    ensures r.entry == entry
    ensures r.invalidated <==> outcome.Succeeded?
  {
    CartMutations.Settled(entry, outcome.Succeeded?)
  }

  // ---- Product details ----

  const InitialQuantity := 1

  /** The minus button: `Math.max(1, q - 1)`. */
  function DecrementQuantity(q: int): (r: int)
    ensures r >= 1
    ensures q > 1 ==> r == q - 1
    ensures q <= 1 ==> r == 1
  {
    if q - 1 < 1 then 1 else q - 1
  }

  /** The plus button: `Math.min(stock, q + 1)`. */
  function IncrementQuantity(q: int, stock: int): (r: int)
    ensures r <= stock && r <= q + 1
    ensures r == stock || r == q + 1
  {
    if stock < q + 1 then stock else q + 1
  }

  /** For a product in stock, the quantity starts at 1 and both buttons keep
      it between 1 and the stock. */
  lemma StepperStaysInStock(q: int, stock: int)
    requires 1 <= q <= stock
    ensures 1 <= DecrementQuantity(q) <= stock
    ensures 1 <= IncrementQuantity(q, stock) <= stock
    ensures 1 <= InitialQuantity <= stock
  {
  }

  /** With nothing in stock, the plus button sets the quantity to 0. */
  lemma IncrementWithoutStock(q: int)
    requires q >= 0
    ensures IncrementQuantity(q, 0) == 0
  {
  }

  /** The details page shows `priceAfterDiscount ?? price`. */
  function DetailPrice(p: Product): (r: int)
    ensures p.priceAfterDiscount.Some? ==> r == p.priceAfterDiscount.value
    ensures p.priceAfterDiscount.None? ==> r == p.price
  {
    p.priceAfterDiscount.GetOr(p.price)
  }

  /** The details page marks a sale whenever a discounted price is present. */
  predicate DetailHasDiscount(p: Product): (r: bool)
    ensures r <==> p.priceAfterDiscount.Some?
    ensures r && !CardHasDiscount(p) ==> p.priceAfterDiscount.value <= 0 || p.priceAfterDiscount.value >= p.price
  {
    p.priceAfterDiscount.Some?
  }

  /** The details page prices a product the way the cart prices a line
      holding it; the card agrees with both on real sales, and shows the
      list price where the details page shows a "discount" that is not
      below it. */
  lemma DetailCardAndCartPrices(p: Product)
    ensures DetailPrice(p) == EffectivePrice(CartItem(None, None, Some(p), p.price, 1))
    ensures CardHasDiscount(p) ==> DetailHasDiscount(p) && CardPrice(p) == DetailPrice(p)
    ensures DetailHasDiscount(p) && !CardHasDiscount(p) ==>
              CardPrice(p) == p.price && DetailPrice(p) == p.priceAfterDiscount.value
  {
  }

  /** `images?.length ? images : [imageCover]`: never empty. */
  function Gallery(p: Product): (r: seq<string>)
    ensures |r| >= 1
    ensures p.images.Some? && |p.images.value| > 0 ==> r == p.images.value
    ensures p.images.None? || |p.images.value| == 0 ==> r == [p.imageCover]
  {
    if p.images.Some? && |p.images.value| > 0 then p.images.value else [p.imageCover]
  }

  /** `id ? wishlistIds.includes(id) : false` for the route's id. */
  function InWishlist(routeId: Option<string>, wishlistIds: seq<string>): bool {
    routeId.Some? && routeId.value != "" && routeId.value in wishlistIds
  }

  /** The details page's wishlist button for the route's id. */
  function DetailToggle(routeId: string, wishlistIds: seq<string>): (r: WishlistRequest)
    ensures r.productId == routeId
    ensures r.WishlistRemove? <==> routeId != "" && routeId in wishlistIds
  {
    WishlistToggle(InWishlist(Some(routeId), wishlistIds), routeId)
  }

  /** The details page's add button sends the chosen quantity. */
  function DetailAddRequest(routeId: string, quantity: int): CartRequest {
    AddToCart(routeId, quantity)
  }
}
