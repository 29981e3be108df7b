/** Cart arithmetic shared by the cart page, the cart drawer and checkout:
    the effective unit price of a line and the two sums every cart
    snapshot carries. */
module CartTotals {
  import opened Wrappers
  import opened Types
  import opened SeqUtil

  /** `item.product?.priceAfterDiscount ?? item.price`. There is no check
      that the discount is below the list price: whatever discounted price
      the embedded product carries is used. */
  function EffectivePrice(item: CartItem): (r: int)
    ensures item.product.Some? && item.product.value.priceAfterDiscount.Some? ==>
              r == item.product.value.priceAfterDiscount.value
    ensures item.product.None? || item.product.value.priceAfterDiscount.None? ==> r == item.price
  {
    if item.product.Some? then item.product.value.priceAfterDiscount.GetOr(item.price)
    else item.price
  }

  function LineTotal(item: CartItem): int {
    EffectivePrice(item) * item.count
  }

  function CountOf(item: CartItem): int {
    item.count
  }

  /** Σ count over the lines. */
  function ItemCount(items: seq<CartItem>): int {
    SumBy(items, CountOf)
  }

  /** Σ effective price × count over the lines. */
  function CartTotal(items: seq<CartItem>): int {
    SumBy(items, LineTotal)
  }

  /** The invariant every optimistic snapshot establishes: the cart has a
      line list, and its two derived fields agree with it. */
  predicate Consistent(cart: CartResponse) {
    && cart.data.Some?
    && cart.data.value.products.Some?
    && cart.numOfCartItems == ItemCount(cart.data.value.products.value)
    && cart.data.value.totalCartPrice == CartTotal(cart.data.value.products.value)
  }

  /** A cart with its lines and the two fields derived from them blanked:
      two carts with the same shell differ at most in those three fields. */
  function Shell(cart: CartResponse): CartResponse {
    cart.(numOfCartItems := 0,
          data := if cart.data.Some?
                  then Some(cart.data.value.(products := None, totalCartPrice := 0))
                  else None)
  }
}
