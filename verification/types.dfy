/** The records the storefront exchanges with its backend and keeps in
    browser storage. Timestamps are integers (milliseconds); prices and
    counts are integers. */
module Types {
  import opened Wrappers

  /** A catalogue product as the list and detail endpoints return it.
      `altId` is the `_id` key some responses carry instead of `id`;
      `quantity` is the stock. */
  datatype Product = Product(
    id: Option<string>,
    altId: Option<string>,
    title: string,
    description: string,
    price: int,
    priceAfterDiscount: Option<int>,
    imageCover: string,
    images: Option<seq<string>>,
    quantity: int)

  /** `p?.id ?? p?._id ?? ""`: the identifier every view uses for a
      product that may itself be missing. An `id` that is present wins even
      when it is the empty string. */
  function ProductKey(p: Option<Product>): (r: string)
    ensures p.Some? && p.value.id.Some? ==> r == p.value.id.value
    ensures p.Some? && p.value.id.None? && p.value.altId.Some? ==> r == p.value.altId.value
    ensures p.None? || (p.value.id.None? && p.value.altId.None?) ==> r == ""
  {
    match p
    case None => ""
    case Some(q) => q.id.GetOr(q.altId.GetOr(""))
  }

  /** One cart line: its own identifier, the embedded product snapshot,
      the unit price the server recorded and the quantity. */
  datatype CartItem = CartItem(
    id: Option<string>,
    altId: Option<string>,
    product: Option<Product>,
    price: int,
    count: int)

  /** The product id of a cart line, `""` when it has none. */
  function LineProductId(item: CartItem): string {
    ProductKey(item.product)
  }

  datatype CartData = CartData(
    id: string,
    cartOwner: string,
    products: Option<seq<CartItem>>,
    totalCartPrice: int,
    createdAt: string,
    updatedAt: string)

  datatype CartResponse = CartResponse(
    status: string,
    numOfCartItems: int,
    data: Option<CartData>)

  /** The lines of a cached cart when it has a `data.products` list. */
  predicate HasLines(cart: Option<CartResponse>) {
    cart.Some? && cart.value.data.Some? && cart.value.data.value.products.Some?
  }

  /** `cart?.data?.products ?? []` */
  function LinesOf(cart: Option<CartResponse>): seq<CartItem> {
    if HasLines(cart) then cart.value.data.value.products.value else []
  }

  datatype ShippingAddress = ShippingAddress(details: string, phone: string, city: string)

  datatype User = User(id: string, name: string, email: string, role: string)

  datatype AuthResponse = AuthResponse(token: string, user: User)

  /** One line of an order: product id, quantity and unit price. */
  datatype OrderItem = OrderItem(product: string, count: int, price: int)

  /** An order confirmed by the backend. */
  datatype Order = Order(
    id: string,
    user: string,
    cartItems: seq<OrderItem>,
    totalOrderPrice: int,
    shippingAddress: ShippingAddress,
    paymentMethod: string,
    isPaid: bool,
    isDelivered: bool,
    createdAt: int)

  /** An order the client records itself at checkout. */
  datatype LocalOrder = LocalOrder(
    id: string,
    shippingAddress: ShippingAddress,
    cartItems: seq<OrderItem>,
    totalOrderPrice: int,
    createdAt: int,
    isPaid: bool,
    isDelivered: bool)
}
