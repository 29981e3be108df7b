/** Checkout: shipping-address validation, the order snapshot taken from
    the cart, and the steps that record it and clear the cart. */
module Checkout {
  import opened Wrappers
  import opened Types
  import opened SeqUtil
  import opened Text
  import opened CartTotals
  import opened Storage
  import opened OrderLedger
  import CartMutations

  datatype Field = Details | City | Phone

  /** The fields in the order the submit handler validates them. */
  const FieldOrder: seq<Field> := [Details, City, Phone]

  function FieldName(f: Field): string {
    match f
    case Details => "details"
    case City => "city"
    case Phone => "phone"
  }

  function ValueOf(a: ShippingAddress, f: Field): string {
    match f
    case Details => a.details
    case City => a.city
    case Phone => a.phone
  }

  const PhoneMessage := "Phone must be at least 10 digits (numbers only)"

  /** The phone rule on the number with all whitespace removed: ten or more
      characters, every one a decimal digit. */
  predicate PhoneDigits(s: string) {
    |s| >= 10 && AllDigits(s)
  }

  /** What a valid field is: not all whitespace, and for the phone, the
      digits rule after removing every whitespace character. */
  predicate FieldValid(f: Field, value: string) {
    !IsBlank(value) && (f == Phone ==> PhoneDigits(StripSpaces(value)))
  }

  /** `validateField`: the error text it stores for the field, `""` when
      the field passes. It trims first, and strips whitespace from the
      trimmed phone, which is the same as stripping it from the raw value. */
  function FieldError(f: Field, value: string): (msg: string)
    ensures msg == "" <==> FieldValid(f, value)
    ensures IsBlank(value) ==> msg == FieldName(f) + " is required"
    ensures f == Phone && !IsBlank(value) && !PhoneDigits(StripSpaces(value)) ==> msg == PhoneMessage
  {
    TrimEmptyIffBlank(value);
    StripSpacesTrim(value);
    var trimmed := Trim(value);
    if trimmed == "" then FieldName(f) + " is required"
    else if f == Phone && !PhoneDigits(StripSpaces(trimmed)) then PhoneMessage
    else ""
  }

  /** Ten or more digits pass. */
  lemma DigitsPass(s: string)
    requires AllDigits(s) && |s| >= 10
    ensures FieldValid(Phone, s)
  {
    assert !IsSpace(s[0]);
    DigitsAreNotSpace(s);
    StripSpacesId(s);
  }

  /** Digit groups separated by single spaces pass when there are ten or
      more digits in all: the spaces are removed before the digits rule. */
  lemma SpacedDigitsPass(a: string, b: string, c: string)
    requires AllDigits(a) && AllDigits(b) && AllDigits(c)
    requires |a| > 0 && |a| + |b| + |c| >= 10
    ensures StripSpaces(a + " " + b + " " + c) == a + b + c
    ensures FieldValid(Phone, a + " " + b + " " + c)
  {
    SpacedDigitsStrip(a, b, c);
    AllDigitsAppend(a, b);
    AllDigitsAppend(a + b, c);
    assert (a + " " + b + " " + c)[0] == a[0];
    assert !IsSpace(a[0]);
  }

  lemma SpacedDigitsStrip(a: string, b: string, c: string)
    requires AllDigits(a) && AllDigits(b) && AllDigits(c)
    ensures StripSpaces(a + " " + b + " " + c) == a + b + c
  {
    StripSpacesDigits(a);
    SpaceJoinStrip(a, b);
    SpaceJoinStrip(a + " " + b, c);
  }

  /** Joining a digit group on with a space adds just its digits. */
  lemma SpaceJoinStrip(x: string, y: string)
    requires AllDigits(y)
    ensures StripSpaces(x + " " + y) == StripSpaces(x) + y
  {
    var spaced := x + " ";
    StripSpacesAppend(x, " ");
    assert StripSpaces(" ") == "";
    StripSpacesAppend(spaced, y);
    StripSpacesDigits(y);
  }

  lemma AllDigitsAppend(a: string, b: string)
    requires AllDigits(a) && AllDigits(b)
    ensures AllDigits(a + b)
  {
    forall i | 0 <= i < |a + b| ensures IsDigit((a + b)[i]) {
      if i < |a| { assert (a + b)[i] == a[i]; } else { assert (a + b)[i] == b[i - |a|]; }
    }
  }

  lemma StripSpacesDigits(s: string)
    requires AllDigits(s)
    ensures StripSpaces(s) == s
  {
    DigitsAreNotSpace(s);
    StripSpacesId(s);
  }

  /** A character that is neither whitespace nor a digit, anywhere in the
      phone, makes it fail. */
  lemma NonDigitFails(s: string, i: int)
    requires 0 <= i < |s| && !IsSpace(s[i]) && !IsDigit(s[i])
    ensures !FieldValid(Phone, s)
  {
    StripSpacesMembers(s);
    assert s[i] in StripSpaces(s);
  }

  /** "0123456789" passes. */
  lemma PlainPhonePasses()
    ensures FieldValid(Phone, "0123456789")
  {
    var plain := "0123456789";
    assert AllDigits(plain);
    DigitsPass(plain);
  }

  /** "012-345-6789" fails: hyphens are not whitespace. */
  lemma HyphenatedPhoneFails()
    ensures !FieldValid(Phone, "012-345-6789")
  {
    var hyphen := "012-345-6789";
    NonDigitFails(hyphen, 3);
  }

  /** "012 345 6789" passes. */
  lemma SpacedPhonePasses()
    ensures FieldValid(Phone, "012 345 6789")
  {
    var a, b, c := "012", "345", "6789";
    assert AllDigits(a) && AllDigits(b) && AllDigits(c);
    SpacedDigitsPass(a, b, c);
    assert a + " " + b + " " + c == "012 345 6789";
  }

  lemma DigitsAreNotSpace(s: string)
    requires AllDigits(s)
    ensures forall i :: 0 <= i < |s| ==> !IsSpace(s[i])
  {
  }

  lemma {:induction false} StripSpacesId(s: string)
    requires forall i :: 0 <= i < |s| ==> !IsSpace(s[i])
    ensures StripSpaces(s) == s
  {
    if |s| != 0 {
      StripSpacesId(s[1..]);
    }
  }

  /** `handleSubmit`: every field is validated, none skipped after a
      failure, each getting its error text; the order is placed only when
      all three pass. */
  method HandleSubmit(address: ShippingAddress) returns (place: bool, errors: map<Field, string>)
    ensures place <==> forall f :: FieldValid(f, ValueOf(address, f))
    ensures errors.Keys == {Details, City, Phone}
    ensures forall f :: f in errors ==> errors[f] == FieldError(f, ValueOf(address, f))
  {
    place := true;
    errors := map[];
    for i := 0 to |FieldOrder|
      invariant errors.Keys == set j | 0 <= j < i :: FieldOrder[j]
      invariant forall f :: f in errors ==> errors[f] == FieldError(f, ValueOf(address, f))
      invariant place <==> forall j :: 0 <= j < i ==> FieldValid(FieldOrder[j], ValueOf(address, FieldOrder[j]))
    {
      var f := FieldOrder[i];
      var msg := FieldError(f, ValueOf(address, f));
      errors := errors[f := msg];
      if msg != "" {
        place := false;
      }
    }
    assert FieldOrder[0] == Details && FieldOrder[1] == City && FieldOrder[2] == Phone;
  }

  /** `{ product, count, price }` for one cart line. */
  function OrderItemOf(item: CartItem): OrderItem {
    OrderItem(LineProductId(item), item.count, EffectivePrice(item))
  }

  function OrderItems(items: seq<CartItem>): (r: seq<OrderItem>)
    ensures |r| == |items|
    ensures forall i :: 0 <= i < |items| ==> r[i] == OrderItemOf(items[i])
  {
    if |items| == 0 then [] else [OrderItemOf(items[0])] + OrderItems(items[1..])
  }

  function OrderLineTotal(o: OrderItem): int {
    o.price * o.count
  }

  /** Σ price × count over an order's own lines. */
  function OrderItemsTotal(items: seq<OrderItem>): int {
    SumBy(items, OrderLineTotal)
  }

  /** The order lines add up to the cart total they were taken from. */
  lemma {:induction false} OrderItemsTotalMatchesCart(items: seq<CartItem>)
    ensures OrderItemsTotal(OrderItems(items)) == CartTotal(items)
  {
    if |items| != 0 {
      OrderItemsTotalMatchesCart(items[1..]);
      assert OrderItems(items)[1..] == OrderItems(items[1..]);
    }
  }

  /** The order `createOrder` records. The id and timestamp are supplied
      by the caller. Its lines copy product id, count and effective price
      from the cart; its total is the checkout total and agrees with its
      own lines; it is neither paid nor delivered. */
  function BuildOrder(id: string, createdAt: int, address: ShippingAddress,
                      items: seq<CartItem>): (o: LocalOrder)
    ensures o.id == id && o.createdAt == createdAt && o.shippingAddress == address
    ensures |o.cartItems| == |items|
    ensures forall i :: 0 <= i < |items| ==>
              o.cartItems[i].product == LineProductId(items[i])
              && o.cartItems[i].count == items[i].count
              && o.cartItems[i].price == EffectivePrice(items[i])
    ensures o.totalOrderPrice == CartTotal(items)
    ensures OrderItemsTotal(o.cartItems) == o.totalOrderPrice
    ensures !o.isPaid && !o.isDelivered
  {
    OrderItemsTotalMatchesCart(items);
    LocalOrder(id, address, OrderItems(items), CartTotal(items), createdAt, false, false)
  }

  /** Observable steps of placing an order, in order. */
  datatype Step = SaveOrderCalled(order: LocalOrder) | CartClearRequested | CartInvalidated | NavigatedTo(path: string)

  datatype Placed = Placed(store: LocalStore, steps: seq<Step>)

  /** `createOrder` with its callbacks: the order is saved locally first,
      then the cart clear is issued; on success the cart is invalidated and
      the history page opened. A failed clear rolls nothing back: the local
      order stays. `writeOk` is whether the local write succeeds. */
  function PlaceOrder(store: LocalStore, writeOk: bool, id: string, createdAt: int,
                      address: ShippingAddress, items: seq<CartItem>,
                      clear: CartMutations.Outcome): (r: Placed)
    ensures |r.steps| >= 2
    ensures r.steps[0] == SaveOrderCalled(BuildOrder(id, createdAt, address, items))
    ensures r.steps[1] == CartClearRequested
    ensures writeOk ==> GetOrders(r.store) == [BuildOrder(id, createdAt, address, items)] + GetOrders(store)
    ensures clear.Succeeded? ==> r.steps[2..] == [CartInvalidated, NavigatedTo("/orders")]
    ensures clear.Failed? ==> |r.steps| == 2
  {
    var order := BuildOrder(id, createdAt, address, items);
    var saved := SaveOrder(store, order, writeOk);
    var issued := [SaveOrderCalled(order), CartClearRequested];
    if clear.Succeeded? then Placed(saved, issued + [CartInvalidated, NavigatedTo("/orders")])
    else Placed(saved, issued)
  }
}
