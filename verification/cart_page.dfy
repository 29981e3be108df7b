/** The quantity stepper and the remove button on each cart line, as the
    cart page and the cart drawer render them. */
module CartPage {
  import opened Types
  import opened CartMutations

  /** A stepper button: whether it can be pressed, and the update it sends. */
  datatype Control = Control(enabled: bool, request: Mutation)

  /** The minus button: sends `Math.max(1, count - 1)`; disabled while an
      update is pending, at a count of 1 or less, or without a product id. */
  function DecrementControl(item: CartItem, pending: bool): (c: Control)
    ensures c.request.UpdateCount? && c.request.productId == LineProductId(item)
    ensures c.request.count >= 1
    ensures c.enabled <==> !pending && item.count > 1 && LineProductId(item) != ""
    ensures c.enabled ==> c.request.count == item.count - 1
  {
    Control(!pending && item.count > 1 && LineProductId(item) != "",
            UpdateCount(LineProductId(item), if item.count - 1 < 1 then 1 else item.count - 1))
  }

  /** The plus button: sends `count + 1`; disabled while an update is
      pending or without a product id. */
  function IncrementControl(item: CartItem, pending: bool): (c: Control)
    ensures c.request.UpdateCount? && c.request.productId == LineProductId(item)
    ensures c.request.count > item.count
    ensures c.enabled <==> !pending && LineProductId(item) != ""
  {
    Control(!pending && LineProductId(item) != "", UpdateCount(LineProductId(item), item.count + 1))
  }

  /** Pressing an enabled minus button on line `k` lowers that line's
      count by exactly one in the optimistic snapshot and never below 1. */
  lemma EnabledDecrementLowersByOne(items: seq<CartItem>, k: int, pending: bool)
    requires 0 <= k < |items|
    requires DecrementControl(items[k], pending).enabled
    ensures ApplyLines(items, DecrementControl(items[k], pending).request)[k].count == items[k].count - 1 >= 1
  {
  }

  /** The remove button (the same on the page and in the drawer): sends
      the line's product id; disabled while a removal is pending or without
      a product id. */
  function RemoveControl(item: CartItem, pending: bool): (c: Control)
    ensures c.request == RemoveItem(LineProductId(item))
    ensures c.enabled <==> !pending && LineProductId(item) != ""
  {
    Control(!pending && LineProductId(item) != "", RemoveItem(LineProductId(item)))
  }

  /** Pressing an enabled remove button on line `k` takes that line, and
      every other line of its product, out of the optimistic snapshot. */
  lemma EnabledRemoveDropsLine(items: seq<CartItem>, k: int, pending: bool)
    requires 0 <= k < |items|
    requires RemoveControl(items[k], pending).enabled
    ensures items[k] !in ApplyLines(items, RemoveControl(items[k], pending).request)
    ensures |ApplyLines(items, RemoveControl(items[k], pending).request)| < |items|
  {
    var lines := LinesFor(items, LineProductId(items[k]));
    assert items[k] in lines;
    assert |lines| > 0;
  }
}
