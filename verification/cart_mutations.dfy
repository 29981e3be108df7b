/** Optimistic cart mutations with rollback, as the cart page and the cart
    drawer drive them: `onMutate` saves the cached cart and publishes a
    recomputed snapshot, `onError` puts the saved cart back, and the cart
    is invalidated on success (quantity updates) or on settle (removals).
    Invalidation is an opaque event here: it only marks the entry for a
    refetch, which is the request cache's business. */
module CartMutations {
  import opened Wrappers
  import opened Types
  import opened SeqUtil
  import opened CartTotals
  import CartQuery

  /** The lines after `{ ...p, count }` on every line of the product. */
  function SetCount(items: seq<CartItem>, productId: string, count: int): (r: seq<CartItem>)
    ensures |r| == |items|
    ensures forall i :: 0 <= i < |items| && LineProductId(items[i]) == productId ==>
              r[i] == items[i].(count := count)
    ensures forall i :: 0 <= i < |items| && LineProductId(items[i]) != productId ==>
              r[i] == items[i]
  {
    if |items| == 0 then []
    else
      var head := if LineProductId(items[0]) == productId then items[0].(count := count) else items[0];
      [head] + SetCount(items[1..], productId, count)
  }

  /** The lines of the product, in cart order, each as often as the cart
      holds it. */
  function LinesFor(items: seq<CartItem>, productId: string): (r: seq<CartItem>)
    ensures IsSubseq(r, items)
    ensures forall x :: x in r ==> LineProductId(x) == productId
    ensures forall i :: 0 <= i < |items| && LineProductId(items[i]) == productId ==> items[i] in r
  {
    if |items| == 0 then []
    else
      var rest := LinesFor(items[1..], productId);
      SubseqCons(items[0], rest, items[1..]);
      assert items == [items[0]] + items[1..];
      if LineProductId(items[0]) == productId then [items[0]] + rest
      else rest
  }

  /** Each line of the product appears in `LinesFor` exactly as often as
      in the cart, and no other line appears at all. */
  lemma {:induction false} LinesForCounts(items: seq<CartItem>, productId: string)
    ensures forall x :: multiset(LinesFor(items, productId))[x]
                        == if LineProductId(x) == productId then multiset(items)[x] else 0
  {
    if |items| != 0 {
      LinesForCounts(items[1..], productId);
      LinesForCons(items, productId);
      assert items == [items[0]] + items[1..];
    }
  }

  lemma LinesForCons(items: seq<CartItem>, productId: string)
    requires |items| > 0
    ensures LinesFor(items, productId)
            == if LineProductId(items[0]) == productId then [items[0]] + LinesFor(items[1..], productId)
               else LinesFor(items[1..], productId)
  {
  }

  /** The lines after `filter` drops every line of the product: exactly
      the other lines, in their original order. */
  function RemoveLines(items: seq<CartItem>, productId: string): (r: seq<CartItem>)
    ensures IsSubseq(r, items)
    ensures forall x :: x in r ==> LineProductId(x) != productId
    ensures forall x :: x in items && LineProductId(x) != productId ==> x in r
    ensures |r| + |LinesFor(items, productId)| == |items|
  {
    if |items| == 0 then []
    else if LineProductId(items[0]) == productId then
      SubseqCons(items[0], RemoveLines(items[1..], productId), items[1..]);
      RemoveLines(items[1..], productId)
    else
      SubseqCons(items[0], RemoveLines(items[1..], productId), items[1..]);
      [items[0]] + RemoveLines(items[1..], productId)
  }

  /** Removal takes away exactly the count and the total of the removed lines. */
  lemma {:induction false} RemoveLinesSums(items: seq<CartItem>, productId: string)
    ensures ItemCount(RemoveLines(items, productId)) == ItemCount(items) - ItemCount(LinesFor(items, productId))
    ensures CartTotal(RemoveLines(items, productId)) == CartTotal(items) - CartTotal(LinesFor(items, productId))
  {
    if |items| != 0 {
      RemoveLinesSums(items[1..], productId);
    }
  }

  function PriceOf(item: CartItem): int {
    EffectivePrice(item)
  }

  /** Setting the product's lines to `count` moves the item count by
      `count` minus the old count on each of those lines, and the total by
      the effective price times that difference. */
  lemma {:induction false} SetCountSums(items: seq<CartItem>, productId: string, count: int)
    ensures ItemCount(SetCount(items, productId, count))
            == ItemCount(items) - ItemCount(LinesFor(items, productId)) + count * |LinesFor(items, productId)|
    ensures CartTotal(SetCount(items, productId, count))
            == CartTotal(items) - CartTotal(LinesFor(items, productId))
               + count * SumBy(LinesFor(items, productId), PriceOf)
  {
    SetCountItemCount(items, productId, count);
    SetCountTotal(items, productId, count);
  }

  lemma {:induction false} SetCountItemCount(items: seq<CartItem>, productId: string, count: int)
    ensures ItemCount(SetCount(items, productId, count))
            == ItemCount(items) - ItemCount(LinesFor(items, productId)) + count * |LinesFor(items, productId)|
  {
    if |items| != 0 {
      SetCountItemCount(items[1..], productId, count);
      var rest := LinesFor(items[1..], productId);
      var t := SetCount(items, productId, count);
      assert t[1..] == SetCount(items[1..], productId, count);
      LinesForCons(items, productId);
      if LineProductId(items[0]) == productId {
        assert ([items[0]] + rest)[1..] == rest;
        MulSucc(count, |rest|);
      }
    }
  }

  lemma MulSucc(a: int, n: int)
    ensures a * (n + 1) == a * n + a
  {
  }

  lemma {:induction false} SetCountTotal(items: seq<CartItem>, productId: string, count: int)
    ensures CartTotal(SetCount(items, productId, count))
            == CartTotal(items) - CartTotal(LinesFor(items, productId))
               + count * SumBy(LinesFor(items, productId), PriceOf)
  {
    if |items| != 0 {
      SetCountTotal(items[1..], productId, count);
      var rest := LinesFor(items[1..], productId);
      var t := SetCount(items, productId, count);
      assert t[1..] == SetCount(items[1..], productId, count);
      LinesForCons(items, productId);
      if LineProductId(items[0]) == productId {
        assert EffectivePrice(t[0]) == EffectivePrice(items[0]);
        assert ([items[0]] + rest)[1..] == rest;
        assert LineTotal(t[0]) == PriceOf(items[0]) * count;
      }
    }
  }

  /** The cart after `{ ...prev, numOfCartItems, data: { ...prev.data,
      products, totalCartPrice } }`: the given lines, the two sums
      recomputed from them, every other field copied. */
  function Recompute(prev: CartResponse, products: seq<CartItem>): (r: CartResponse)
    requires prev.data.Some?
    ensures Consistent(r)
    ensures LinesOf(Some(r)) == products
    ensures Shell(r) == Shell(prev)
  {
    prev.(numOfCartItems := ItemCount(products),
          data := Some(prev.data.value.(products := Some(products),
                                        totalCartPrice := CartTotal(products))))
  }

  /** The two optimistic mutations. */
  datatype Mutation = UpdateCount(productId: string, count: int) | RemoveItem(productId: string)

  function ApplyLines(items: seq<CartItem>, m: Mutation): seq<CartItem> {
    match m
    case UpdateCount(id, count) => SetCount(items, id, count)
    case RemoveItem(id) => RemoveLines(items, id)
  }

  /** The snapshot `onMutate` publishes. A cached cart without a line list
      (or no cached cart at all) is left as it is. */
  function Optimistic(entry: Option<CartResponse>, m: Mutation): (r: Option<CartResponse>)
    ensures !HasLines(entry) ==> r == entry
    ensures HasLines(entry) ==>
              && r.Some?
              && Consistent(r.value)
              && Shell(r.value) == Shell(entry.value)
              && LinesOf(r) == ApplyLines(LinesOf(entry), m)
  {
    if HasLines(entry) then Some(Recompute(entry.value, ApplyLines(LinesOf(entry), m)))
    else entry
  }

  /** What `onMutate` returns to the later callbacks: the cart it saw. */
  datatype Context = Context(prev: Option<CartResponse>)

  datatype Outcome = Succeeded | Failed

  /** When a mutation invalidates the cached cart. */
  datatype InvalidateWhen = OnSuccess | OnSettled

  /** The cache entry after a mutation settles, and whether the cart was
      invalidated. */
  datatype Settled = Settled(entry: Option<CartResponse>, invalidated: bool)

  /** `onMutate`: save the cached cart, publish the optimistic snapshot. */
  function OnMutate(entry: Option<CartResponse>, m: Mutation): (Option<CartResponse>, Context) {
    (Optimistic(entry, m), Context(entry))
  }

  /** `onError`: `if (context?.prev) setQueryData(["cart"], context.prev)`.
      A saved cart is always an object, hence truthy; a missing one leaves
      the entry as it currently is. */
  function OnError(current: Option<CartResponse>, ctx: Context): (r: Option<CartResponse>)
    ensures ctx.prev.Some? ==> r == ctx.prev
    ensures ctx.prev.None? ==> r == current
  {
    if ctx.prev.Some? then ctx.prev else current
  }

  /** The callbacks that run once the request has an outcome. */
  function Settle(current: Option<CartResponse>, ctx: Context, outcome: Outcome,
                  when: InvalidateWhen): Settled
  {
    Settled(if outcome == Failed then OnError(current, ctx) else current,
            outcome == Succeeded || when == OnSettled)
  }

  /** A whole mutation with nothing interleaved: `onMutate`, the request,
      then its callbacks. A failure puts back exactly the cart that was
      cached before; a success leaves the optimistic snapshot until the
      refetch the invalidation triggers. */
  function RunMutation(entry: Option<CartResponse>, m: Mutation, outcome: Outcome,
                       when: InvalidateWhen): (r: Settled)
    ensures outcome == Failed ==> r.entry == entry
    ensures outcome == Succeeded && HasLines(entry) ==>
              r.entry.Some? && Consistent(r.entry.value) && LinesOf(r.entry) == ApplyLines(LinesOf(entry), m)
    ensures r.invalidated <==> outcome == Succeeded || when == OnSettled
  {
    var (published, ctx) := OnMutate(entry, m);
    Settle(published, ctx, outcome, when)
  }

  /** Rollback does not depend on what the entry holds when the error
      arrives: whatever was written in between, a saved cart comes back
      exactly, and with nothing saved the entry is not touched. */
  lemma RollbackOverridesInterleavedWrites(entry: Option<CartResponse>, m: Mutation,
                                           current: Option<CartResponse>)
    ensures entry.Some? ==> OnError(current, OnMutate(entry, m).1) == entry
    ensures entry.None? ==> OnError(current, OnMutate(entry, m).1) == current
  {
  }

  /** The cart page's quantity update: invalidates on success only. */
  const UpdateCountInvalidates := OnSuccess

  /** The cart page's removal: invalidates on settle. */
  const RemoveInvalidates := OnSettled

  /** The cart drawer's removal: invalidates on settle. */
  const DrawerRemoveInvalidates := OnSettled

  /** The cart page's `updateCount` mutation. */
  function CartPageUpdateCount(entry: Option<CartResponse>, productId: string, count: int,
                               outcome: Outcome): (r: Settled)
    ensures outcome == Failed ==> r.entry == entry && !r.invalidated
    ensures outcome == Succeeded ==> r.invalidated
    ensures outcome == Succeeded && HasLines(entry) ==>
              && r.entry.Some? && Consistent(r.entry.value)
              && Shell(r.entry.value) == Shell(entry.value)
              && |LinesOf(r.entry)| == |LinesOf(entry)|
              && forall i :: 0 <= i < |LinesOf(entry)| ==>
                   LinesOf(r.entry)[i] == (if LineProductId(LinesOf(entry)[i]) == productId
                                           then LinesOf(entry)[i].(count := count)
                                           else LinesOf(entry)[i])
  {
    RunMutation(entry, UpdateCount(productId, count), outcome, UpdateCountInvalidates)
  }

  /** The cart page's `remove` mutation. */
  function CartPageRemove(entry: Option<CartResponse>, productId: string, outcome: Outcome): (r: Settled)
    ensures r.invalidated
    ensures outcome == Failed ==> r.entry == entry
    ensures outcome == Succeeded && HasLines(entry) ==>
              && r.entry.Some? && Consistent(r.entry.value)
              && Shell(r.entry.value) == Shell(entry.value)
              && IsSubseq(LinesOf(r.entry), LinesOf(entry))
              && (forall x :: x in LinesOf(r.entry) ==> LineProductId(x) != productId)
              && (forall x :: x in LinesOf(entry) && LineProductId(x) != productId ==> x in LinesOf(r.entry))
              && |LinesOf(r.entry)| == |LinesOf(entry)| - |LinesFor(LinesOf(entry), productId)|
  {
    RunMutation(entry, RemoveItem(productId), outcome, RemoveInvalidates)
  }

  /** The cart drawer's `removeMutation`: the same snapshot and rollback
      as the page's removal, and the cart is invalidated on settle. */
  function DrawerRemove(entry: Option<CartResponse>, productId: string, outcome: Outcome): (r: Settled)
    ensures r.invalidated
    ensures outcome == Failed ==> r.entry == entry
    ensures outcome == Succeeded && HasLines(entry) ==>
              && r.entry.Some? && Consistent(r.entry.value)
              && Shell(r.entry.value) == Shell(entry.value)
              && IsSubseq(LinesOf(r.entry), LinesOf(entry))
              && (forall x :: x in LinesOf(r.entry) ==> LineProductId(x) != productId)
              && (forall x :: x in LinesOf(entry) && LineProductId(x) != productId ==> x in LinesOf(r.entry))
              && |LinesOf(r.entry)| == |LinesOf(entry)| - |LinesFor(LinesOf(entry), productId)|
              && ItemCount(LinesOf(r.entry)) == ItemCount(LinesOf(entry)) - ItemCount(LinesFor(LinesOf(entry), productId))
              && CartTotal(LinesOf(r.entry)) == CartTotal(LinesOf(entry)) - CartTotal(LinesFor(LinesOf(entry), productId))
  {
    RemoveLinesSums(LinesOf(entry), productId);
    RunMutation(entry, RemoveItem(productId), outcome, DrawerRemoveInvalidates)
  }

  /** The total a cart view shows: Σ effective price × count over the
      lines it displays (none when no cart is loaded), whatever the
      response's `totalCartPrice` says. On a snapshot this model produced
      the two agree. */
  function DisplayedTotal(cart: Option<CartResponse>): (r: int)
    ensures !HasLines(cart) ==> r == 0
    ensures HasLines(cart) ==> r == CartTotal(LinesOf(cart))
    ensures cart.Some? && Consistent(cart.value) ==> r == cart.value.data.value.totalCartPrice
  {
    CartTotal(LinesOf(cart))
  }

  /** After a fetch the shown total is summed over the back-filled lines,
      while the stored total is the one the server sent. */
  lemma ShownTotalAfterFetch(res: CartQuery.FetchResult, cache: CartQuery.QueryCache,
                             parse: string -> Option<int>)
    requires res.Received? && HasLines(res.body)
    ensures DisplayedTotal(CartQuery.FetchCart(res, cache, parse))
            == CartTotal(CartQuery.Enrich(LinesOf(res.body), cache, parse))
    ensures CartQuery.FetchCart(res, cache, parse).value.data.value.totalCartPrice
            == res.body.value.data.value.totalCartPrice
  {
  }

  /** Back-fill can move the shown total away from the stored one: a line
      of price 10 and count 1 whose product has no discounted price, in a
      cart whose stored total is 10, shows 10 before the fetch; with a
      cached discounted price of 5 for the product it shows 5 after, and
      `totalCartPrice` stays 10. */
  lemma BackfillMovesShownTotal(p: Product, parse: string -> Option<int>)
    requires p.id == Some("p1") && p.priceAfterDiscount.None?
    ensures var cart := CartResponse("success", 1, Some(CartData("c", "u", Some([CartItem(None, None, Some(p), 10, 1)]), 10, "", "")));
            var fetched := CartQuery.FetchCart(CartQuery.Received(Some(cart)), CartQuery.QueryCache(map["p1" := Num(5)], []), parse);
            && DisplayedTotal(Some(cart)) == 10
            && fetched.Some? && fetched.value.data.value.totalCartPrice == 10
            && DisplayedTotal(fetched) == 5
  {
    var line := CartItem(None, None, Some(p), 10, 1);
    var cart := CartResponse("success", 1, Some(CartData("c", "u", Some([line]), 10, "", "")));
    var cache := CartQuery.QueryCache(map["p1" := Num(5)], []);
    var fetched := CartQuery.FetchCart(CartQuery.Received(Some(cart)), cache, parse);
    assert LineProductId(line) == "p1";
    assert CartQuery.CachedPriceAfterDiscount(cache, "p1", parse) == Some(5);
    var back := CartQuery.EnrichItem(line, cache, parse);
    assert back.product == Some(p.(priceAfterDiscount := Some(5)));
    assert LinesOf(fetched) == [back];
    assert LineTotal(back) == 5;
    assert SumBy([back], LineTotal) == LineTotal(back) + SumBy([back][1..], LineTotal);
    assert [back][1..] == [];
    assert CartTotal([back]) == 5;
    assert CartTotal([line]) == 10;
  }
}
