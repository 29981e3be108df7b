/** The cart query: fetch the cart and back-fill missing discounted prices
    from product data the request cache already holds. The cache is a
    value here: the `["product", id]` entries by id, and the `["products",
    …]` list entries in the order the cache enumerates them. */
module CartQuery {
  import opened Wrappers
  import opened Types
  import opened SeqUtil
  import opened CartTotals

  /** A product as a cached list holds it: untyped JSON, so the discounted
      price may be a number, a string or anything else. */
  datatype CachedProduct = CachedProduct(id: Option<string>, altId: Option<string>,
                                         priceAfterDiscount: Scalar)

  /** One page of an infinite list; `data` is `None` unless it is an array. */
  datatype CachedPage = CachedPage(data: Option<seq<CachedProduct>>)

  /** A cached list result: a plain list has `data`, an infinite list has
      `pages`; `None` stands for "absent or not an array". */
  datatype ListEntry = ListEntry(data: Option<seq<CachedProduct>>, pages: Option<seq<CachedPage>>)

  /** `details[id]` is the `priceAfterDiscount` field of the cached
      `["product", id]` data; `lists` are the `["products", …]` entries,
      `None` for one with no data. */
  datatype QueryCache = QueryCache(details: map<string, Scalar>, lists: seq<Option<ListEntry>>)

  /** `p.id ?? p._id`, with no empty-string default. */
  function CachedKey(p: CachedProduct): Option<string> {
    if p.id.Some? then p.id else p.altId
  }

  function PageLists(pages: seq<CachedPage>): seq<seq<CachedProduct>> {
    if |pages| == 0 then []
    else (if pages[0].data.Some? then [pages[0].data.value] else []) + PageLists(pages[1..])
  }

  /** The product arrays of one list entry in the order the lookup visits
      them: `data` first, then `pages[*].data`. */
  function ListsOf(e: ListEntry): seq<seq<CachedProduct>> {
    (if e.data.Some? then [e.data.value] else []) + PageLists(e.pages.GetOr([]))
  }

  /** Every product array in the cache, in lookup order. */
  function AllLists(entries: seq<Option<ListEntry>>): seq<seq<CachedProduct>> {
    if |entries| == 0 then []
    else (if entries[0].Some? then ListsOf(entries[0].value) else []) + AllLists(entries[1..])
  }

  /** The index `list.findIndex(p => (p.id ?? p._id) === productId)`
      would return: the first product carrying the id. */
  function FindFirst(list: seq<CachedProduct>, productId: string): (r: Option<nat>)
    ensures r.None? ==> forall p :: p in list ==> CachedKey(p) != Some(productId)
    ensures r.Some? ==> && r.value < |list| && CachedKey(list[r.value]) == Some(productId)
                        && forall j :: 0 <= j < r.value ==> CachedKey(list[j]) != Some(productId)
  {
    if |list| == 0 then None
    else if CachedKey(list[0]) == Some(productId) then Some(0)
    else
      match FindFirst(list[1..], productId)
      case None => None
      case Some(i) => Some(i + 1)
  }

  /** A value the cache really holds for the product in one of its arrays. */
  ghost predicate InLists(lists: seq<seq<CachedProduct>>, productId: string, v: int,
                          parse: string -> Option<int>)
  {
    exists l, p :: l in lists && p in l && CachedKey(p) == Some(productId)
                   && AsNumber(p.priceAfterDiscount, parse) == Some(v)
  }

  lemma InListsTail(lists: seq<seq<CachedProduct>>, productId: string, v: int,
                    parse: string -> Option<int>)
    requires |lists| > 0 && InLists(lists[1..], productId, v, parse)
    ensures InLists(lists, productId, v, parse)
  {
    var l, p :| l in lists[1..] && p in l && CachedKey(p) == Some(productId)
                && AsNumber(p.priceAfterDiscount, parse) == Some(v);
    assert l in lists;
  }

  /** Position `i` holds the first product of the array carrying the id. */
  predicate FirstKeyAt(list: seq<CachedProduct>, i: int, productId: string)
    requires 0 <= i < |list|
  {
    CachedKey(list[i]) == Some(productId) && forall j :: 0 <= j < i ==> CachedKey(list[j]) != Some(productId)
  }

  /** What one array contributes: the usable price of its first product
      with the id; nothing when that product has none, even if a later one
      in the same array does, and nothing when no product carries the id. */
  function ListPrice(list: seq<CachedProduct>, productId: string, parse: string -> Option<int>): (r: Option<int>)
    ensures forall i :: 0 <= i < |list| && FirstKeyAt(list, i, productId) ==>
              r == AsNumber(list[i].priceAfterDiscount, parse)
    ensures (forall p :: p in list ==> CachedKey(p) != Some(productId)) ==> r.None?
  {
    var m := FindFirst(list, productId);
    if m.Some? then AsNumber(list[m.value].priceAfterDiscount, parse) else None
  }

  /** Visit the arrays in order; in each, the first product with the id
      decides for that array, and the first usable price is the answer. */
  function ScanLists(lists: seq<seq<CachedProduct>>, productId: string,
                     parse: string -> Option<int>): (r: Option<int>)
    ensures r.Some? ==> InLists(lists, productId, r.value, parse)
    ensures r.Some? ==> exists k :: 0 <= k < |lists| && ListPrice(lists[k], productId, parse) == r
                                    && forall j :: 0 <= j < k ==> ListPrice(lists[j], productId, parse).None?
    ensures r.None? ==> forall k :: 0 <= k < |lists| ==> ListPrice(lists[k], productId, parse).None?
  {
    if |lists| == 0 then None
    else
      var v := ListPrice(lists[0], productId, parse);
      if v.Some? then
        var m := FindFirst(lists[0], productId);
        assert m.Some? && FirstKeyAt(lists[0], m.value, productId);
        assert lists[0] in lists && lists[0][m.value] in lists[0];
        v
      else
        var r := ScanLists(lists[1..], productId, parse);
        if r.Some? then
          InListsTail(lists, productId, r.value, parse);
          ScanShift(lists, productId, parse, r);
          r
        else
          assert forall k :: 1 <= k < |lists| ==> lists[k] == lists[1..][k - 1];
          r
  }

  /** A price found in the tail, behind a first array that yields none,
      is found in the whole. */
  lemma ScanShift(lists: seq<seq<CachedProduct>>, productId: string, parse: string -> Option<int>,
                  r: Option<int>)
    requires |lists| > 0 && ListPrice(lists[0], productId, parse).None?
    requires exists k :: 0 <= k < |lists[1..]| && ListPrice(lists[1..][k], productId, parse) == r
                         && forall j :: 0 <= j < k ==> ListPrice(lists[1..][j], productId, parse).None?
    ensures exists k :: 0 <= k < |lists| && ListPrice(lists[k], productId, parse) == r
                        && forall j :: 0 <= j < k ==> ListPrice(lists[j], productId, parse).None?
  {
    var k :| 0 <= k < |lists[1..]| && ListPrice(lists[1..][k], productId, parse) == r
             && forall j :: 0 <= j < k ==> ListPrice(lists[1..][j], productId, parse).None?;
    assert lists[k + 1] == lists[1..][k];
    forall j | 0 <= j < k + 1
      ensures ListPrice(lists[j], productId, parse).None?
    {
      if j > 0 {
        assert lists[j] == lists[1..][j - 1];
      }
    }
  }

  /** The scan is decided by the earlier arrays whenever they yield a
      price, and by the later ones only otherwise. */
  lemma {:induction false} ScanListsAppend(a: seq<seq<CachedProduct>>, b: seq<seq<CachedProduct>>,
                                           productId: string, parse: string -> Option<int>)
    ensures ScanLists(a + b, productId, parse)
            == if ScanLists(a, productId, parse).Some? then ScanLists(a, productId, parse)
               else ScanLists(b, productId, parse)
  {
    if |a| == 0 {
      assert a + b == b;
    } else {
      assert (a + b)[0] == a[0];
      assert (a + b)[1..] == a[1..] + b;
      ScanListsAppend(a[1..], b, productId, parse);
    }
  }

  /** A discounted price the cache holds for the product, direct entry or list. */
  ghost predicate Observed(cache: QueryCache, productId: string, v: int, parse: string -> Option<int>) {
    || (productId in cache.details && AsNumber(cache.details[productId], parse) == Some(v))
    || InLists(AllLists(cache.lists), productId, v, parse)
  }

  /** `getCachedPriceAfterDiscount`: a usable price in the direct
      `["product", id]` entry wins; otherwise the list arrays are scanned.
      The answer is never made up: it is a price the cache holds for that
      product. */
  function CachedPriceAfterDiscount(cache: QueryCache, productId: string,
                                    parse: string -> Option<int>): (r: Option<int>)
    ensures productId in cache.details && AsNumber(cache.details[productId], parse).Some? ==>
              r == AsNumber(cache.details[productId], parse)
    ensures r.Some? ==> Observed(cache, productId, r.value, parse)
    ensures !(productId in cache.details && AsNumber(cache.details[productId], parse).Some?) ==>
              r == ScanLists(AllLists(cache.lists), productId, parse)
  {
    var direct := if productId in cache.details then AsNumber(cache.details[productId], parse) else None;
    if direct.Some? then direct else ScanLists(AllLists(cache.lists), productId, parse)
  }

  /** When no cached product anywhere carries the id, the lookup finds nothing. */
  lemma UnknownProductHasNoCachedPrice(cache: QueryCache, productId: string, parse: string -> Option<int>)
    requires productId !in cache.details
    requires forall l, p :: l in AllLists(cache.lists) && p in l ==> CachedKey(p) != Some(productId)
    ensures CachedPriceAfterDiscount(cache, productId, parse).None?
  {
  }

  /** With no usable direct entry, the first array whose first product with
      the id has a usable price decides, and an array listed later cannot
      override it. */
  lemma FirstListedPriceWins(cache: QueryCache, productId: string, parse: string -> Option<int>, k: int)
    requires !(productId in cache.details && AsNumber(cache.details[productId], parse).Some?)
    requires 0 <= k < |AllLists(cache.lists)|
    requires ListPrice(AllLists(cache.lists)[k], productId, parse).Some?
    requires forall j :: 0 <= j < k ==> ListPrice(AllLists(cache.lists)[j], productId, parse).None?
    ensures CachedPriceAfterDiscount(cache, productId, parse) == ListPrice(AllLists(cache.lists)[k], productId, parse)
  {
    var lists := AllLists(cache.lists);
    var r := ScanLists(lists, productId, parse);
    assert r.Some?;
    var k' :| 0 <= k' < |lists| && ListPrice(lists[k'], productId, parse) == r
              && forall j :: 0 <= j < k' ==> ListPrice(lists[j], productId, parse).None?;
    assert k' == k;
  }

  /** A usable first match in any array means the lookup answers. */
  lemma ListedPriceIsFound(cache: QueryCache, productId: string, parse: string -> Option<int>, k: int)
    requires 0 <= k < |AllLists(cache.lists)|
    requires ListPrice(AllLists(cache.lists)[k], productId, parse).Some?
    ensures CachedPriceAfterDiscount(cache, productId, parse).Some?
  {
  }

  /** The per-line step of the query function: a line with a product id
      and no discounted price gets the cached one, if any, spliced into its
      product; nothing else in the line changes. */
  function EnrichItem(item: CartItem, cache: QueryCache, parse: string -> Option<int>): (r: CartItem)
    ensures r.id == item.id && r.altId == item.altId && r.price == item.price && r.count == item.count
    ensures LineProductId(r) == LineProductId(item)
    ensures LineProductId(item) == "" ==> r == item
    ensures item.product.Some? && item.product.value.priceAfterDiscount.Some? ==> r == item
    ensures r != item ==>
              && item.product.Some? && item.product.value.priceAfterDiscount.None?
              && r.product.Some? && r.product.value.priceAfterDiscount.Some?
              && r.product == Some(item.product.value.(priceAfterDiscount := r.product.value.priceAfterDiscount))
              && Observed(cache, LineProductId(item), r.product.value.priceAfterDiscount.value, parse)
    ensures LineProductId(item) != "" && item.product.value.priceAfterDiscount.None? ==>
              && r.product.Some?
              && r.product.value.priceAfterDiscount == CachedPriceAfterDiscount(cache, LineProductId(item), parse)
  {
    var productId := LineProductId(item);
    if productId == "" then item
    else if item.product.value.priceAfterDiscount.Some? then item
    else
      var cached := CachedPriceAfterDiscount(cache, productId, parse);
      if cached.Some? then
        item.(product := Some(item.product.value.(priceAfterDiscount := cached)))
      else item
  }

  /** `products.map(...)` over `EnrichItem`. */
  function Enrich(items: seq<CartItem>, cache: QueryCache, parse: string -> Option<int>): (r: seq<CartItem>)
    ensures |r| == |items|
    ensures forall i :: 0 <= i < |items| ==> r[i] == EnrichItem(items[i], cache, parse)
  {
    if |items| == 0 then [] else [EnrichItem(items[0], cache, parse)] + Enrich(items[1..], cache, parse)
  }

  /** Back-fill leaves the quantities alone, so the item count is unchanged. */
  lemma {:induction false} EnrichKeepsItemCount(items: seq<CartItem>, cache: QueryCache,
                                                parse: string -> Option<int>)
    ensures ItemCount(Enrich(items, cache, parse)) == ItemCount(items)
  {
    if |items| != 0 {
      EnrichKeepsItemCount(items[1..], cache, parse);
      assert Enrich(items, cache, parse)[1..] == Enrich(items[1..], cache, parse);
    }
  }

  /** What the cart request produced. */
  datatype FetchResult = TransportError | Received(body: Option<CartResponse>)

  /** The query function: a transport failure yields `null`; a response
      without `data.products` is returned as it came; otherwise the lines
      are enriched and everything else is copied. */
  function FetchCart(res: FetchResult, cache: QueryCache, parse: string -> Option<int>): (r: Option<CartResponse>)
    ensures res.TransportError? ==> r.None?
    ensures res.Received? && !HasLines(res.body) ==> r == res.body
    ensures res.Received? && HasLines(res.body) ==>
              && r.Some? && HasLines(r)
              && Shell(r.value) == Shell(res.body.value)
              && r.value.numOfCartItems == res.body.value.numOfCartItems
              && r.value.data.value.totalCartPrice == res.body.value.data.value.totalCartPrice
              && |LinesOf(r)| == |LinesOf(res.body)|
              && (forall i :: 0 <= i < |LinesOf(r)| ==> LinesOf(r)[i] == EnrichItem(LinesOf(res.body)[i], cache, parse))
  {
    match res
    case TransportError => None
    case Received(body) =>
      if !HasLines(body) then body
      else
        var d := body.value.data.value;
        Some(body.value.(data := Some(d.(products := Some(Enrich(d.products.value, cache, parse))))))
  }
}
