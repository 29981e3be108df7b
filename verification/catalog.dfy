/** The product list page: id normalisation, de-duplication across the
    pages of an infinite list, the decision whether another page exists,
    and the free-text search over what has been loaded. */
module Catalog {
  import opened Wrappers
  import opened Types
  import opened SeqUtil
  import opened Text

  /** Products requested per page. */
  const PAGE_SIZE := 12

  /** Pagination metadata in the shape one backend returns. */
  datatype Meta = Meta(currentPage: Option<int>, nextPage: Scalar, numberOfPages: Option<int>)

  /** A page's `data` field: an array, missing or `null`, or some other value. */
  datatype PageData = Items(items: seq<Product>) | NoData | NotArray

  /** One page response, or `null`. `metadata`, `page` and `totalPages`
      are `None` when missing or of the wrong type. */
  datatype Page = NullPage
                | Page(data: PageData, metadata: Option<Meta>, page: Option<int>, totalPages: Option<int>)

  /** `lastPage?.metadata` */
  function MetaOf(p: Page): Option<Meta> {
    if p.Page? then p.metadata else None
  }

  /** `lastPage?.page` */
  function PageNo(p: Page): Option<int> {
    if p.Page? then p.page else None
  }

  /** `lastPage?.totalPages` */
  function PageCount(p: Page): Option<int> {
    if p.Page? then p.totalPages else None
  }

  /** `getProductId`: the same `id ?? _id ?? ""` key as `ProductKey`. */
  function IdOf(p: Product): string {
    ProductKey(Some(p))
  }

  /** `getPageItems`: the page's array, or nothing. */
  function PageItems(page: Page): (r: seq<Product>)
    ensures page.Page? && page.data.Items? ==> r == page.data.items
    ensures page.NullPage? || !page.data.Items? ==> r == []
  {
    if page.Page? && page.data.Items? then page.data.items else []
  }

  /** `normalizeProduct`: `id` becomes `id ?? _id ?? ""`; nothing else changes. */
  function Normalize(p: Product): (r: Product)
    ensures r.id == Some(IdOf(p))
    ensures IdOf(r) == IdOf(p)
    ensures r.(id := p.id) == p
  {
    p.(id := Some(IdOf(p)))
  }

  lemma NormalizeIdempotent(p: Product)
    ensures Normalize(Normalize(p)) == Normalize(p)
  {
  }

  /** The set of ids the products carry. */
  function Ids(s: seq<Product>): set<string> {
    set p | p in s :: IdOf(p)
  }

  predicate UniqueIds(s: seq<Product>) {
    forall i, j :: 0 <= i < j < |s| ==> IdOf(s[i]) != IdOf(s[j])
  }

  /** The first product carrying `id`. */
  function FirstWithId(s: seq<Product>, id: string): Option<Product> {
    if |s| == 0 then None
    else if IdOf(s[0]) == id then Some(s[0])
    else FirstWithId(s[1..], id)
  }

  /** The position of the first product carrying `id`; `|s|` when none does. */
  function FirstIndex(s: seq<Product>, id: string): (r: nat)
    ensures r <= |s|
  {
    if |s| == 0 then 0
    else if IdOf(s[0]) == id then 0
    else 1 + FirstIndex(s[1..], id)
  }

  /** `r` lists its products in the order in which their ids first appear
      in `items`. */
  predicate FirstOrdered(items: seq<Product>, r: seq<Product>) {
    forall i, j :: 0 <= i < j < |r| ==> FirstIndex(items, IdOf(r[i])) < FirstIndex(items, IdOf(r[j]))
  }

  /** `dedupeById` with the ids in `seen` already taken: keep a product
      when its id is non-empty and not seen yet, then mark the id seen. */
  function DedupeFrom(items: seq<Product>, seen: set<string>): (r: seq<Product>)
    ensures IsSubseq(r, items)
    ensures forall x :: x in r ==> IdOf(x) != "" && IdOf(x) !in seen
    ensures UniqueIds(r)
    ensures Ids(r) == Ids(items) - seen - {""}
    ensures forall k :: 0 <= k < |r| ==> FirstWithId(items, IdOf(r[k])) == Some(r[k])
    ensures FirstOrdered(items, r)
  {
    if |items| == 0 then []
    else
      var x := items[0];
      var id := IdOf(x);
      IdsCons(x, items[1..]);
      assert [x] + items[1..] == items;
      if id == "" || id in seen then
        var rest := DedupeFrom(items[1..], seen);
        SubseqCons(x, rest, items[1..]);
        FirstWithIdSkips(items, rest);
        OrderSkip(items, rest);
        rest
      else
        var rest := DedupeFrom(items[1..], seen + {id});
        SubseqCons(x, rest, items[1..]);
        IdsCons(x, rest);
        KeptHead(items, rest);
        OrderKeep(items, rest);
        [x] + rest
  }

  lemma IdsCons(x: Product, s: seq<Product>)
    ensures Ids([x] + s) == {IdOf(x)} + Ids(s)
  {
    assert forall p :: p in [x] + s <==> p == x || p in s;
  }

  /** A first occurrence in the tail that does not share the head's id is
      a first occurrence in the whole list. */
  lemma FirstWithIdSkips(items: seq<Product>, rest: seq<Product>)
    requires |items| > 0
    requires forall x :: x in rest ==> IdOf(x) != IdOf(items[0])
    requires forall k :: 0 <= k < |rest| ==> FirstWithId(items[1..], IdOf(rest[k])) == Some(rest[k])
    ensures forall k :: 0 <= k < |rest| ==> FirstWithId(items, IdOf(rest[k])) == Some(rest[k])
  {
    forall k | 0 <= k < |rest| ensures FirstWithId(items, IdOf(rest[k])) == Some(rest[k]) {
      assert rest[k] in rest;
    }
  }

  /** Keeping the head in front of the tail's result keeps ids unique and
      first occurrences first. */
  lemma KeptHead(items: seq<Product>, rest: seq<Product>)
    requires |items| > 0
    requires forall x :: x in rest ==> IdOf(x) != IdOf(items[0])
    requires UniqueIds(rest)
    requires forall k :: 0 <= k < |rest| ==> FirstWithId(items[1..], IdOf(rest[k])) == Some(rest[k])
    ensures UniqueIds([items[0]] + rest)
    ensures forall k :: 0 <= k < |[items[0]] + rest| ==>
              FirstWithId(items, IdOf(([items[0]] + rest)[k])) == Some(([items[0]] + rest)[k])
  {
    UniqueCons(items[0], rest);
    FirstWithIdSkips(items, rest);
    var r := [items[0]] + rest;
    assert FirstWithId(items, IdOf(items[0])) == Some(items[0]);
    forall k | 0 <= k < |r| ensures FirstWithId(items, IdOf(r[k])) == Some(r[k]) {
      if k == 0 {
        assert r[0] == items[0];
      } else {
        assert r[k] == rest[k - 1];
      }
    }
  }

  /** Products of the tail that do not share the head's id keep their
      relative first-occurrence order in the whole list. */
  lemma OrderSkip(items: seq<Product>, rest: seq<Product>)
    requires |items| > 0
    requires forall x :: x in rest ==> IdOf(x) != IdOf(items[0])
    requires FirstOrdered(items[1..], rest)
    ensures FirstOrdered(items, rest)
  {
    forall i, j | 0 <= i < j < |rest|
      ensures FirstIndex(items, IdOf(rest[i])) < FirstIndex(items, IdOf(rest[j]))
    {
      assert rest[i] in rest;
      assert rest[j] in rest;
    }
  }

  /** The head, whose id first appears at position 0, may go in front. */
  lemma OrderKeep(items: seq<Product>, rest: seq<Product>)
    requires |items| > 0
    requires forall x :: x in rest ==> IdOf(x) != IdOf(items[0])
    requires FirstOrdered(items[1..], rest)
    ensures FirstOrdered(items, [items[0]] + rest)
  {
    OrderSkip(items, rest);
    var r := [items[0]] + rest;
    forall i, j | 0 <= i < j < |r|
      ensures FirstIndex(items, IdOf(r[i])) < FirstIndex(items, IdOf(r[j]))
    {
      assert r[j] == rest[j - 1];
      if i == 0 {
        assert r[0] == items[0];
        assert rest[j - 1] in rest;
      } else {
        assert r[i] == rest[i - 1];
      }
    }
  }

  lemma UniqueCons(x: Product, rest: seq<Product>)
    requires forall y :: y in rest ==> IdOf(y) != IdOf(x)
    requires UniqueIds(rest)
    ensures UniqueIds([x] + rest)
  {
    var r := [x] + rest;
    forall i, j | 0 <= i < j < |r| ensures IdOf(r[i]) != IdOf(r[j]) {
      assert r[j] == rest[j - 1];
      if i > 0 { assert r[i] == rest[i - 1]; } else { assert rest[j - 1] in rest; }
    }
  }

  /** `dedupeById` */
  function Dedupe(items: seq<Product>): (r: seq<Product>)
    ensures IsSubseq(r, items)
    ensures forall x :: x in r ==> IdOf(x) != ""
    ensures UniqueIds(r)
    ensures Ids(r) == Ids(items) - {""}
    ensures forall k :: 0 <= k < |r| ==> FirstWithId(items, IdOf(r[k])) == Some(r[k])
    ensures FirstOrdered(items, r)
  {
    DedupeFrom(items, {})
  }

  /** A list whose ids are non-empty, distinct and unseen passes through
      unchanged. */
  lemma {:induction false} DedupeFromIdentity(items: seq<Product>, seen: set<string>)
    requires forall x :: x in items ==> IdOf(x) != "" && IdOf(x) !in seen
    requires UniqueIds(items)
    ensures DedupeFrom(items, seen) == items
  {
    if |items| != 0 {
      var id := IdOf(items[0]);
      forall x | x in items[1..] ensures IdOf(x) != "" && IdOf(x) !in seen + {id} {
        var j :| 0 <= j < |items[1..]| && items[1..][j] == x;
        assert items[j + 1] == x;
      }
      DedupeFromIdentity(items[1..], seen + {id});
    }
  }

  /** De-duplicating twice is de-duplicating once. */
  lemma DedupeIdempotent(items: seq<Product>)
    ensures Dedupe(Dedupe(items)) == Dedupe(items)
  {
    DedupeFromIdentity(Dedupe(items), {});
  }

  function Flatten(pages: seq<seq<Product>>): seq<Product> {
    if |pages| == 0 then [] else pages[0] + Flatten(pages[1..])
  }

  function PagesItems(pages: seq<Page>): seq<seq<Product>> {
    if |pages| == 0 then [] else [PageItems(pages[0])] + PagesItems(pages[1..])
  }

  /** The non-empty ids on every page before the last. */
  function PrevIds(allPages: seq<Page>): set<string> {
    var prev := if |allPages| == 0 then [] else allPages[..|allPages| - 1];
    set p | p in Flatten(PagesItems(prev)) && IdOf(p) != "" :: IdOf(p)
  }

  /** The last page brings a product whose non-empty id no earlier page had. */
  predicate HasNewItems(lastPage: Page, allPages: seq<Page>) {
    exists p :: p in PageItems(lastPage) && IdOf(p) != "" && IdOf(p) !in PrevIds(allPages)
  }

  /** `getNextPageParam`: `None` ends the list. An empty last page, or one
      with nothing new, ends it; otherwise the metadata is probed in a
      fixed order, and a full page with no usable metadata asks for page
      `allPages.length + 1`. Whenever another page is asked for, the last
      page brought something new, so a backend that keeps repeating a page
      cannot make the list load forever. */
  function NextPageParam(lastPage: Page, allPages: seq<Page>, parse: string -> Option<int>): (r: Option<int>)
    ensures r.Some? ==> |PageItems(lastPage)| > 0 && HasNewItems(lastPage, allPages)
  {
    var lastItems := PageItems(lastPage);
    if |lastItems| == 0 then None
    else if !HasNewItems(lastPage, allPages) then None
    else
      var meta := MetaOf(lastPage);
      if meta.Some? && meta.value.nextPage.Num? then Some(meta.value.nextPage.n)
      else if meta.Some? && meta.value.nextPage.Str? && parse(meta.value.nextPage.s).Some? then
        parse(meta.value.nextPage.s)
      else if meta.Some? && meta.value.currentPage.Some? && meta.value.numberOfPages.Some? then
        if meta.value.currentPage.value < meta.value.numberOfPages.value
        then Some(meta.value.currentPage.value + 1) else None
      else if PageNo(lastPage).Some? && PageCount(lastPage).Some? then
        if PageNo(lastPage).value < PageCount(lastPage).value then Some(PageNo(lastPage).value + 1) else None
      else if |lastItems| < PAGE_SIZE then None
      else Some(|allPages| + 1)
  }

  /** The order in which `NextPageParam` consults its sources, once the last
      page is known to bring something new. */
  lemma NextPagePrecedence(lastPage: Page, allPages: seq<Page>, parse: string -> Option<int>)
    requires HasNewItems(lastPage, allPages)
    ensures var r := NextPageParam(lastPage, allPages, parse);
            var meta := MetaOf(lastPage);
            && (meta.Some? && meta.value.nextPage.Num? ==> r == Some(meta.value.nextPage.n))
            && (meta.Some? && meta.value.nextPage.Str? && parse(meta.value.nextPage.s).Some? ==>
                  r == parse(meta.value.nextPage.s))
            && (meta.Some? && !meta.value.nextPage.Num? && AsNumber(meta.value.nextPage, parse).None?
                && meta.value.currentPage.Some? && meta.value.numberOfPages.Some? ==>
                  (r.Some? <==> meta.value.currentPage.value < meta.value.numberOfPages.value)
                  && (r.Some? ==> r.value == meta.value.currentPage.value + 1))
            && ((meta.None? || (AsNumber(meta.value.nextPage, parse).None?
                                && (meta.value.currentPage.None? || meta.value.numberOfPages.None?)))
                && PageNo(lastPage).Some? && PageCount(lastPage).Some? ==>
                  (r.Some? <==> PageNo(lastPage).value < PageCount(lastPage).value)
                  && (r.Some? ==> r.value == PageNo(lastPage).value + 1))
            && ((meta.None? || (AsNumber(meta.value.nextPage, parse).None?
                                && (meta.value.currentPage.None? || meta.value.numberOfPages.None?)))
                && (PageNo(lastPage).None? || PageCount(lastPage).None?) ==>
                  (r.Some? <==> |PageItems(lastPage)| >= PAGE_SIZE)
                  && (r.Some? ==> r.value == |allPages| + 1))
  {
    var p :| p in PageItems(lastPage) && IdOf(p) != "" && IdOf(p) !in PrevIds(allPages);
    assert |PageItems(lastPage)| > 0;
  }

  /** A page whose products all appeared on earlier pages ends the list,
      whatever its metadata says. */
  lemma RepeatedPageEndsList(lastPage: Page, allPages: seq<Page>, parse: string -> Option<int>)
    requires forall p :: p in PageItems(lastPage) ==> IdOf(p) == "" || IdOf(p) in PrevIds(allPages)
    ensures NextPageParam(lastPage, allPages, parse).None?
  {
  }

  /** A `null` last page, or one whose `data` is not an array, has no
      items and so ends the list. */
  lemma PageWithoutArrayEndsList(lastPage: Page, allPages: seq<Page>, parse: string -> Option<int>)
    requires lastPage.NullPage? || !lastPage.data.Items?
    ensures NextPageParam(lastPage, allPages, parse).None?
  {
  }

  /** The products in whose lower-cased title or description the
      (already lower-cased) query occurs. */
  ghost predicate Mentions(p: Product, query: string) {
    (exists i :: OccursAt(Lower(p.title), query, i)) || (exists i :: OccursAt(Lower(p.description), query, i))
  }

  function FilterMatching(products: seq<Product>, query: string): (r: seq<Product>)
    ensures IsSubseq(r, products)
    ensures forall x :: x in r <==> x in products && Mentions(x, query)
  {
    if |products| == 0 then []
    else
      var x := products[0];
      var rest := FilterMatching(products[1..], query);
      IncludesIff(Lower(x.title), query);
      IncludesIff(Lower(x.description), query);
      SubseqCons(x, rest, products[1..]);
      if Includes(Lower(x.title), query) || Includes(Lower(x.description), query) then [x] + rest
      else rest
  }

  /** The filter keeps each matching product exactly as often as the input
      holds it, and no other product. */
  lemma {:induction false} FilterMatchingCounts(products: seq<Product>, query: string)
    ensures forall x :: multiset(FilterMatching(products, query))[x]
                        == if Mentions(x, query) then multiset(products)[x] else 0
  {
    if |products| != 0 {
      var x := products[0];
      FilterMatchingCounts(products[1..], query);
      IncludesIff(Lower(x.title), query);
      IncludesIff(Lower(x.description), query);
      assert products == [x] + products[1..];
    }
  }

  /** The search step of the `products` memo: a blank query shows every
      product; otherwise exactly the products whose title or description
      contains the trimmed, lower-cased query, in their original order. */
  function Search(products: seq<Product>, searchQuery: string): (r: seq<Product>)
    ensures IsBlank(searchQuery) ==> r == products
    ensures !IsBlank(searchQuery) ==>
              && IsSubseq(r, products)
              && (forall x :: x in r <==> x in products && Mentions(x, Lower(Trim(searchQuery))))
              && (forall x :: multiset(r)[x] == if Mentions(x, Lower(Trim(searchQuery))) then multiset(products)[x] else 0)
  {
    TrimEmptyIffBlank(searchQuery);
    FilterMatchingCounts(products, Lower(Trim(searchQuery)));
    if Trim(searchQuery) == "" then products
    else FilterMatching(products, Lower(Trim(searchQuery)))
  }

  function NormalizeAll(s: seq<Product>): (r: seq<Product>)
    ensures |r| == |s|
    ensures forall i :: 0 <= i < |s| ==> r[i] == Normalize(s[i])
  {
    if |s| == 0 then [] else [Normalize(s[0])] + NormalizeAll(s[1..])
  }

  /** The memo reads each page as `(p.data ?? [])`: a `null` page, or a
      `data` that is present but not an array, makes the render throw. */
  predicate Renders(p: Page) {
    p.Page? && !p.data.NotArray?
  }

  /** Every page's array, in page order, or `None` when some page makes
      the render throw. Where it does not throw it reads exactly what
      `getPageItems` reads. */
  function RenderedItems(pages: seq<Page>): (r: Option<seq<seq<Product>>>)
    ensures r.Some? <==> forall i :: 0 <= i < |pages| ==> Renders(pages[i])
    ensures r.Some? ==> r.value == PagesItems(pages)
  {
    if |pages| == 0 then Some([])
    else if !Renders(pages[0]) then None
    else
      var rest := RenderedItems(pages[1..]);
      assert forall i :: 1 <= i < |pages| ==> pages[i] == pages[1..][i - 1];
      if rest.None? then None
      else Some([PageItems(pages[0])] + rest.value)
  }

  /** The `products` memo: every loaded page's products normalised and
      flattened, de-duplicated, then searched; `None` when a page makes the
      render throw. What it shows carries non-empty, distinct ids, each
      product with its `id` field filled in. */
  function VisibleProducts(pages: seq<Page>, searchQuery: string): (r: Option<seq<Product>>)
    ensures r.Some? <==> forall i :: 0 <= i < |pages| ==> Renders(pages[i])
    ensures r.Some? ==> UniqueIds(r.value)
    ensures r.Some? ==> forall x :: x in r.value ==> IdOf(x) != "" && x.id == Some(IdOf(x))
  {
    var lists := RenderedItems(pages);
    if lists.None? then None
    else
      var raw := NormalizeAll(Flatten(lists.value));
      var deduped := Dedupe(raw);
      var shown := Search(deduped, searchQuery);
      SubseqMembers(deduped, raw);
      if !IsBlank(searchQuery) then
        SubseqUnique(shown, deduped);
        SubseqMembers(shown, deduped);
        Some(shown)
      else Some(shown)
  }

  /** A subsequence of a list with distinct ids has distinct ids. */
  lemma {:induction false} SubseqUnique(a: seq<Product>, b: seq<Product>)
    requires IsSubseq(a, b) && UniqueIds(b)
    ensures UniqueIds(a)
    decreases |b|
  {
    if |a| != 0 {
      assert UniqueIds(b[1..]) by {
        forall i, j | 0 <= i < j < |b[1..]| ensures IdOf(b[1..][i]) != IdOf(b[1..][j]) {
          assert b[1..][i] == b[i + 1] && b[1..][j] == b[j + 1];
        }
      }
      if a[0] == b[0] && IsSubseq(a[1..], b[1..]) {
        SubseqUnique(a[1..], b[1..]);
        SubseqMembers(a[1..], b[1..]);
        forall i, j | 0 <= i < j < |a| ensures IdOf(a[i]) != IdOf(a[j]) {
          if i == 0 {
            assert a[j] == a[1..][j - 1];
            assert a[j] in b[1..];
            var k :| 0 <= k < |b[1..]| && b[1..][k] == a[j];
            assert b[k + 1] == a[j];
          } else {
            assert a[i] == a[1..][i - 1] && a[j] == a[1..][j - 1];
          }
        }
      } else {
        SubseqUnique(a, b[1..]);
      }
    }
  }

  /** A subsequence of a list in first-occurrence order is in that order. */
  lemma {:induction false} SubseqFirstOrdered(a: seq<Product>, b: seq<Product>, items: seq<Product>)
    requires IsSubseq(a, b) && FirstOrdered(items, b)
    ensures FirstOrdered(items, a)
    decreases |b|
  {
    if |a| != 0 {
      assert FirstOrdered(items, b[1..]) by {
        forall i, j | 0 <= i < j < |b[1..]|
          ensures FirstIndex(items, IdOf(b[1..][i])) < FirstIndex(items, IdOf(b[1..][j]))
        {
          assert b[1..][i] == b[i + 1] && b[1..][j] == b[j + 1];
        }
      }
      if a[0] == b[0] && IsSubseq(a[1..], b[1..]) {
        SubseqFirstOrdered(a[1..], b[1..], items);
        SubseqMembers(a[1..], b[1..]);
        forall i, j | 0 <= i < j < |a|
          ensures FirstIndex(items, IdOf(a[i])) < FirstIndex(items, IdOf(a[j]))
        {
          if i == 0 {
            assert a[j] == a[1..][j - 1];
            assert a[j] in b[1..];
            var k :| 0 <= k < |b[1..]| && b[1..][k] == a[j];
            assert b[k + 1] == a[j];
          } else {
            assert a[i] == a[1..][i - 1] && a[j] == a[1..][j - 1];
          }
        }
      } else {
        SubseqFirstOrdered(a, b[1..], items);
      }
    }
  }

  /** `dedupeById` keeps a product exactly when its id is non-empty and it
      is the first product carrying that id. */
  lemma DedupeMembers(items: seq<Product>)
    ensures forall x :: x in Dedupe(items) <==>
              x in items && IdOf(x) != "" && FirstWithId(items, IdOf(x)) == Some(x)
  {
    var r := Dedupe(items);
    SubseqMembers(r, items);
    forall x | x in r ensures FirstWithId(items, IdOf(x)) == Some(x) {
      var k :| 0 <= k < |r| && r[k] == x;
    }
    forall x | x in items && IdOf(x) != "" && FirstWithId(items, IdOf(x)) == Some(x)
      ensures x in r
    {
      assert IdOf(x) in Ids(items);
      assert IdOf(x) in Ids(r);
      var y :| y in r && IdOf(y) == IdOf(x);
      var k :| 0 <= k < |r| && r[k] == y;
    }
  }

  /** With two products of ids "A" and "B", `[a, b, a]` de-duplicates to
      `[a, b]`: the first `a` stays, in front. */
  lemma DedupeKeepsFirstInPlace(a: Product, b: Product)
    requires IdOf(a) == "A" && IdOf(b) == "B"
    ensures Dedupe([a, b, a]) == [a, b]
  {
    var items := [a, b, a];
    assert items[1..] == [b, a] && items[1..][1..] == [a] && items[1..][1..][1..] == [];
    assert DedupeFrom([a], {"A", "B"}) == [];
    assert DedupeFrom([b, a], {"A"}) == [b];
    assert {} + {IdOf(a)} == {"A"};
    assert DedupeFrom(items, {}) == [a] + [b];
  }

  /** Every loaded page's products, flattened and normalised. */
  function Loaded(pages: seq<Page>): seq<Product> {
    NormalizeAll(Flatten(PagesItems(pages)))
  }

  /** When every page renders, the catalogue shows exactly the loaded
      products that are the first with their non-empty id and, for a
      non-blank query, mention the trimmed, lower-cased query; they appear
      in the order in which their ids first appear. De-duplication comes
      before the search, so a product hidden by the query still claims its
      id. */
  lemma VisibleProductsShown(pages: seq<Page>, searchQuery: string)
    requires forall i :: 0 <= i < |pages| ==> Renders(pages[i])
    ensures VisibleProducts(pages, searchQuery).Some?
    ensures forall x :: x in VisibleProducts(pages, searchQuery).value <==>
              && x in Loaded(pages)
              && IdOf(x) != ""
              && FirstWithId(Loaded(pages), IdOf(x)) == Some(x)
              && (IsBlank(searchQuery) || Mentions(x, Lower(Trim(searchQuery))))
    ensures FirstOrdered(Loaded(pages), VisibleProducts(pages, searchQuery).value)
  {
    var raw := Loaded(pages);
    var deduped := Dedupe(raw);
    var shown := Search(deduped, searchQuery);
    assert VisibleProducts(pages, searchQuery) == Some(shown);
    DedupeMembers(raw);
    if !IsBlank(searchQuery) {
      SubseqFirstOrdered(shown, deduped, raw);
    }
  }
}
