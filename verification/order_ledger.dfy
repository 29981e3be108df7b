/** The local order ledger: checkout prepends the orders it records to a
    list kept under the "orders" key. Every operation swallows storage
    errors. */
module OrderLedger {
  import opened Wrappers
  import opened Types
  import opened Storage

  /** `getOrders`: the stored list, or the empty list when the key is
      empty or its text does not decode. It never fails. */
  function GetOrders(store: LocalStore): (r: seq<LocalOrder>)
    ensures store.orders.Holds? ==> r == store.orders.value
    ensures !store.orders.Holds? ==> r == []
  {
    Read(store.orders).GetOr([])
  }

  /** `saveOrder`: the order goes in front of what `getOrders` returns.
      `writeOk` is whether `setItem` succeeds; a failed write is swallowed
      and leaves the store as it was. No other key is touched. */
  function SaveOrder(store: LocalStore, order: LocalOrder, writeOk: bool): (r: LocalStore)
    ensures writeOk ==> GetOrders(r) == [order] + GetOrders(store)
    ensures !writeOk ==> r == store
    ensures r.token == store.token && r.user == store.user && r.theme == store.theme
  {
    if writeOk then store.(orders := Holds([order] + GetOrders(store))) else store
  }

  /** `clearOrders`: afterwards `getOrders` is empty; no other key is touched. */
  function ClearOrders(store: LocalStore): (r: LocalStore)
    ensures GetOrders(r) == []
    ensures r.token == store.token && r.user == store.user && r.theme == store.theme
  {
    store.(orders := Empty)
  }

  /** The ledger lists the most recently saved order first. */
  lemma SaveTwiceNewestFirst(store: LocalStore, first: LocalOrder, second: LocalOrder)
    ensures GetOrders(SaveOrder(SaveOrder(store, first, true), second, true))
            == [second, first] + GetOrders(store)
  {
  }

  /** Saving over text that does not decode starts a fresh list: the
      unreadable text is lost. */
  lemma SaveOverUnreadable(store: LocalStore, order: LocalOrder)
    requires store.orders.Unreadable?
    ensures GetOrders(SaveOrder(store, order, true)) == [order]
  {
  }
}
