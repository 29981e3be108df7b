/** The order history page: local orders and the orders the backend
    confirms, shown newest first. No attempt is made to match the two
    lists against each other. */
module OrderHistory {
  import opened Wrappers
  import opened Types

  /** An entry of the merged list. */
  datatype Entry = Local(local: LocalOrder) | Server(server: Order)

  function CreatedAt(e: Entry): int {
    match e
    case Local(o) => o.createdAt
    case Server(o) => o.createdAt
  }

  predicate SortedDesc(s: seq<Entry>) {
    forall i, j :: 0 <= i < j < |s| ==> CreatedAt(s[i]) >= CreatedAt(s[j])
  }

  /** The entries created at `t`, in order. Sorting by time is stable
      exactly when it keeps this sequence for every `t`. */
  function WithTime(s: seq<Entry>, t: int): seq<Entry> {
    if |s| == 0 then []
    else if CreatedAt(s[0]) == t then [s[0]] + WithTime(s[1..], t)
    else WithTime(s[1..], t)
  }

  lemma {:induction false} WithTimeAppend(a: seq<Entry>, b: seq<Entry>, t: int)
    ensures WithTime(a + b, t) == WithTime(a, t) + WithTime(b, t)
  {
    if |a| == 0 {
      assert a + b == b;
    } else {
      assert (a + b)[0] == a[0];
      assert (a + b)[1..] == a[1..] + b;
      WithTimeAppend(a[1..], b, t);
      if CreatedAt(a[0]) == t {
        assert WithTime(a + b, t) == [a[0]] + (WithTime(a[1..], t) + WithTime(b, t));
      }
    }
  }

  /** Insert before the first entry that is not newer: an entry goes in
      front of equally old ones that came after it in the input. */
  function Insert(x: Entry, s: seq<Entry>): seq<Entry> {
    if |s| == 0 then [x]
    else if CreatedAt(s[0]) <= CreatedAt(x) then [x] + s
    else [s[0]] + Insert(x, s[1..])
  }

  lemma {:induction false} InsertSorted(x: Entry, s: seq<Entry>)
    requires SortedDesc(s)
    ensures SortedDesc(Insert(x, s))
  {
    if |s| != 0 && CreatedAt(s[0]) > CreatedAt(x) {
      InsertSorted(x, s[1..]);
      InsertMultiset(x, s[1..]);
      var r := Insert(x, s[1..]);
      forall e | e in r ensures CreatedAt(e) <= CreatedAt(s[0]) {
        assert e in multiset(r);
        if e != x { assert e in s[1..]; }
      }
    }
  }

  lemma {:induction false} InsertMultiset(x: Entry, s: seq<Entry>)
    ensures multiset(Insert(x, s)) == multiset{x} + multiset(s)
  {
    if |s| != 0 && CreatedAt(s[0]) > CreatedAt(x) {
      InsertMultiset(x, s[1..]);
      assert s == [s[0]] + s[1..];
    }
  }

  /** Inserting `x` adds it in front of the entries sharing its
      timestamp and leaves every other timestamp's entries alone. */
  lemma {:induction false} InsertWithTime(x: Entry, s: seq<Entry>, t: int)
    ensures CreatedAt(x) == t ==> WithTime(Insert(x, s), t) == [x] + WithTime(s, t)
    ensures CreatedAt(x) != t ==> WithTime(Insert(x, s), t) == WithTime(s, t)
  {
    if |s| == 0 {
    } else if CreatedAt(s[0]) <= CreatedAt(x) {
      WithTimeCons(x, s, t);
    } else {
      InsertWithTime(x, s[1..], t);
      WithTimeCons(s[0], Insert(x, s[1..]), t);
      assert Insert(x, s) == [s[0]] + Insert(x, s[1..]);
    }
  }

  lemma WithTimeCons(e: Entry, u: seq<Entry>, t: int)
    ensures CreatedAt(e) == t ==> WithTime([e] + u, t) == [e] + WithTime(u, t)
    ensures CreatedAt(e) != t ==> WithTime([e] + u, t) == WithTime(u, t)
  {
    assert ([e] + u)[0] == e;
    assert ([e] + u)[1..] == u;
  }

  /** `[...].sort((a, b) => time(b) - time(a))` with a stable sort, as
      repeated insertion; the result is newest first and holds exactly the
      input's entries. */
  function SortDesc(s: seq<Entry>): (r: seq<Entry>)
    ensures SortedDesc(r)
    ensures multiset(r) == multiset(s)
  {
    if |s| == 0 then []
    else
      var t := SortDesc(s[1..]);
      InsertSorted(s[0], t);
      InsertMultiset(s[0], t);
      assert s == [s[0]] + s[1..];
      Insert(s[0], t)
  }

  /** The sort returns a permutation of its input, newest first, and keeps
      the input order among entries created at the same time. */
  lemma {:induction false} SortDescCorrect(s: seq<Entry>)
    ensures multiset(SortDesc(s)) == multiset(s)
    ensures SortedDesc(SortDesc(s))
    ensures forall t :: WithTime(SortDesc(s), t) == WithTime(s, t)
  {
    if |s| != 0 {
      SortDescCorrect(s[1..]);
      assert s == [s[0]] + s[1..];
      forall t ensures WithTime(SortDesc(s), t) == WithTime(s, t) {
        InsertWithTime(s[0], SortDesc(s[1..]), t);
      }
    }
  }

  /** The outcome of the backend request; a failure is caught and turned
      into an empty list, and nothing has arrived while it is pending. */
  datatype OrdersFetch = Pending | Failed | Loaded(data: Option<seq<Order>>)

  /** `data?.data ?? []` */
  function ServerOrders(f: OrdersFetch): (r: seq<Order>)
    ensures !f.Loaded? ==> r == []
    ensures f.Loaded? && f.data.Some? ==> r == f.data.value
    ensures f.Loaded? && f.data.None? ==> r == []
  {
    if f.Loaded? then f.data.GetOr([]) else []
  }

  function Locals(s: seq<LocalOrder>): (r: seq<Entry>)
    ensures |r| == |s| && forall i :: 0 <= i < |s| ==> r[i] == Local(s[i])
  {
    if |s| == 0 then [] else [Local(s[0])] + Locals(s[1..])
  }

  function Servers(s: seq<Order>): (r: seq<Entry>)
    ensures |r| == |s| && forall i :: 0 <= i < |s| ==> r[i] == Server(s[i])
  {
    if |s| == 0 then [] else [Server(s[0])] + Servers(s[1..])
  }

  /** `allOrders`: every local and every server order exactly once (no
      de-duplication), newest first; among orders created at the same
      time, local ones come first, each list in its own order. */
  function MergeOrders(local: seq<LocalOrder>, api: OrdersFetch): (r: seq<Entry>)
    ensures multiset(r) == multiset(Locals(local)) + multiset(Servers(ServerOrders(api)))
    ensures SortedDesc(r)
    ensures forall t :: WithTime(r, t) == WithTime(Locals(local), t) + WithTime(Servers(ServerOrders(api)), t)
  {
    var all := Locals(local) + Servers(ServerOrders(api));
    SortDescCorrect(all);
    MergeTies(Locals(local), Servers(ServerOrders(api)));
    SortDesc(all)
  }

  lemma MergeTies(a: seq<Entry>, b: seq<Entry>)
    ensures forall t :: WithTime(a + b, t) == WithTime(a, t) + WithTime(b, t)
  {
    forall t ensures WithTime(a + b, t) == WithTime(a, t) + WithTime(b, t) {
      WithTimeAppend(a, b, t);
    }
  }

  function Times(s: seq<Entry>): seq<int> {
    if |s| == 0 then [] else [CreatedAt(s[0])] + Times(s[1..])
  }

  /** Two local orders at 10:00 and 10:10 and a server order at 10:05 show
      as 10:10, 10:05, 10:00 (minutes since midnight). */
  lemma MergeExample(a: LocalOrder, b: LocalOrder, c: Order)
    requires a.createdAt == 600 && b.createdAt == 610 && c.createdAt == 605
    ensures Times(MergeOrders([a, b], Loaded(Some([c])))) == [610, 605, 600]
  {
    assert Locals([a, b]) == [Local(a), Local(b)];
    assert Servers([c]) == [Server(c)];
    assert [Local(a), Local(b)] + [Server(c)] == [Local(a), Local(b), Server(c)];
    SortThree(Local(a), Local(b), Server(c));
    TimesThree(Local(b), Server(c), Local(a));
  }

  lemma SortThree(x: Entry, y: Entry, z: Entry)
    requires CreatedAt(x) == 600 && CreatedAt(y) == 610 && CreatedAt(z) == 605
    ensures SortDesc([x, y, z]) == [y, z, x]
  {
    SortDescCons([z]);
    SortDescCons([y, z]);
    SortDescCons([x, y, z]);
    InsertThree(x, y, z);
  }

  lemma SortDescCons(s: seq<Entry>)
    requires |s| > 0
    ensures SortDesc(s) == Insert(s[0], SortDesc(s[1..]))
  {
  }

  lemma InsertThree(x: Entry, y: Entry, z: Entry)
    requires CreatedAt(x) == 600 && CreatedAt(y) == 610 && CreatedAt(z) == 605
    ensures Insert(z, []) == [z]
    ensures Insert(y, [z]) == [y, z]
    ensures Insert(x, [y, z]) == [y, z, x]
  {
    assert [y, z][1..] == [z];
    assert Insert(x, [z]) == [z] + Insert(x, []) == [z, x];
  }

  lemma TimesThree(x: Entry, y: Entry, z: Entry)
    ensures Times([x, y, z]) == [CreatedAt(x), CreatedAt(y), CreatedAt(z)]
  {
    var r := [x, y, z];
    assert r[1..] == [y, z] && r[1..][1..] == [z];
    assert Times([z]) == [CreatedAt(z)];
    assert Times([y, z]) == [CreatedAt(y)] + Times([z]);
  }
}
