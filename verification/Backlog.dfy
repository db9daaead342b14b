/** Backlog listings of src/daemon/backlog.rs: filter, sort, page. Lower-casing is any function. */
module Backlog {
  import opened Basics
  import Utf8

  datatype Item = Item(id: string, number: nat, title: string, body: string, status: string, priority: string,
                       source: string, assignee: Option<string>, updatedAt: nat)

  datatype Query = Query(page: nat, pageSize: nat, sortBy: string, sortDesc: bool, search: string, status: Option<string>,
                         source: Option<string>, priority: Option<string>, assignee: Option<string>)

  datatype Page = Page(items: seq<Item>, page: nat, pageSize: nat, total: nat, hasNextPage: bool)

  type Lower = string -> string

  // ----- filtering -----

  /** `needle` occurs in `text`. */
  predicate Contains(text: string, needle: string)
  {
    |needle| <= |text| && (text[..|needle|] == needle || (text != "" && Contains(text[1..], needle)))
  }

  /** One agent's id must match whole; a person's login may match in part. */
  predicate AssigneeMatches(lower: Lower, value: string, needle: string)
  {
    if |needle| >= 6 && needle[..6] == "smith:" then lower(value) == needle else Contains(lower(value), needle)
  }

  predicate Is(wanted: Option<string>, value: string) { wanted.None? || wanted.value == value }

  predicate Selected(lower: Lower, q: Query, item: Item)
  {
    var search := lower(q.search);
    && (search == "" || Contains(lower(item.title), search) || Contains(lower(item.body), search))
    && Is(q.status, item.status) && Is(q.source, item.source) && Is(q.priority, item.priority)
    && (q.assignee.Some? ==>
          item.assignee.Some? && AssigneeMatches(lower, item.assignee.value, lower(Utf8.Trim(q.assignee.value))))
  }

  function Filtered(lower: Lower, q: Query, items: seq<Item>): seq<Item>
  {
    if items == [] then []
    else
      var rest := Filtered(lower, q, items[..|items| - 1]);
      if Selected(lower, q, items[|items| - 1]) then rest + [items[|items| - 1]] else rest
  }

  // ----- ordering -----

  function PriorityRank(priority: string): nat
  {
    match priority
    case "urgent" => 4
    case "high" => 3
    case "medium" => 2
    case "low" => 1
    case _ => 0
  }

  function StatusRank(status: string): nat
  {
    match status
    case "todo" => 0
    case "in_progress" => 1
    case "waiting" => 2
    case "done" => 3
    case "cancelled" => 4
    case _ => 5
  }

  /** Keys of every column, so that one comparison serves them all. */
  type Key = seq<nat>

  function Codes(s: string): Key { seq(|s|, i requires 0 <= i < |s| => s[i] as nat) }

  /** No assignee sorts before any. */
  function SortKey(lower: Lower, sortBy: string, item: Item): Key
  {
    match sortBy
    case "title" => Codes(lower(item.title))
    case "status" => [StatusRank(item.status)]
    case "priority" => [PriorityRank(item.priority)]
    case "source" => Codes(item.source)
    case "assignee" => if item.assignee.None? then [] else [0] + Codes(item.assignee.value)
    case "number" => [item.number]
    case _ => [item.updatedAt]
  }

  /** Lexicographic: negative, zero or positive. */
  function Compare(a: Key, b: Key): int
  {
    if a == [] && b == [] then 0
    else if a == [] then -1
    else if b == [] then 1
    else if a[0] < b[0] then -1
    else if a[0] > b[0] then 1
    else Compare(a[1..], b[1..])
  }

  lemma {:induction false} CompareIsAntisymmetric(a: Key, b: Key)
    ensures Compare(a, b) == -Compare(b, a)
    ensures Compare(a, b) == 0 <==> a == b
  {
    if a != [] && b != [] {
      CompareIsAntisymmetric(a[1..], b[1..]);
      if a[0] == b[0] && a[1..] == b[1..] {
        assert a == [a[0]] + a[1..] && b == [b[0]] + b[1..];
      }
    }
  }

  lemma {:induction false} CompareIsTransitive(a: Key, b: Key, c: Key)
    requires Compare(a, b) <= 0 && Compare(b, c) <= 0
    ensures Compare(a, c) <= 0
    ensures Compare(a, b) < 0 || Compare(b, c) < 0 ==> Compare(a, c) < 0
  {
    if a != [] && b != [] && c != [] && a[0] == b[0] == c[0] {
      CompareIsTransitive(a[1..], b[1..], c[1..]);
    }
  }

  /** The order of the listing: the column, reversed on demand, then the id, never reversed. */
  function Order(lower: Lower, q: Query, a: Item, b: Item): int
  {
    var column := Compare(SortKey(lower, q.sortBy, a), SortKey(lower, q.sortBy, b));
    var directed := if q.sortDesc then -column else column;
    if directed != 0 then directed else Compare(Codes(a.id), Codes(b.id))
  }

  predicate Before(lower: Lower, q: Query, a: Item, b: Item) { Order(lower, q, a, b) < 0 }

  lemma SameCodes(a: string, b: string)
    ensures Codes(a) == Codes(b) <==> a == b
  {
    if Codes(a) == Codes(b) {
      assert |a| == |Codes(a)| == |b|;
      forall i | 0 <= i < |a|
        ensures a[i] == b[i]
      {
        assert Codes(a)[i] == Codes(b)[i];
      }
    }
  }

  lemma OrderIsTotal(lower: Lower, q: Query, a: Item, b: Item)
    ensures Order(lower, q, a, b) == -Order(lower, q, b, a)
    ensures a.id != b.id ==> Before(lower, q, a, b) || Before(lower, q, b, a)
  {
    CompareIsAntisymmetric(SortKey(lower, q.sortBy, a), SortKey(lower, q.sortBy, b));
    CompareIsAntisymmetric(Codes(a.id), Codes(b.id));
    SameCodes(a.id, b.id);
  }

  lemma OrderIsTransitive(lower: Lower, q: Query, a: Item, b: Item, c: Item)
    requires Order(lower, q, a, b) <= 0 && Order(lower, q, b, c) <= 0
    ensures Order(lower, q, a, c) <= 0
  {
    var x, y, z := SortKey(lower, q.sortBy, a), SortKey(lower, q.sortBy, b), SortKey(lower, q.sortBy, c);
    CompareIsAntisymmetric(x, y);
    CompareIsAntisymmetric(y, z);
    CompareIsAntisymmetric(x, z);
    if Compare(x, y) == 0 && Compare(y, z) == 0 {
      CompareIsTransitive(Codes(a.id), Codes(b.id), Codes(c.id));
    } else if q.sortDesc {
      CompareIsTransitive(z, y, x);
    } else {
      CompareIsTransitive(x, y, z);
    }
  }

  // ----- sorting -----

  function Inserted(lower: Lower, q: Query, x: Item, s: seq<Item>): seq<Item>
  {
    if s == [] || Order(lower, q, x, s[0]) <= 0 then [x] + s else [s[0]] + Inserted(lower, q, x, s[1..])
  }

  /** The stable sort. */
  function Sorted(lower: Lower, q: Query, items: seq<Item>): seq<Item>
  {
    if items == [] then [] else Inserted(lower, q, items[0], Sorted(lower, q, items[1..]))
  }

  predicate InOrder(lower: Lower, q: Query, s: seq<Item>)
  {
    forall i, j | 0 <= i < j < |s| :: Order(lower, q, s[i], s[j]) <= 0
  }

  lemma {:induction false} InsertedAdds(lower: Lower, q: Query, x: Item, s: seq<Item>)
    ensures multiset(Inserted(lower, q, x, s)) == multiset{x} + multiset(s)
  {
    if s != [] && Order(lower, q, x, s[0]) > 0 {
      InsertedAdds(lower, q, x, s[1..]);
      assert s == [s[0]] + s[1..];
    }
  }

  predicate NotAfter(lower: Lower, q: Query, x: Item, s: seq<Item>)
  {
    forall i | 0 <= i < |s| :: Order(lower, q, x, s[i]) <= 0
  }

  lemma InOrderCons(lower: Lower, q: Query, x: Item, s: seq<Item>)
    requires InOrder(lower, q, s) && NotAfter(lower, q, x, s)
    ensures InOrder(lower, q, [x] + s)
  {
    forall i, j | 0 <= i < j < |[x] + s|
      ensures Order(lower, q, ([x] + s)[i], ([x] + s)[j]) <= 0
    {
      assert ([x] + s)[j] == s[j - 1];
    }
  }

  lemma NotAfterHead(lower: Lower, q: Query, x: Item, s: seq<Item>)
    requires s != [] && InOrder(lower, q, s) && Order(lower, q, x, s[0]) <= 0
    ensures NotAfter(lower, q, x, s)
  {
    forall i | 0 <= i < |s|
      ensures Order(lower, q, x, s[i]) <= 0
    {
      if i > 0 {
        OrderIsTransitive(lower, q, x, s[0], s[i]);
      }
    }
  }

  lemma {:induction false} NotAfterInserted(lower: Lower, q: Query, y: Item, x: Item, s: seq<Item>)
    requires NotAfter(lower, q, y, s) && Order(lower, q, y, x) <= 0
    ensures NotAfter(lower, q, y, Inserted(lower, q, x, s))
  {
    if s != [] && Order(lower, q, x, s[0]) > 0 {
      NotAfterInserted(lower, q, y, x, s[1..]);
    }
  }

  lemma {:induction false} InsertedKeepsOrder(lower: Lower, q: Query, x: Item, s: seq<Item>)
    requires InOrder(lower, q, s)
    ensures InOrder(lower, q, Inserted(lower, q, x, s))
  {
    if s == [] {
    } else if Order(lower, q, x, s[0]) <= 0 {
      NotAfterHead(lower, q, x, s);
      InOrderCons(lower, q, x, s);
    } else {
      InsertedKeepsOrder(lower, q, x, s[1..]);
      OrderIsTotal(lower, q, x, s[0]);
      NotAfterInserted(lower, q, s[0], x, s[1..]);
      InOrderCons(lower, q, s[0], Inserted(lower, q, x, s[1..]));
    }
  }

  lemma {:induction false} SortedIsInOrder(lower: Lower, q: Query, items: seq<Item>)
    ensures InOrder(lower, q, Sorted(lower, q, items))
    ensures multiset(Sorted(lower, q, items)) == multiset(items)
  {
    if items != [] {
      SortedIsInOrder(lower, q, items[1..]);
      InsertedKeepsOrder(lower, q, items[0], Sorted(lower, q, items[1..]));
      InsertedAdds(lower, q, items[0], Sorted(lower, q, items[1..]));
      assert items == [items[0]] + items[1..];
    }
  }

  /** Each id once. */
  ghost predicate UniqueIds(items: multiset<Item>)
  {
    && (forall x <- items :: items[x] == 1)
    && (forall x, y | x in items && y in items && x.id == y.id :: x == y)
  }

  lemma TwiceCounts(s: seq<Item>, i: nat, j: nat)
    requires i < j < |s| && s[i] == s[j]
    ensures multiset(s)[s[i]] >= 2
  {
    assert s == s[..j] + [s[j]] + s[j + 1..];
    assert s[..j][i] == s[i];
    assert s[i] in multiset(s[..j]);
  }

  /** With unique ids, one ordering of the items is in order, and it is strict. */
  lemma OneOrder(lower: Lower, q: Query, s: seq<Item>, i: nat, j: nat)
    requires InOrder(lower, q, s) && UniqueIds(multiset(s)) && i < j < |s|
    ensures Before(lower, q, s[i], s[j]) && s[i].id != s[j].id
  {
    if s[i].id == s[j].id {
      assert s[i] in multiset(s) && s[j] in multiset(s);
      TwiceCounts(s, i, j);
      assert false;
    }
    OrderIsTotal(lower, q, s[i], s[j]);
  }

  lemma {:induction false} OrderIsUnique(lower: Lower, q: Query, s: seq<Item>, t: seq<Item>)
    requires InOrder(lower, q, s) && InOrder(lower, q, t) && multiset(s) == multiset(t) && UniqueIds(multiset(s))
    ensures s == t
  {
    if s == [] {
      assert |multiset(t)| == 0;
    } else {
      assert |t| == |multiset(t)| == |multiset(s)| > 0;
      SameHead(lower, q, s, t);
      TailKeeps(lower, q, s);
      TailKeeps(lower, q, t);
      OrderIsUnique(lower, q, s[1..], t[1..]);
      Rejoin(s, t);
    }
  }

  lemma Rejoin(s: seq<Item>, t: seq<Item>)
    requires s != [] && t != [] && s[0] == t[0] && s[1..] == t[1..]
    ensures s == t
  {
    assert s == [s[0]] + s[1..] && t == [t[0]] + t[1..];
  }

  lemma TailKeeps(lower: Lower, q: Query, s: seq<Item>)
    requires s != [] && InOrder(lower, q, s) && UniqueIds(multiset(s))
    ensures InOrder(lower, q, s[1..]) && UniqueIds(multiset(s[1..])) && multiset(s[1..]) == multiset(s) - multiset{s[0]}
  {
    TailOfBag(s);
    FewerAreUnique(multiset(s), multiset(s[1..]));
  }

  lemma TailOfBag(s: seq<Item>)
    requires s != []
    ensures multiset(s[1..]) == multiset(s) - multiset{s[0]}
  {
    assert s == [s[0]] + s[1..];
  }

  lemma FewerAreUnique(a: multiset<Item>, b: multiset<Item>)
    requires UniqueIds(a) && b <= a
    ensures UniqueIds(b)
  {
    assert forall x <- b :: x in a && 0 < b[x] <= a[x];
  }

  lemma SameHead(lower: Lower, q: Query, s: seq<Item>, t: seq<Item>)
    requires InOrder(lower, q, s) && InOrder(lower, q, t) && multiset(s) == multiset(t) && UniqueIds(multiset(s))
    requires s != [] && t != []
    ensures s[0] == t[0]
  {
    assert s[0] in multiset(t) && t[0] in multiset(s);
    var j :| 0 <= j < |t| && t[j] == s[0];
    var i :| 0 <= i < |s| && s[i] == t[0];
    if s[0] != t[0] {
      OneOrder(lower, q, t, 0, j);
      OneOrder(lower, q, s, 0, i);
      OrderIsTotal(lower, q, s[0], t[0]);
      assert false;
    }
  }

  lemma {:induction false} FilteredCounts(lower: Lower, q: Query, items: seq<Item>)
    ensures forall x :: multiset(Filtered(lower, q, items))[x] == if Selected(lower, q, x) then multiset(items)[x] else 0
  {
    if items != [] {
      var n := |items| - 1;
      FilteredCounts(lower, q, items[..n]);
      assert items == items[..n] + [items[n]];
    }
  }

  // ----- pages -----

  function Listing(lower: Lower, q: Query, items: seq<Item>): seq<Item>
  {
    Sorted(lower, q, Filtered(lower, q, items))
  }

  function PageSize(q: Query): (n: nat)
    ensures 1 <= n <= 100
  {
    if q.pageSize < 1 then 1 else if q.pageSize > 100 then 100 else q.pageSize
  }

  /** At most `size` items from `offset` on. */
  function Slice(all: seq<Item>, offset: nat, size: nat): seq<Item>
  {
    var from := Min(offset, |all|);
    all[from..Min(from + size, |all|)]
  }

  function PageFrom(all: seq<Item>, q: Query): Page
  {
    var size := PageSize(q);
    var offset := q.page * size;
    Page(Slice(all, offset, size), q.page, size, |all|, offset + size < |all|)
  }

  function PageOf(lower: Lower, q: Query, items: seq<Item>): Page { PageFrom(Listing(lower, q, items), q) }

  /** `page`, the vector filtered and sorted in place. */
  method TakePage(lower: Lower, items: seq<Item>, q: Query) returns (page: Page)
    ensures page == PageOf(lower, q, items)
  {
    var kept := [];
    for i := 0 to |items|
      invariant kept == Filtered(lower, q, items[..i])
    {
      assert items[..i + 1][..i] == items[..i];
      if Selected(lower, q, items[i]) {
        kept := kept + [items[i]];
      }
    }
    assert items[..|items|] == items;
    kept := SortItems(lower, q, kept);
    page := Cut(kept, q);
  }

  /** The part of a listing that the page shows. */
  method Cut(all: seq<Item>, q: Query) returns (page: Page)
    ensures page == PageFrom(all, q)
  {
    var size := PageSize(q);
    var offset := q.page * size;
    var skipped := if offset <= |all| then all[offset..] else [];
    var taken := if size <= |skipped| then skipped[..size] else skipped;
    page := Page(taken, q.page, size, |all|, offset + size < |all|);
  }

  /** The stable sort, by insertion from the back. */
  method SortItems(lower: Lower, q: Query, items: seq<Item>) returns (sorted: seq<Item>)
    ensures sorted == Sorted(lower, q, items)
  {
    sorted := [];
    var i := |items|;
    while i > 0
      invariant 0 <= i <= |items|
      invariant sorted == Sorted(lower, q, items[i..])
    {
      i := i - 1;
      assert items[i..][0] == items[i] && items[i..][1..] == items[i + 1..];
      sorted := Inserted(lower, q, items[i], sorted);
    }
    assert items[0..] == items;
  }

  /** The items of the first `n` pages, page after page. */
  function FirstPages(lower: Lower, q: Query, items: seq<Item>, n: nat): seq<Item>
  {
    Joined(ItemsOfPage(lower, q, items), n)
  }

  function ItemsOfPage(lower: Lower, q: Query, items: seq<Item>): nat -> seq<Item>
  {
    (page: nat) => PageOf(lower, q.(page := page), items).items
  }

  function Joined(pages: nat -> seq<Item>, n: nat): seq<Item>
  {
    if n == 0 then [] else Joined(pages, n - 1) + pages(n - 1)
  }

  lemma SameListing(lower: Lower, q: Query, items: seq<Item>, p: nat)
    ensures Listing(lower, q.(page := p), items) == Listing(lower, q, items)
  {
    SameFilter(lower, q, items, p);
    SameSort(lower, q, Filtered(lower, q, items), p);
  }

  lemma {:induction false} SameFilter(lower: Lower, q: Query, items: seq<Item>, p: nat)
    ensures Filtered(lower, q.(page := p), items) == Filtered(lower, q, items)
  {
    if items != [] {
      SameFilter(lower, q, items[..|items| - 1], p);
    }
  }

  lemma {:induction false} SameSort(lower: Lower, q: Query, items: seq<Item>, p: nat)
    ensures Sorted(lower, q.(page := p), items) == Sorted(lower, q, items)
  {
    if items != [] {
      SameSort(lower, q, items[1..], p);
      SameInsert(lower, q, items[0], Sorted(lower, q, items[1..]), p);
    }
  }

  lemma {:induction false} SameInsert(lower: Lower, q: Query, x: Item, s: seq<Item>, p: nat)
    ensures Inserted(lower, q.(page := p), x, s) == Inserted(lower, q, x, s)
  {
    if s != [] {
      SameInsert(lower, q, x, s[1..], p);
    }
  }

  lemma SamePage(lower: Lower, q: Query, items: seq<Item>, n: nat)
    ensures PageOf(lower, q.(page := n), items) == PageFrom(Listing(lower, q, items), q.(page := n))
  {
    SameListing(lower, q, items, n);
  }

  lemma NextOffset(n: nat, size: nat)
    ensures (n + 1) * size == n * size + size
  {
  }

  lemma Grown(all: seq<Item>, offset: nat, size: nat)
    ensures Slice(all, 0, offset) + Slice(all, offset, size) == Slice(all, 0, offset + size)
  {
  }

  /** Slices one after the other make up the front. */
  lemma {:induction false} SlicesJoin(all: seq<Item>, pages: nat -> seq<Item>, offset: nat -> nat, size: nat, n: nat)
    requires offset(0) == 0 && forall k: nat :: offset(k + 1) == offset(k) + size
    requires forall k: nat :: pages(k) == Slice(all, offset(k), size)
    ensures Joined(pages, n) == Slice(all, 0, offset(n))
  {
    if n > 0 {
      SlicesJoin(all, pages, offset, size, n - 1);
      Grown(all, offset(n - 1), size);
      assert offset((n - 1) + 1) == offset(n);
    }
  }

  function OffsetOf(size: nat): nat -> nat
  {
    (page: nat) => page * size
  }

  lemma OffsetSteps(size: nat)
    ensures OffsetOf(size)(0) == 0 && forall k: nat :: OffsetOf(size)(k + 1) == OffsetOf(size)(k) + size
  {
    forall k: nat
      ensures OffsetOf(size)(k + 1) == OffsetOf(size)(k) + size
    {
      NextOffset(k, size);
    }
  }

  lemma PageIsSlice(lower: Lower, q: Query, items: seq<Item>, n: nat)
    ensures ItemsOfPage(lower, q, items)(n) == Slice(Listing(lower, q, items), OffsetOf(PageSize(q))(n), PageSize(q))
  {
    SamePage(lower, q, items, n);
  }

  /** The first pages are the front of the listing. */
  lemma PagesAreTheListing(lower: Lower, q: Query, items: seq<Item>, n: nat)
    ensures FirstPages(lower, q, items, n) == Slice(Listing(lower, q, items), 0, OffsetOf(PageSize(q))(n))
  {
    var all, size := Listing(lower, q, items), PageSize(q);
    var pages, offset := ItemsOfPage(lower, q, items), OffsetOf(size);
    OffsetSteps(size);
    forall k: nat
      ensures pages(k) == Slice(all, offset(k), size)
    {
      PageIsSlice(lower, q, items, k);
    }
    SlicesJoin(all, pages, offset, size, n);
  }

  /** The listing holds every selected item, as often as it came, and with unique ids in strict order. */
  lemma ListingIsRight(lower: Lower, q: Query, items: seq<Item>)
    requires UniqueIds(multiset(items))
    ensures var all := Listing(lower, q, items);
            && InOrder(lower, q, all) && UniqueIds(multiset(all))
            && forall x :: multiset(all)[x] == if Selected(lower, q, x) then multiset(items)[x] else 0
  {
    var kept := Filtered(lower, q, items);
    FilteredCounts(lower, q, items);
    SortedIsInOrder(lower, q, kept);
    assert forall x :: multiset(kept)[x] <= multiset(items)[x];
    FewerAreUnique(multiset(items), multiset(kept));
  }

  /**
   * The pages together hold every selected item, each exactly once, in strict
   * order, and reading on while there is a next page misses nothing.
   */
  lemma PagesPartition(lower: Lower, q: Query, items: seq<Item>, n: nat)
    requires UniqueIds(multiset(items)) && n > 0 && !PageOf(lower, q.(page := n - 1), items).hasNextPage
    ensures var all := FirstPages(lower, q, items, n);
            && (forall x :: multiset(all)[x] == if Selected(lower, q, x) then multiset(items)[x] else 0)
            && (forall i, j | 0 <= i < j < |all| :: Before(lower, q, all[i], all[j]) && all[i].id != all[j].id)
            && |all| == PageOf(lower, q, items).total
  {
    var all, size := Listing(lower, q, items), PageSize(q);
    AllPages(lower, q, items, n);
    ListingIsRight(lower, q, items);
    forall i, j | 0 <= i < j < |all|
      ensures Before(lower, q, all[i], all[j]) && all[i].id != all[j].id
    {
      OneOrder(lower, q, all, i, j);
    }
  }

  lemma AllPages(lower: Lower, q: Query, items: seq<Item>, n: nat)
    requires n > 0 && !PageOf(lower, q.(page := n - 1), items).hasNextPage
    ensures FirstPages(lower, q, items, n) == Listing(lower, q, items)
  {
    PagesAreTheListing(lower, q, items, n);
    SamePage(lower, q, items, n - 1);
    LastReachesEnd(Listing(lower, q, items), q.(page := n - 1));
    WholeSlice(Listing(lower, q, items), OffsetOf(PageSize(q))(n));
  }

  lemma LastReachesEnd(all: seq<Item>, q: Query)
    requires !PageFrom(all, q).hasNextPage
    ensures OffsetOf(PageSize(q))(q.page + 1) >= |all|
  {
    NextOffset(q.page, PageSize(q));
  }

  lemma WholeSlice(all: seq<Item>, size: nat)
    ensures size >= |all| ==> Slice(all, 0, size) == all
  {
  }

  /** There is a next page exactly when that page has an item. */
  lemma NextPageIsNotEmpty(lower: Lower, q: Query, items: seq<Item>)
    ensures PageOf(lower, q, items).hasNextPage <==> PageOf(lower, q.(page := q.page + 1), items).items != []
  {
    SamePage(lower, q, items, q.page + 1);
    NextFrom(Listing(lower, q, items), q);
  }

  lemma NextFrom(all: seq<Item>, q: Query)
    ensures PageFrom(all, q).hasNextPage <==> PageFrom(all, q.(page := q.page + 1)).items != []
  {
    NextOffset(q.page, PageSize(q));
  }

  lemma SameBag(a: seq<Item>, b: seq<Item>)
    requires forall x :: multiset(a)[x] == multiset(b)[x]
    ensures multiset(a) == multiset(b)
  {
  }

  lemma ListingsAgree(lower: Lower, q: Query, items: seq<Item>, items': seq<Item>)
    requires UniqueIds(multiset(items)) && multiset(items) == multiset(items')
    ensures Listing(lower, q, items) == Listing(lower, q, items')
  {
    ListingIsRight(lower, q, items);
    ListingIsRight(lower, q, items');
    SameBag(Listing(lower, q, items), Listing(lower, q, items'));
    OrderIsUnique(lower, q, Listing(lower, q, items), Listing(lower, q, items'));
  }

  /** The order in which the items arrive does not matter. */
  lemma ArrivalDoesNotMatter(lower: Lower, q: Query, items: seq<Item>, items': seq<Item>)
    requires UniqueIds(multiset(items)) && multiset(items) == multiset(items')
    ensures PageOf(lower, q, items) == PageOf(lower, q, items')
  {
    ListingsAgree(lower, q, items, items');
  }
}
