/** What the order and the filters of a backlog listing mean, over the items' own fields. */
module BacklogOrder {
  import opened Basics
  import Utf8
  import opened Backlog

  // ----- words in their order -----

  const PRIORITIES := ["low", "medium", "high", "urgent"]
  const STATUSES := ["todo", "in_progress", "waiting", "done", "cancelled"]

  predicate AtPlace(words: seq<string>, word: string, n: nat) { n < |words| && words[n] == word }

  /** `b` is a named priority, and `a` a lower one or none. */
  ghost predicate Below(a: string, b: string)
  {
    exists n: nat :: AtPlace(PRIORITIES, b, n) && forall m: nat | AtPlace(PRIORITIES, a, m) :: m < n
  }

  /** `a` is a named status, and `b` a later one or none. */
  ghost predicate Earlier(a: string, b: string)
  {
    exists n: nat :: AtPlace(STATUSES, a, n) && forall m: nat | AtPlace(STATUSES, b, m) :: n < m
  }

  lemma PriorityPlace(word: string, n: nat)
    ensures AtPlace(PRIORITIES, word, n) <==> n < 4 && PriorityRank(word) == n + 1
  {
    assert PRIORITIES[0] == "low" && PRIORITIES[1] == "medium" && PRIORITIES[2] == "high" && PRIORITIES[3] == "urgent";
  }

  lemma StatusPlace(word: string, n: nat)
    ensures AtPlace(STATUSES, word, n) <==> n < 5 && StatusRank(word) == n
  {
    assert STATUSES[0] == "todo" && STATUSES[1] == "in_progress" && STATUSES[2] == "waiting";
    assert STATUSES[3] == "done" && STATUSES[4] == "cancelled";
  }

  lemma PriorityOrder(a: string, b: string)
    ensures PriorityRank(a) < PriorityRank(b) <==> Below(a, b)
  {
    forall n: nat
      ensures AtPlace(PRIORITIES, a, n) <==> n < 4 && PriorityRank(a) == n + 1
      ensures AtPlace(PRIORITIES, b, n) <==> n < 4 && PriorityRank(b) == n + 1
    {
      PriorityPlace(a, n);
      PriorityPlace(b, n);
    }
    if PriorityRank(b) > 0 {
      assert AtPlace(PRIORITIES, b, PriorityRank(b) - 1);
    }
    if PriorityRank(a) > 0 {
      assert AtPlace(PRIORITIES, a, PriorityRank(a) - 1);
    }
  }

  lemma StatusOrder(a: string, b: string)
    ensures StatusRank(a) < StatusRank(b) <==> Earlier(a, b)
  {
    forall n: nat
      ensures AtPlace(STATUSES, a, n) <==> n < 5 && StatusRank(a) == n
      ensures AtPlace(STATUSES, b, n) <==> n < 5 && StatusRank(b) == n
    {
      StatusPlace(a, n);
      StatusPlace(b, n);
    }
    assert StatusRank(a) < 5 ==> AtPlace(STATUSES, a, StatusRank(a));
    assert StatusRank(b) < 5 ==> AtPlace(STATUSES, b, StatusRank(b));
  }

  /** Character by character, a text before any longer one that starts with it. */
  predicate TextBefore(a: string, b: string)
  {
    exists k | 0 <= k <= |a| :: k < |b| && a[..k] == b[..k] && (k == |a| || a[k] < b[k])
  }

  lemma {:induction false} CompareCodes(a: string, b: string)
    ensures Compare(Codes(a), Codes(b)) < 0 <==> TextBefore(a, b)
  {
    if a != "" && b != "" {
      CompareCodes(a[1..], b[1..]);
      assert Codes(a)[1..] == Codes(a[1..]) && Codes(b)[1..] == Codes(b[1..]);
      if a[0] == b[0] {
        SameHead(a, b);
      }
    }
    if b != "" {
      assert a[..0] == b[..0];
    }
  }

  lemma SameHead(a: string, b: string)
    requires a != "" && b != "" && a[0] == b[0]
    ensures TextBefore(a, b) <==> TextBefore(a[1..], b[1..])
  {
    if k :| 0 <= k <= |a| && k < |b| && a[..k] == b[..k] && (k == |a| || a[k] < b[k]) {
      assert a[1..][..k - 1] == a[..k][1..] && b[1..][..k - 1] == b[..k][1..];
    }
    if k :| 0 <= k <= |a| - 1 && k < |b| - 1 && a[1..][..k] == b[1..][..k] && (k == |a| - 1 || a[1..][k] < b[1..][k]) {
      assert a[..k + 1] == [a[0]] + a[1..][..k] && b[..k + 1] == [b[0]] + b[1..][..k];
    }
  }

  // ----- columns -----

  /** `x` comes before `y` in a column: by text, by rank, by number; what is nobody's before what is somebody's. */
  ghost predicate ColumnBefore(lower: Lower, column: string, x: Item, y: Item)
  {
    match column
    case "title" => TextBefore(lower(x.title), lower(y.title))
    case "status" => Earlier(x.status, y.status)
    case "priority" => Below(x.priority, y.priority)
    case "source" => TextBefore(x.source, y.source)
    case "assignee" => y.assignee.Some? && (x.assignee.None? || TextBefore(x.assignee.value, y.assignee.value))
    case "number" => x.number < y.number
    case _ => x.updatedAt < y.updatedAt
  }

  lemma CompareOne(m: nat, n: nat)
    ensures Compare([m], [n]) < 0 <==> m < n
  {
    assert [m][1..] == [] && [n][1..] == [];
  }

  lemma CompareBehind(a: Key, b: Key)
    ensures Compare([0] + a, [0] + b) == Compare(a, b) && Compare([], [0] + b) < 0 && Compare([0] + a, []) > 0
  {
    assert ([0] + a)[1..] == a && ([0] + b)[1..] == b;
  }

  lemma ColumnOrder(lower: Lower, column: string, x: Item, y: Item)
    ensures Compare(SortKey(lower, column, x), SortKey(lower, column, y)) < 0 <==> ColumnBefore(lower, column, x, y)
  {
    if column == "title" {
      CompareCodes(lower(x.title), lower(y.title));
    } else if column == "status" {
      CompareOne(StatusRank(x.status), StatusRank(y.status));
      StatusOrder(x.status, y.status);
    } else if column == "priority" {
      CompareOne(PriorityRank(x.priority), PriorityRank(y.priority));
      PriorityOrder(x.priority, y.priority);
    } else if column == "source" {
      CompareCodes(x.source, y.source);
    } else if column == "assignee" {
      AssigneeOrder(lower, x, y);
    } else if column == "number" {
      CompareOne(x.number, y.number);
    } else {
      CompareOne(x.updatedAt, y.updatedAt);
    }
  }

  lemma AssigneeOrder(lower: Lower, x: Item, y: Item)
    ensures Compare(SortKey(lower, "assignee", x), SortKey(lower, "assignee", y)) < 0 <==>
            y.assignee.Some? && (x.assignee.None? || TextBefore(x.assignee.value, y.assignee.value))
  {
    var a, b := Or(x.assignee, ""), Or(y.assignee, "");
    CompareBehind(Codes(a), Codes(b));
    CompareCodes(a, b);
  }

  /** `x` is listed before `y`: by the column, the other way round on demand, and by id where that says nothing. */
  ghost predicate ListedBefore(lower: Lower, q: Query, x: Item, y: Item)
  {
    var first, last := if q.sortDesc then y else x, if q.sortDesc then x else y;
    || ColumnBefore(lower, q.sortBy, first, last)
    || (!ColumnBefore(lower, q.sortBy, last, first) && TextBefore(x.id, y.id))
  }

  lemma OrderIsByColumn(lower: Lower, q: Query, x: Item, y: Item)
    ensures Before(lower, q, x, y) <==> ListedBefore(lower, q, x, y)
  {
    ColumnOrder(lower, q.sortBy, x, y);
    ColumnOrder(lower, q.sortBy, y, x);
    CompareIsAntisymmetric(SortKey(lower, q.sortBy, x), SortKey(lower, q.sortBy, y));
    CompareCodes(x.id, y.id);
  }

  // ----- filters -----

  predicate HoldsAt(text: string, part: string, i: nat) { i + |part| <= |text| && text[i..i + |part|] == part }

  /** The text somewhere holds the other one. */
  ghost predicate Holds(text: string, part: string) { exists i: nat :: HoldsAt(text, part, i) }

  lemma HoldsLater(text: string, part: string, i: nat)
    requires text != "" && i > 0
    ensures HoldsAt(text, part, i) <==> HoldsAt(text[1..], part, i - 1)
  {
    if i + |part| <= |text| {
      assert text[1..][i - 1..i - 1 + |part|] == text[i..i + |part|];
    }
  }

  lemma {:induction false} ContainsHolds(text: string, part: string)
    ensures Contains(text, part) <==> Holds(text, part)
  {
    assert HoldsAt(text, part, 0) <==> |part| <= |text| && text[..|part|] == part;
    if text != "" {
      ContainsHolds(text[1..], part);
      forall i: nat | i > 0
        ensures HoldsAt(text, part, i) <==> HoldsAt(text[1..], part, i - 1)
      {
        HoldsLater(text, part, i);
      }
      if i: nat :| HoldsAt(text[1..], part, i) {
        assert HoldsAt(text, part, i + 1);
      }
      if i: nat :| HoldsAt(text, part, i) {
        assert i > 0 ==> HoldsAt(text[1..], part, i - 1);
      }
    }
  }

  /** The search is part of the title or the body; every given word is the item's own; the assignee is a part of the item's, or the same Smith. */
  ghost predicate Admits(lower: Lower, q: Query, item: Item)
  {
    && (Holds(lower(item.title), lower(q.search)) || Holds(lower(item.body), lower(q.search)))
    && (q.status.Some? ==> q.status.value == item.status)
    && (q.source.Some? ==> q.source.value == item.source)
    && (q.priority.Some? ==> q.priority.value == item.priority)
    && (q.assignee.Some? ==>
          var wanted := lower(Utf8.Trim(q.assignee.value));
          && item.assignee.Some?
          && Holds(lower(item.assignee.value), wanted)
          && ("smith:" <= wanted ==> lower(item.assignee.value) == wanted))
  }

  lemma HoldsItself(text: string)
    ensures Holds(text, text) && Holds(text, "")
  {
    assert HoldsAt(text, text, 0) && HoldsAt(text, "", 0);
  }

  lemma AssigneeIs(lower: Lower, value: string, wanted: string)
    ensures AssigneeMatches(lower, value, wanted) <==>
            Holds(lower(value), wanted) && ("smith:" <= wanted ==> lower(value) == wanted)
  {
    ContainsHolds(lower(value), wanted);
    HoldsItself(lower(value));
  }

  lemma SearchIs(text: string, body: string, search: string)
    ensures search == "" || Contains(text, search) || Contains(body, search) <==> Holds(text, search) || Holds(body, search)
  {
    ContainsHolds(text, search);
    ContainsHolds(body, search);
    HoldsItself(text);
  }

  lemma SelectedIsAdmitted(lower: Lower, q: Query, item: Item)
    ensures Selected(lower, q, item) <==> Admits(lower, q, item)
  {
    SearchIs(lower(item.title), lower(item.body), lower(q.search));
    if q.assignee.Some? && item.assignee.Some? {
      AssigneeIs(lower, item.assignee.value, lower(Utf8.Trim(q.assignee.value)));
    }
  }

  // ----- a listing, page by page -----

  /**
   * Reading the pages while there is a next one yields the admitted items, each
   * as often as it is there, in the order of the column.
   */
  lemma ListingIsByColumn(lower: Lower, q: Query, items: seq<Item>, n: nat)
    requires UniqueIds(multiset(items)) && n > 0 && !PageOf(lower, q.(page := n - 1), items).hasNextPage
    ensures var all := FirstPages(lower, q, items, n);
            && (forall x :: multiset(all)[x] == if Admits(lower, q, x) then multiset(items)[x] else 0)
            && (forall i, j | 0 <= i < j < |all| :: ListedBefore(lower, q, all[i], all[j]))
  {
    PagesPartition(lower, q, items, n);
    var all := FirstPages(lower, q, items, n);
    forall x
      ensures Selected(lower, q, x) <==> Admits(lower, q, x)
    {
      SelectedIsAdmitted(lower, q, x);
    }
    forall i, j | 0 <= i < j < |all|
      ensures ListedBefore(lower, q, all[i], all[j])
    {
      OrderIsByColumn(lower, q, all[i], all[j]);
    }
  }

  /** A page but the last is full, with as many items as asked for, between 1 and 100. */
  lemma PagesAreFull(lower: Lower, q: Query, items: seq<Item>)
    ensures var p := PageOf(lower, q, items);
            && p.page == q.page && 1 <= p.pageSize <= 100 && |p.items| <= p.pageSize
            && (1 <= q.pageSize <= 100 ==> p.pageSize == q.pageSize)
            && (q.pageSize > 100 ==> p.pageSize == 100)
            && (p.hasNextPage ==> |p.items| == p.pageSize)
  {
  }
}
