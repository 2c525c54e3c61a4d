/**
  The triage view of the correspondence list: every item falls into one due-date group and
  may carry an urgency badge; the list is narrowed by a search box and four select filters;
  the remaining items are bucketed by group, each bucket sorted by due date in place, and the
  non-empty buckets are shown in a fixed order.

  The number of whole days until a due date comes from the clock; here it is the parameter
  `daysUntil`, one function of the due date for one fixed current instant.
*/
module ListView {
  import opened Wrappers
  import opened Js
  import opened Sorting
  import Schema
  import Queries
  import DateUtils

  /** An item as the list receives it: the enum columns arrive as their labels. */
  datatype Item = Item(
    id: int,
    referenceNumber: string,
    subject: string,
    senderName: string,
    kind: string,
    priority: string,
    status: string,
    dueDate: int)

  /** The item the server hands the list for one listed row. */
  function ItemOf(l: Queries.Listed): (it: Item)
    ensures it.status == Schema.StatusName(l.row.status) && it.dueDate == l.row.dueDate
  {
    Item(l.row.id, l.row.referenceNumber, l.row.subject, l.row.senderName,
      Schema.TypeName(l.row.kind), Schema.PriorityName(l.row.priority), Schema.StatusName(l.row.status),
      l.row.dueDate)
  }

  // ---------------------------------------------------------------------------
  // Due groups and badges

  datatype DueGroup = Overdue | ThisWeek | ThisMonth | Beyond | Completed

  /** `getDueGroup`: completed items are `Completed` whatever their due date; every other item
      is placed by its day count alone. */
  function DueGroupFor(status: string, days: int): (g: DueGroup)
    ensures g == Completed <==> status == "completed"
    ensures status != "completed" ==>
      && (g == Overdue <==> days < 0)
      && (g == ThisWeek <==> 0 <= days <= 7)
      && (g == ThisMonth <==> 8 <= days <= 30)
      && (g == Beyond <==> days > 30)
  {
    if status == "completed" then Completed
    else if days < 0 then Overdue
    else if days <= 7 then ThisWeek
    else if days <= 30 then ThisMonth
    else Beyond
  }

  function GroupOf(item: Item, daysUntil: int -> int): (g: DueGroup)
    ensures g == Completed <==> item.status == "completed"
    ensures g == Overdue ==> daysUntil(item.dueDate) < 0
    ensures item.status != "completed" && daysUntil(item.dueDate) < 0 ==> g == Overdue
  {
    DueGroupFor(item.status, daysUntil(item.dueDate))
  }

  /** The status column does not influence the group except through `completed`: an item
      marked `overdue` whose due date is still ahead is not in the overdue group. */
  lemma OnlyCompletedStatusMatters(s1: string, s2: string, days: int)
    requires s1 != "completed" && s2 != "completed"
    ensures DueGroupFor(s1, days) == DueGroupFor(s2, days)
    ensures days >= 0 ==> DueGroupFor("overdue", days) != Overdue
  {
  }

  /** The key of a group, as the `dueGroup` filter names it. */
  function GroupKey(g: DueGroup): string {
    match g
    case Overdue => "overdue"
    case ThisWeek => "this_week"
    case ThisMonth => "this_month"
    case Beyond => "beyond"
    case Completed => "completed"
  }

  /** The heading of a group. */
  function GroupLabel(g: DueGroup): string {
    match g
    case Overdue => "Overdue"
    case ThisWeek => "Due Within 1 Week"
    case ThisMonth => "Due Within 1 Month"
    case Beyond => "Due Beyond 1 Month"
    case Completed => "Completed"
  }

  /** `GROUP_ORDER` */
  const GroupOrder: seq<DueGroup> := [Overdue, ThisWeek, ThisMonth, Beyond, Completed]

  /** The order names every group exactly once, and groups have distinct keys and headings. */
  lemma GroupOrderIsComplete()
    ensures forall g :: g in GroupOrder
    ensures forall i, j :: 0 <= i < j < |GroupOrder| ==> GroupOrder[i] != GroupOrder[j]
    ensures forall g, h :: GroupKey(g) == GroupKey(h) ==> g == h
    ensures forall g, h :: GroupLabel(g) == GroupLabel(h) ==> g == h
  {
    forall g ensures g in GroupOrder {
      match g
      case Overdue => assert GroupOrder[0] == g;
      case ThisWeek => assert GroupOrder[1] == g;
      case ThisMonth => assert GroupOrder[2] == g;
      case Beyond => assert GroupOrder[3] == g;
      case Completed => assert GroupOrder[4] == g;
    }
  }

  datatype BadgeColor = Destructive | Orange | Yellow

  /** An urgency badge: its text and its colour. */
  datatype Badge = Badge(text: string, color: BadgeColor)

  /** `getDueBadge`: none for completed items and for more than a week left. */
  function DueBadgeFor(status: string, days: int): (b: Option<Badge>)
    ensures status == "completed" ==> b.None?
    ensures status != "completed" ==>
      && (days < 0 ==> b == Some(Badge("Overdue", Destructive)))
      && (days == 0 ==> b == Some(Badge("Due today", Destructive)))
      && (1 <= days <= 3 ==> b == Some(Badge(IntToString(days) + "d left", Orange)))
      && (4 <= days <= 7 ==> b == Some(Badge(IntToString(days) + "d left", Yellow)))
      && (days > 7 ==> b.None?)
  {
    if status == "completed" then None
    else if days < 0 then Some(Badge("Overdue", Destructive))
    else if days == 0 then Some(Badge("Due today", Destructive))
    else if days <= 3 then Some(Badge(IntToString(days) + "d left", Orange))
    else if days <= 7 then Some(Badge(IntToString(days) + "d left", Yellow))
    else None
  }

  /** An item has a badge exactly when it sits in the overdue group or the one-week group. */
  lemma BadgeIffUrgentGroup(status: string, days: int)
    ensures DueBadgeFor(status, days).Some? <==> DueGroupFor(status, days) in {Overdue, ThisWeek}
    ensures DueBadgeFor(status, days).Some? && DueBadgeFor(status, days).value.color == Destructive
      <==> DueGroupFor(status, days) == Overdue || (status != "completed" && days == 0)
  {
  }

  /** With the day count of the date helpers, an item due a moment ago is past due, yet it is
      grouped as due this week and badged "Due today". */
  lemma PastDueTodayNotInOverdueGroup(now: int)
    ensures DateUtils.IsOverdue(now - 1, now)
    ensures DueGroupFor("pending", DateUtils.DaysUntilDue(now - 1, now)) == ThisWeek
    ensures DueBadgeFor("pending", DateUtils.DaysUntilDue(now - 1, now)) == Some(Badge("Due today", Destructive))
  {
    DateUtils.DaysUntilDueAndIsOverdue(now - 1, now);
  }

  /** `getPriorityBadge`: the four enum labels get their display names, anything else is shown
      as it is. */
  function PriorityBadgeText(priority: string): (t: string)
    ensures priority !in Schema.PriorityLabels ==> t == priority
  {
    match priority
    case "urgent" => "Urgent"
    case "high" => "High"
    case "normal" => "Normal"
    case "low" => "Low"
    case _ => priority
  }

  /** `getStatusBadge` */
  function StatusBadgeText(status: string): (t: string)
    ensures status !in Schema.StatusLabels ==> t == status
  {
    match status
    case "pending" => "Pending"
    case "in_progress" => "In Progress"
    case "completed" => "Completed"
    case "overdue" => "Overdue"
    case _ => status
  }

  /** Distinct enum values are shown with distinct badge texts. */
  lemma BadgeTextsDistinct(p: Schema.Priority, q: Schema.Priority, s: Schema.Status, t: Schema.Status)
    ensures PriorityBadgeText(Schema.PriorityName(p)) == PriorityBadgeText(Schema.PriorityName(q)) ==> p == q
    ensures StatusBadgeText(Schema.StatusName(s)) == StatusBadgeText(Schema.StatusName(t)) ==> s == t
  {
  }

  // ---------------------------------------------------------------------------
  // Filters

  /** The filter state; `kind` is the `type` select. */
  datatype Filters = Filters(search: string, status: string, priority: string, kind: string, dueGroup: string)

  const InitialFilters: Filters := Filters("", "all", "all", "all", "all")

  /** Search hit: the lower-cased query occurs in the lower-cased subject, sender name or
      reference number. */
  predicate SearchHit(q: string, item: Item) {
    Includes(ToLower(item.subject), q) || Includes(ToLower(item.senderName), q)
    || Includes(ToLower(item.referenceNumber), q)
  }

  function Searching(q: string): Item -> bool {
    (item: Item) => SearchHit(q, item)
  }

  function StatusIs(s: string): Item -> bool {
    (item: Item) => item.status == s
  }

  function PriorityIs(p: string): Item -> bool {
    (item: Item) => item.priority == p
  }

  function KindIs(k: string): Item -> bool {
    (item: Item) => item.kind == k
  }

  function GroupIs(key: string, daysUntil: int -> int): Item -> bool {
    (item: Item) => GroupKey(GroupOf(item, daysUntil)) == key
  }

  /** `filteredData`: each active filter narrows the list in turn. */
  function FilteredData(items: seq<Item>, f: Filters, daysUntil: int -> int): (r: seq<Item>)
    ensures |r| <= |items|
    ensures forall x :: x in r ==> x in items
    ensures f.status != "all" ==> forall x :: x in r ==> x.status == f.status
  {
    var s1 := if f.search != "" then Filter(items, Searching(ToLower(f.search))) else items;
    var s2 := if f.status != "all" then Filter(s1, StatusIs(f.status)) else s1;
    var s3 := if f.priority != "all" then Filter(s2, PriorityIs(f.priority)) else s2;
    var s4 := if f.kind != "all" then Filter(s3, KindIs(f.kind)) else s3;
    if f.dueGroup != "all" then Filter(s4, GroupIs(f.dueGroup, daysUntil)) else s4
  }

  /** An item passes the filters: every active one accepts it. */
  predicate Passes(f: Filters, daysUntil: int -> int, item: Item) {
    && (f.search != "" ==> SearchHit(ToLower(f.search), item))
    && (f.status != "all" ==> item.status == f.status)
    && (f.priority != "all" ==> item.priority == f.priority)
    && (f.kind != "all" ==> item.kind == f.kind)
    && (f.dueGroup != "all" ==> GroupKey(GroupOf(item, daysUntil)) == f.dueGroup)
  }

  function PassesFilters(f: Filters, daysUntil: int -> int): Item -> bool {
    (item: Item) => Passes(f, daysUntil, item)
  }

  /** The chain of filters is one filter by `Passes`. */
  lemma FilteredDataIsOneFilter(items: seq<Item>, f: Filters, daysUntil: int -> int)
    ensures FilteredData(items, f, daysUntil) == Filter(items, PassesFilters(f, daysUntil))
  {
    var q := ToLower(f.search);
    var p1: Item -> bool := (item: Item) => f.search != "" ==> SearchHit(q, item);
    var p2: Item -> bool := (item: Item) => p1(item) && (f.status != "all" ==> item.status == f.status);
    var p3: Item -> bool := (item: Item) => p2(item) && (f.priority != "all" ==> item.priority == f.priority);
    var p4: Item -> bool := (item: Item) => p3(item) && (f.kind != "all" ==> item.kind == f.kind);
    var s1 := if f.search != "" then Filter(items, Searching(q)) else items;
    var s2 := if f.status != "all" then Filter(s1, StatusIs(f.status)) else s1;
    var s3 := if f.priority != "all" then Filter(s2, PriorityIs(f.priority)) else s2;
    var s4 := if f.kind != "all" then Filter(s3, KindIs(f.kind)) else s3;
    if f.search != "" {
      FilterExtensional(items, Searching(q), p1);
    } else {
      FilterKeepsAll(items, p1);
    }
    assert s1 == Filter(items, p1);
    StepFilter(items, p1, f.status != "all", StatusIs(f.status), p2);
    StepFilter(items, p2, f.priority != "all", PriorityIs(f.priority), p3);
    StepFilter(items, p3, f.kind != "all", KindIs(f.kind), p4);
    StepFilter(items, p4, f.dueGroup != "all", GroupIs(f.dueGroup, daysUntil), PassesFilters(f, daysUntil));
  }

  /** One stage of the chain: applying `q` when `active` (and nothing otherwise) after
      filtering by `p` is filtering by `both`. */
  lemma StepFilter(items: seq<Item>, p: Item -> bool, active: bool, q: Item -> bool, both: Item -> bool)
    requires forall x :: both(x) == (p(x) && (active ==> q(x)))
    ensures (if active then Filter(Filter(items, p), q) else Filter(items, p)) == Filter(items, both)
  {
    if active {
      FilterFilter(items, p, q, both);
    } else {
      FilterExtensional(items, p, both);
    }
  }

  /** Filtering keeps exactly the items that pass, in their original order. */
  lemma FilteredDataSpec(items: seq<Item>, f: Filters, daysUntil: int -> int)
    ensures var r := FilteredData(items, f, daysUntil);
      && IsSubsequence(r, items)
      && (forall x :: x in r <==> x in items && Passes(f, daysUntil, x))
  {
    FilteredDataIsOneFilter(items, f, daysUntil);
    FilterIsSubsequence(items, PassesFilters(f, daysUntil));
  }

  /** With every select on "all" and an empty search the list is shown unchanged. */
  lemma InitialFiltersKeepEverything(items: seq<Item>, daysUntil: int -> int)
    ensures FilteredData(items, InitialFilters, daysUntil) == items
  {
  }

  /** The search ignores the case of the query: typing it in lower case shows the same list. */
  lemma SearchIgnoresQueryCase(items: seq<Item>, f: Filters, daysUntil: int -> int)
    ensures FilteredData(items, f.(search := ToLower(f.search)), daysUntil) == FilteredData(items, f, daysUntil)
  {
    ToLowerIdempotent(f.search);
  }

  lemma ToLowerIdempotent(s: string)
    ensures ToLower(ToLower(s)) == ToLower(s)
  {
    var t := ToLower(s);
    assert forall i :: 0 <= i < |t| ==> LowerChar(t[i]) == t[i];
  }

  /** A search hit means the query occurs, at some position, in one of the three fields. */
  lemma SearchHitIsSubstring(q: string, item: Item)
    ensures SearchHit(q, item) <==>
      (exists i :: OccursAt(ToLower(item.subject), q, i))
      || (exists i :: OccursAt(ToLower(item.senderName), q, i))
      || (exists i :: OccursAt(ToLower(item.referenceNumber), q, i))
  {
    IncludesIff(ToLower(item.subject), q);
    IncludesIff(ToLower(item.senderName), q);
    IncludesIff(ToLower(item.referenceNumber), q);
  }

  // ---------------------------------------------------------------------------
  // Grouping

  function InGroup(g: DueGroup, daysUntil: int -> int): Item -> bool {
    (item: Item) => GroupOf(item, daysUntil) == g
  }

  /** The items of `s` in group `g`, in their order in `s`. */
  function Bucket(s: seq<Item>, g: DueGroup, daysUntil: int -> int): seq<Item> {
    Filter(s, InGroup(g, daysUntil))
  }

  /** The comparator `(a, b) => a.dueDate - b.dueDate`, as "a may stay before b". */
  predicate DueLe(a: Item, b: Item) {
    a.dueDate <= b.dueDate
  }

  lemma DueLeTotalPreorder()
    ensures TotalPreorder(DueLe)
  {
  }

  /** Insertion places `x` right after the last element it may follow, with every element
      due later than `x` after it. */
  lemma {:induction false} InsertLandsAt(sorted: seq<Item>, j: nat, x: Item)
    requires j <= |sorted| && (j == 0 || DueLe(sorted[j - 1], x))
    requires forall k :: j <= k < |sorted| ==> !DueLe(sorted[k], x)
    ensures Insert(sorted, x, DueLe) == sorted[..j] + [x] + sorted[j..]
    decreases |sorted|
  {
    if j < |sorted| {
      var init, last := sorted[..|sorted| - 1], sorted[|sorted| - 1];
      assert !DueLe(last, x);
      assert Insert(sorted, x, DueLe) == Insert(init, x, DueLe) + [last];
      InsertLandsAt(init, j, x);
      SplitAtLast(sorted, j);
      AppendAssociates(sorted[..j] + [x], init[j..], [last]);
    } else {
      assert sorted[..j] == sorted;
    }
  }

  lemma SplitAtLast(s: seq<Item>, j: nat)
    requires j < |s|
    ensures s[..|s| - 1][..j] == s[..j]
    ensures s[j..] == s[..|s| - 1][j..] + [s[|s| - 1]]
  {
  }

  lemma AppendAssociates(a: seq<Item>, b: seq<Item>, c: seq<Item>)
    ensures a + b + c == a + (b + c)
  {
  }

  /** One pass of the sort: `a[i]` moves left past every element of the sorted prefix
      `a[..i]` that is due later, so it lands behind those due at the same instant. */
  method InsertInto(a: array<Item>, i: nat)
    requires i < a.Length
    modifies a
    ensures a[..i + 1] == Insert(old(a[..i]), old(a[i]), DueLe)
    ensures a[i + 1..] == old(a[i + 1..])
  {
    ghost var sorted := a[..i];
    var x := a[i];
    var j := i;
    while j > 0 && !DueLe(a[j - 1], x)
      invariant 0 <= j <= i
      invariant forall k :: 0 <= k < j ==> a[k] == sorted[k]
      invariant forall k :: j < k <= i ==> a[k] == sorted[k - 1]
      invariant forall k :: i < k < a.Length ==> a[k] == old(a[k])
      invariant forall k :: j <= k < i ==> !DueLe(sorted[k], x)
    {
      a[j] := a[j - 1];
      j := j - 1;
    }
    InsertLandsAt(sorted, j, x);
    a[j] := x;
    InsertedShape(a[..], sorted, j, x);
    SameSuffix(a[..], old(a[..]), i + 1);
  }

  /** The array after one pass, read as a sequence. */
  lemma InsertedShape(cur: seq<Item>, sorted: seq<Item>, j: nat, x: Item)
    requires j <= |sorted| < |cur|
    requires forall k :: 0 <= k < j ==> cur[k] == sorted[k]
    requires cur[j] == x
    requires forall k :: j < k <= |sorted| ==> cur[k] == sorted[k - 1]
    ensures cur[..|sorted| + 1] == sorted[..j] + [x] + sorted[j..]
  {
  }

  lemma SameSuffix(cur: seq<Item>, prev: seq<Item>, from: nat)
    requires |cur| == |prev| && from <= |cur|
    requires forall k :: from <= k < |cur| ==> cur[k] == prev[k]
    ensures cur[from..] == prev[from..]
  {
  }

  lemma InsertionSortSnoc<T(!new)>(s: seq<T>, k: nat, le: (T, T) -> bool)
    requires k < |s|
    ensures InsertionSort(s[..k + 1], le) == Insert(InsertionSort(s[..k], le), s[k], le)
  {
    assert s[..k + 1][..k] == s[..k];
  }

  /** `groups[key].sort(...)`: a stable in-place sort by due date. */
  method SortByDueDate(a: array<Item>)
    modifies a
    ensures a[..] == InsertionSort(old(a[..]), DueLe)
  {
    ghost var input := a[..];
    var i := 0;
    while i < a.Length
      invariant 0 <= i <= a.Length
      invariant a[..i] == InsertionSort(input[..i], DueLe)
      invariant a[i..] == input[i..]
    {
      ghost var prefix, rest := a[..i], a[i + 1..];
      assert a[i] == input[i] && rest == input[i + 1..] by {
        assert a[i..][0] == a[i] && a[i..][1..] == rest;
      }
      InsertInto(a, i);
      InsertionSortSnoc(input, i, DueLe);
      i := i + 1;
    }
    assert input[..a.Length] == input;
  }

  /** The `forEach` of `groupedData`: every filtered item pushed, in order, onto the list of
      its group. */
  method PushIntoGroups(filtered: seq<Item>, daysUntil: int -> int) returns (groups: map<DueGroup, seq<Item>>)
    ensures forall g :: g in groups && groups[g] == Bucket(filtered, g, daysUntil)
  {
    groups := map[Overdue := [], ThisWeek := [], ThisMonth := [], Beyond := [], Completed := []];
    forall g ensures g in groups && groups[g] == Bucket(filtered[..0], g, daysUntil) {
      assert filtered[..0] == [];
      match g
      case Overdue =>
      case ThisWeek =>
      case ThisMonth =>
      case Beyond =>
      case Completed =>
    }
    var i := 0;
    while i < |filtered|
      invariant 0 <= i <= |filtered|
      invariant forall g :: g in groups && groups[g] == Bucket(filtered[..i], g, daysUntil)
    {
      var item := filtered[i];
      var g := GroupOf(item, daysUntil);
      assert filtered[..i + 1] == filtered[..i] + [item];
      forall h ensures Bucket(filtered[..i + 1], h, daysUntil) ==
        Bucket(filtered[..i], h, daysUntil) + (if GroupOf(item, daysUntil) == h then [item] else [])
      {
        FilterSnoc(filtered[..i], item, InGroup(h, daysUntil));
      }
      groups := groups[g := groups[g] + [item]];
      i := i + 1;
    }
    assert filtered[..i] == filtered;
  }

  /** `groups[key].sort(...)` on the list of one group. */
  method SortGroup(groups: map<DueGroup, seq<Item>>, key: DueGroup) returns (groups': map<DueGroup, seq<Item>>)
    requires key in groups
    ensures groups' == groups[key := InsertionSort(groups[key], DueLe)]
  {
    var list := groups[key];
    var a := new Item[|list|](j requires 0 <= j < |list| => list[j]);
    assert a[..] == list;
    SortByDueDate(a);
    groups' := groups[key := a[..]];
  }

  /** `groupedData`: the filtered items pushed onto their groups' lists, then each list, in
      `GROUP_ORDER`, sorted by due date. */
  method GroupedData(filtered: seq<Item>, daysUntil: int -> int) returns (groups: map<DueGroup, seq<Item>>)
    ensures forall g :: g in groups && groups[g] == InsertionSort(Bucket(filtered, g, daysUntil), DueLe)
  {
    groups := PushIntoGroups(filtered, daysUntil);
    PositionInGroupOrder();
    var k := 0;
    while k < |GroupOrder|
      invariant 0 <= k <= |GroupOrder|
      invariant forall g :: g in groups && groups[g] == Stage(filtered, g, daysUntil, Position(g) < k)
    {
      var key := GroupOrder[k];
      StageAdvance(filtered, daysUntil, groups, k);
      groups := SortGroup(groups, key);
      k := k + 1;
    }
  }

  /** Sorting the list of the `k`-th group of `GROUP_ORDER` moves it, and only it, to its
      sorted stage. */
  lemma StageAdvance(filtered: seq<Item>, daysUntil: int -> int, groups: map<DueGroup, seq<Item>>, k: nat)
    requires k < |GroupOrder|
    requires forall g :: g in groups && groups[g] == Stage(filtered, g, daysUntil, Position(g) < k)
    ensures var groups' := groups[GroupOrder[k] := InsertionSort(groups[GroupOrder[k]], DueLe)];
      forall g :: g in groups' && groups'[g] == Stage(filtered, g, daysUntil, Position(g) < k + 1)
  {
    var key := GroupOrder[k];
    var groups' := groups[key := InsertionSort(groups[key], DueLe)];
    PositionInGroupOrder();
    assert Position(key) == k;
    forall g ensures g in groups' && groups'[g] == Stage(filtered, g, daysUntil, Position(g) < k + 1) {
      if g != key {
        assert Position(g) != k;
      }
    }
  }

  /** Where a group stands in `GROUP_ORDER`. */
  function Position(g: DueGroup): (k: nat)
    ensures k < |GroupOrder| && GroupOrder[k] == g
  {
    match g
    case Overdue => 0
    case ThisWeek => 1
    case ThisMonth => 2
    case Beyond => 3
    case Completed => 4
  }

  lemma PositionInGroupOrder()
    ensures forall k :: 0 <= k < |GroupOrder| ==> Position(GroupOrder[k]) == k
  {
  }

  /** A group's list before (`sorted` false) and after its sort. */
  function Stage(filtered: seq<Item>, g: DueGroup, daysUntil: int -> int, sorted: bool): seq<Item> {
    if sorted then InsertionSort(Bucket(filtered, g, daysUntil), DueLe) else Bucket(filtered, g, daysUntil)
  }

  /** Each filtered item is in the bucket of its own group and in no other. */
  lemma BucketMembership(filtered: seq<Item>, daysUntil: int -> int, item: Item, g: DueGroup)
    requires item in filtered
    ensures item in Bucket(filtered, g, daysUntil) <==> GroupOf(item, daysUntil) == g
  {
  }

  /** The five buckets together hold the filtered items, each as often as it occurs. */
  lemma {:induction false} BucketsPartition(filtered: seq<Item>, daysUntil: int -> int)
    ensures AllBuckets(filtered, daysUntil) == multiset(filtered)
  {
    if filtered != [] {
      var init, last := filtered[..|filtered| - 1], filtered[|filtered| - 1];
      assert filtered == init + [last];
      BucketsPartition(init, daysUntil);
      AllBucketsSnoc(init, last, daysUntil);
      assert multiset(filtered) == multiset(init) + multiset{last};
    }
  }

  /** Appending an item adds it once to the five buckets together. */
  lemma AllBucketsSnoc(s: seq<Item>, x: Item, daysUntil: int -> int)
    ensures AllBuckets(s + [x], daysUntil) == AllBuckets(s, daysUntil) + multiset{x}
  {
    BucketSnoc(s, x, Overdue, daysUntil);
    BucketSnoc(s, x, ThisWeek, daysUntil);
    BucketSnoc(s, x, ThisMonth, daysUntil);
    BucketSnoc(s, x, Beyond, daysUntil);
    BucketSnoc(s, x, Completed, daysUntil);
    OneGroupGrows(
      multiset(Bucket(s, Overdue, daysUntil)), multiset(Bucket(s, ThisWeek, daysUntil)),
      multiset(Bucket(s, ThisMonth, daysUntil)), multiset(Bucket(s, Beyond, daysUntil)),
      multiset(Bucket(s, Completed, daysUntil)),
      multiset(Bucket(s + [x], Overdue, daysUntil)), multiset(Bucket(s + [x], ThisWeek, daysUntil)),
      multiset(Bucket(s + [x], ThisMonth, daysUntil)), multiset(Bucket(s + [x], Beyond, daysUntil)),
      multiset(Bucket(s + [x], Completed, daysUntil)),
      x, GroupOf(x, daysUntil));
  }

  /** Five counts, one per group, of which only group `g`'s grows by `x`, grow together by `x`. */
  lemma OneGroupGrows(o: multiset<Item>, w: multiset<Item>, m: multiset<Item>, b: multiset<Item>, c: multiset<Item>,
                      o': multiset<Item>, w': multiset<Item>, m': multiset<Item>, b': multiset<Item>, c': multiset<Item>,
                      x: Item, g: DueGroup)
    requires o' == o + if g == Overdue then multiset{x} else multiset{}
    requires w' == w + if g == ThisWeek then multiset{x} else multiset{}
    requires m' == m + if g == ThisMonth then multiset{x} else multiset{}
    requires b' == b + if g == Beyond then multiset{x} else multiset{}
    requires c' == c + if g == Completed then multiset{x} else multiset{}
    ensures o' + w' + m' + b' + c' == o + w + m + b + c + multiset{x}
  {
    match g
    case Overdue =>
    case ThisWeek =>
    case ThisMonth =>
    case Beyond =>
    case Completed =>
  }

  /** The items of the five buckets, counted together. */
  function AllBuckets(s: seq<Item>, daysUntil: int -> int): multiset<Item> {
    multiset(Bucket(s, Overdue, daysUntil)) + multiset(Bucket(s, ThisWeek, daysUntil))
      + multiset(Bucket(s, ThisMonth, daysUntil)) + multiset(Bucket(s, Beyond, daysUntil))
      + multiset(Bucket(s, Completed, daysUntil))
  }

  /** Appending an item grows its own group's bucket by that item and no other bucket. */
  lemma BucketSnoc(s: seq<Item>, x: Item, g: DueGroup, daysUntil: int -> int)
    ensures multiset(Bucket(s + [x], g, daysUntil))
      == multiset(Bucket(s, g, daysUntil)) + if GroupOf(x, daysUntil) == g then multiset{x} else multiset{}
  {
    FilterSnoc(s, x, InGroup(g, daysUntil));
  }

  /** The groups as shown, in `GROUP_ORDER`; an empty group adds no rows. */
  function Displayed(groups: map<DueGroup, seq<Item>>): (r: seq<Item>)
    requires forall g :: g in groups
    ensures forall x :: x in r <==>
      x in groups[Overdue] || x in groups[ThisWeek] || x in groups[ThisMonth] || x in groups[Beyond] || x in groups[Completed]
  {
    groups[Overdue] + groups[ThisWeek] + groups[ThisMonth] + groups[Beyond] + groups[Completed]
  }

  /** Each group is sorted by due date. */
  lemma GroupsSorted(filtered: seq<Item>, daysUntil: int -> int, g: DueGroup)
    ensures var s := InsertionSort(Bucket(filtered, g, daysUntil), DueLe);
      forall i, j :: 0 <= i < j < |s| ==> s[i].dueDate <= s[j].dueDate
  {
    DueLeTotalPreorder();
    InsertionSortSorted(Bucket(filtered, g, daysUntil), DueLe);
  }

  /** Items of a group due at the same instant keep their filtered order: the sort is stable. */
  lemma GroupsStable(filtered: seq<Item>, daysUntil: int -> int, g: DueGroup, due: int)
    ensures Filter(InsertionSort(Bucket(filtered, g, daysUntil), DueLe), DueAt(due))
         == Filter(Bucket(filtered, g, daysUntil), DueAt(due))
  {
    InsertionSortStable(Bucket(filtered, g, daysUntil), DueLe, DueAt(due));
  }

  /** The groups, shown in `GROUP_ORDER`, hold exactly the filtered items. */
  lemma DisplayedIsPermutation(filtered: seq<Item>, daysUntil: int -> int, groups: map<DueGroup, seq<Item>>)
    requires forall g :: g in groups && groups[g] == InsertionSort(Bucket(filtered, g, daysUntil), DueLe)
    ensures multiset(Displayed(groups)) == multiset(filtered)
    ensures |Displayed(groups)| == |filtered|
  {
    var a, b, c, d, e := groups[Overdue], groups[ThisWeek], groups[ThisMonth], groups[Beyond], groups[Completed];
    assert multiset(a) == multiset(Bucket(filtered, Overdue, daysUntil));
    assert multiset(b) == multiset(Bucket(filtered, ThisWeek, daysUntil));
    assert multiset(c) == multiset(Bucket(filtered, ThisMonth, daysUntil));
    assert multiset(d) == multiset(Bucket(filtered, Beyond, daysUntil));
    assert multiset(e) == multiset(Bucket(filtered, Completed, daysUntil));
    BucketsPartition(filtered, daysUntil);
    calc {
      multiset(Displayed(groups));
      multiset(a + b + c + d + e);
      multiset(a) + multiset(b) + multiset(c) + multiset(d) + multiset(e);
      AllBuckets(filtered, daysUntil);
      multiset(filtered);
    }
    assert |Displayed(groups)| == |multiset(Displayed(groups))| == |multiset(filtered)| == |filtered|;
  }

  function DueAt(due: int): Item -> bool {
    (item: Item) => item.dueDate == due
  }
}
