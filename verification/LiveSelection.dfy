/** The live items that one ingest keeps (ADR 0064 section 4). */
module LiveSelection {
  import opened Basics
  import opened Cooldown
  import opened Sequences

  datatype LiveItem = LiveItem(
    guid: Guid, status: string, startAt: Option<I64>, endAt: Option<I64>, relayUri: Option<string>, content: string)

  const MAX_ACTIVE_LIVE_ROWS: nat := 10
  const MAX_ENDED_LIVE_ROWS: nat := 10
  const MAX_UNRELAYED_LIVE_SECS: int := 6 * 3600

  /** Each step drops items by one rule. */
  datatype Rule = UnknownStatus | DuplicateGuid | BannedItem | TooManyActive | TooManyEnded

  datatype Warning = Warning(rule: Rule, guid: Guid)

  // ── the rules ──────────────────────────────────────────────────────────

  predicate HasStatus(item: LiveItem, status: string) {
    EqIgnoreAsciiCase(item.status, status)
  }

  predicate HasRelayLink(item: LiveItem) {
    item.relayUri.Some? && item.relayUri.value != ""
  }

  /** `is_banned_live_item`. The subtraction is on 64-bit numbers. */
  predicate IsBanned(item: LiveItem) {
    if !HasStatus(item, "live") || HasRelayLink(item) then false
    else if item.startAt.Some? && item.endAt.Some? then
      Wrap(item.endAt.value - item.startAt.value) > MAX_UNRELAYED_LIVE_SECS
    else true
  }

  predicate IsKnown(item: LiveItem) {
    HasStatus(item, "pending") || HasStatus(item, "live") || HasStatus(item, "ended")
  }

  predicate IsEnded(item: LiveItem) {
    HasStatus(item, "ended")
  }

  predicate IsActive(item: LiveItem) {
    !IsEnded(item)
  }

  predicate IsAllowed(item: LiveItem) {
    !IsBanned(item)
  }

  /** The ban reads the window of the item exactly when the difference fits 64 bits. */
  lemma BanReadsTheWindow(item: LiveItem)
    requires HasStatus(item, "live") && !HasRelayLink(item) && item.startAt.Some? && item.endAt.Some?
    ensures var window := item.endAt.value - item.startAt.value;
            (IsBanned(item) <==> window > MAX_UNRELAYED_LIVE_SECS) <==>
            !(window > I64_MAX) && !(window < I64_MIN && window + 0x1_0000_0000_0000_0000 > MAX_UNRELAYED_LIVE_SECS)
  {
    var window := item.endAt.value - item.startAt.value;
    var m := window % 0x1_0000_0000_0000_0000;
    if window < 0 {
      assert m == window + 0x1_0000_0000_0000_0000;
    }
  }

  // ── the selection ──────────────────────────────────────────────────────

  function Guids(items: seq<LiveItem>): set<Guid> {
    set i | 0 <= i < |items| :: items[i].guid
  }

  function FirstOfEachGuid(items: seq<LiveItem>): seq<LiveItem> {
    if items == [] then []
    else
      var front := FirstOfEachGuid(items[..|items| - 1]);
      if items[|items| - 1].guid in Guids(front) then front else front + [items[|items| - 1]]
  }

  /** Steps 1 to 3. */
  function Survivors(items: seq<LiveItem>): seq<LiveItem> {
    Filter(IsAllowed, FirstOfEachGuid(Filter(IsKnown, items)))
  }

  /** A start that is newer; an item with no start is older than each other. */
  predicate Newer(a: LiveItem, b: LiveItem) {
    a.startAt.Some? && (b.startAt.None? || a.startAt.value > b.startAt.value)
  }

  /** A stable sort puts an item after those that are not older. */
  function InsertByStart(item: LiveItem, sorted: seq<LiveItem>): seq<LiveItem> {
    if sorted == [] then [item]
    else if Newer(item, sorted[0]) then [item] + sorted
    else [sorted[0]] + InsertByStart(item, sorted[1..])
  }

  function SortByStart(items: seq<LiveItem>): seq<LiveItem> {
    if items == [] then [] else InsertByStart(items[|items| - 1], SortByStart(items[..|items| - 1]))
  }

  /** The GUIDs of steps 4 and 5. */
  function KeptGuids(survivors: seq<LiveItem>): set<Guid> {
    Guids(Take(Filter(IsActive, survivors), MAX_ACTIVE_LIVE_ROWS)) +
    Guids(Take(SortByStart(Filter(IsEnded, survivors)), MAX_ENDED_LIVE_ROWS))
  }

  function Has(guids: set<Guid>): LiveItem -> bool {
    (item: LiveItem) => item.guid in guids
  }

  function Select(items: seq<LiveItem>): seq<LiveItem> {
    Filter(Has(KeptGuids(Survivors(items))), Survivors(items))
  }

  /** The items that step 2 drops. */
  function LaterOfEachGuid(items: seq<LiveItem>): seq<LiveItem> {
    if items == [] then []
    else
      var front := LaterOfEachGuid(items[..|items| - 1]);
      if items[|items| - 1].guid in Guids(FirstOfEachGuid(items[..|items| - 1])) then front + [items[|items| - 1]] else front
  }

  predicate IsUnknown(item: LiveItem) {
    !IsKnown(item)
  }

  function Warn(rule: Rule, items: seq<LiveItem>): (w: seq<Warning>)
    ensures |w| == |items|
  {
    seq(|items|, i requires 0 <= i < |items| => Warning(rule, items[i].guid))
  }

  function Rest<T>(rows: seq<T>, n: nat): (r: seq<T>)
    ensures Take(rows, n) + r == rows
  {
    if n < |rows| then rows[n..] else []
  }

  /** The items that one step drops. */
  function Dropped(rule: Rule, items: seq<LiveItem>): seq<LiveItem> {
    var known := Filter(IsKnown, items);
    match rule
    case UnknownStatus => Filter(IsUnknown, items)
    case DuplicateGuid => LaterOfEachGuid(known)
    case BannedItem => Filter(IsBanned, FirstOfEachGuid(known))
    case TooManyActive => Rest(Filter(IsActive, Survivors(items)), MAX_ACTIVE_LIVE_ROWS)
    case TooManyEnded => Rest(SortByStart(Filter(IsEnded, Survivors(items))), MAX_ENDED_LIVE_ROWS)
  }

  /** One warning for each dropped item, step after step. */
  function SelectionWarnings(items: seq<LiveItem>): seq<Warning> {
    Warn(UnknownStatus, Dropped(UnknownStatus, items)) +
    Warn(DuplicateGuid, Dropped(DuplicateGuid, items)) +
    Warn(BannedItem, Dropped(BannedItem, items)) +
    Warn(TooManyActive, Dropped(TooManyActive, items)) +
    Warn(TooManyEnded, Dropped(TooManyEnded, items))
  }

  // ── the five loops ─────────────────────────────────────────────────────

  method KeepKnown(items: seq<LiveItem>) returns (known: seq<LiveItem>, warnings: seq<Warning>)
    ensures known == Filter(IsKnown, items) && |known| + |warnings| == |items|
    ensures warnings == Warn(UnknownStatus, Filter(IsUnknown, items))
  {
    known, warnings := [], [];
    for i := 0 to |items|
      invariant known == Filter(IsKnown, items[..i]) && |known| + |warnings| == i
      invariant warnings == Warn(UnknownStatus, Filter(IsUnknown, items[..i]))
    {
      assert items[..i + 1][..i] == items[..i];
      if HasStatus(items[i], "pending") || HasStatus(items[i], "live") || HasStatus(items[i], "ended") {
        known := known + [items[i]];
      } else {
        warnings := warnings + [Warning(UnknownStatus, items[i].guid)];
      }
    }
    assert items[..|items|] == items;
  }

  method KeepFirsts(items: seq<LiveItem>) returns (firsts: seq<LiveItem>, warnings: seq<Warning>)
    ensures firsts == FirstOfEachGuid(items) && |firsts| + |warnings| == |items|
    ensures warnings == Warn(DuplicateGuid, LaterOfEachGuid(items))
  {
    firsts, warnings := [], [];
    var seen: set<Guid> := {};
    for i := 0 to |items|
      invariant firsts == FirstOfEachGuid(items[..i]) && |firsts| + |warnings| == i
      invariant warnings == Warn(DuplicateGuid, LaterOfEachGuid(items[..i]))
      invariant seen == Guids(firsts)
    {
      assert items[..i + 1][..i] == items[..i];
      if items[i].guid !in seen {
        GuidsOfMore(firsts, items[i]);
        seen := seen + {items[i].guid};
        firsts := firsts + [items[i]];
      } else {
        warnings := warnings + [Warning(DuplicateGuid, items[i].guid)];
      }
    }
    assert items[..|items|] == items;
  }

  method DropBanned(items: seq<LiveItem>) returns (allowed: seq<LiveItem>, warnings: seq<Warning>)
    ensures allowed == Filter(IsAllowed, items) && |allowed| + |warnings| == |items|
    ensures warnings == Warn(BannedItem, Filter(IsBanned, items))
  {
    allowed, warnings := [], [];
    for i := 0 to |items|
      invariant allowed == Filter(IsAllowed, items[..i]) && |allowed| + |warnings| == i
      invariant warnings == Warn(BannedItem, Filter(IsBanned, items[..i]))
    {
      assert items[..i + 1][..i] == items[..i];
      if IsBanned(items[i]) {
        warnings := warnings + [Warning(BannedItem, items[i].guid)];
      } else {
        allowed := allowed + [items[i]];
      }
    }
    assert items[..|items|] == items;
  }

  /** Step 4: the count of active items decides, and ended items pass by. */
  method KeepActive(survivors: seq<LiveItem>) returns (guids: set<Guid>, warnings: seq<Warning>)
    ensures var active := Filter(IsActive, survivors);
            guids == Guids(Take(active, MAX_ACTIVE_LIVE_ROWS)) &&
            warnings == Warn(TooManyActive, Rest(active, MAX_ACTIVE_LIVE_ROWS))
  {
    guids, warnings := {}, [];
    var activeKept := 0;
    ghost var active: seq<LiveItem> := [];
    for i := 0 to |survivors|
      invariant active == Filter(IsActive, survivors[..i])
      invariant guids == Guids(Take(active, MAX_ACTIVE_LIVE_ROWS))
      invariant activeKept == |Take(active, MAX_ACTIVE_LIVE_ROWS)|
      invariant warnings == Warn(TooManyActive, Rest(active, MAX_ACTIVE_LIVE_ROWS))
    {
      assert survivors[..i + 1][..i] == survivors[..i];
      var item := survivors[i];
      if !IsEnded(item) {
        if activeKept < MAX_ACTIVE_LIVE_ROWS {
          GuidsOfMore(active, item);
          guids := guids + {item.guid};
          activeKept := activeKept + 1;
        } else {
          assert Take(active + [item], MAX_ACTIVE_LIVE_ROWS) == Take(active, MAX_ACTIVE_LIVE_ROWS);
          warnings := warnings + [Warning(TooManyActive, item.guid)];
        }
        active := active + [item];
      }
    }
    assert survivors[..|survivors|] == survivors;
  }

  method SortEnded(survivors: seq<LiveItem>) returns (ended: seq<LiveItem>)
    ensures ended == SortByStart(Filter(IsEnded, survivors))
  {
    var unsorted := Filter(IsEnded, survivors);
    ended := [];
    for i := 0 to |unsorted|
      invariant ended == SortByStart(unsorted[..i])
    {
      assert unsorted[..i + 1][..i] == unsorted[..i];
      ended := InsertByStart(unsorted[i], ended);
    }
    assert unsorted[..|unsorted|] == unsorted;
  }

  /** Step 5: the first ones of the sorted ended items. */
  method KeepEnded(ended: seq<LiveItem>) returns (guids: set<Guid>, warnings: seq<Warning>)
    ensures guids == Guids(Take(ended, MAX_ENDED_LIVE_ROWS))
    ensures warnings == Warn(TooManyEnded, Rest(ended, MAX_ENDED_LIVE_ROWS))
  {
    hide Guids;
    guids, warnings := {}, [];
    assert Guids([]) == {} by { NoGuids(); }
    for i := 0 to |ended|
      invariant guids == Guids(Take(ended[..i], MAX_ENDED_LIVE_ROWS))
      invariant warnings == Warn(TooManyEnded, Rest(ended[..i], MAX_ENDED_LIVE_ROWS))
    {
      if i < MAX_ENDED_LIVE_ROWS {
        GuidsOfMore(ended[..i], ended[i]);
        assert ended[..i + 1] == ended[..i] + [ended[i]];
        guids := guids + {ended[i].guid};
      } else {
        assert Take(ended[..i + 1], MAX_ENDED_LIVE_ROWS) == Take(ended[..i], MAX_ENDED_LIVE_ROWS);
        warnings := warnings + [Warning(TooManyEnded, ended[i].guid)];
      }
    }
    assert ended[..|ended|] == ended;
  }

  lemma NoGuids()
    ensures Guids([]) == {}
  {
  }

  /** `select_live_items`: each item is kept, or gives one warning. */
  method SelectLiveItems(items: seq<LiveItem>) returns (kept: seq<LiveItem>, warnings: seq<Warning>)
    ensures kept == Select(items) && warnings == SelectionWarnings(items)
    ensures |kept| + |warnings| == |items|
  {
    hide Filter, FirstOfEachGuid, SortByStart, LaterOfEachGuid, Guids, HasStatus;
    var known, unknown := KeepKnown(items);
    var firsts, duplicates := KeepFirsts(known);
    var survivors, banned := DropBanned(firsts);
    var active, moreActive := KeepActive(survivors);
    var sorted := SortEnded(survivors);
    var ended, moreEnded := KeepEnded(sorted);
    kept := Filter(Has(active + ended), survivors);
    warnings := unknown + duplicates + banned + moreActive + moreEnded;
    SurvivorsDistinct(items);
    KeptCount(survivors);
    SortKeeps(Filter(IsEnded, survivors));
  }

  // ── lists of distinct GUIDs ────────────────────────────────────────────

  predicate DistinctGuids(items: seq<LiveItem>) {
    forall i, j :: 0 <= i < j < |items| ==> items[i].guid != items[j].guid
  }

  lemma GuidsOfMore(items: seq<LiveItem>, item: LiveItem)
    ensures Guids(items + [item]) == Guids(items) + {item.guid}
  {
    forall g
      ensures g in Guids(items + [item]) <==> g in Guids(items) + {item.guid}
    {
      if g in Guids(items) {
        var i :| 0 <= i < |items| && items[i].guid == g;
        assert (items + [item])[i].guid == g;
      }
      assert (items + [item])[|items|] == item;
    }
  }

  lemma {:induction false} FirstsDistinct(items: seq<LiveItem>)
    ensures DistinctGuids(FirstOfEachGuid(items))
    ensures Guids(FirstOfEachGuid(items)) == Guids(items)
  {
    if items != [] {
      var n := |items| - 1;
      FirstsDistinct(items[..n]);
      assert items == items[..n] + [items[n]];
      GuidsOfMore(items[..n], items[n]);
      GuidsOfMore(FirstOfEachGuid(items[..n]), items[n]);
    }
  }

  lemma FilterDistinct(keep: LiveItem -> bool, items: seq<LiveItem>)
    requires DistinctGuids(items)
    ensures DistinctGuids(Filter(keep, items))
  {
    hide Filter;
    var kept := Filter(keep, items);
    forall i, j | 0 <= i < j < |kept|
      ensures kept[i].guid != kept[j].guid
    {
      var at := FilterKeepsOrder(keep, items, j);
      assert kept[..j][i] == kept[i];
      var at' := FilterKeepsOrder(keep, items[..at], i);
    }
  }

  lemma SurvivorsDistinct(items: seq<LiveItem>)
    ensures DistinctGuids(Survivors(items))
  {
    FirstsDistinct(Filter(IsKnown, items));
    FilterDistinct(IsAllowed, FirstOfEachGuid(Filter(IsKnown, items)));
  }

  // ── the stable sort ────────────────────────────────────────────────────

  lemma {:induction false} InsertKeeps(item: LiveItem, sorted: seq<LiveItem>)
    ensures multiset(InsertByStart(item, sorted)) == multiset(sorted) + multiset{item}
    ensures |InsertByStart(item, sorted)| == |sorted| + 1
  {
    if sorted != [] {
      assert sorted == [sorted[0]] + sorted[1..];
      InsertKeeps(item, sorted[1..]);
    }
  }

  lemma {:induction false} SortKeeps(items: seq<LiveItem>)
    ensures multiset(SortByStart(items)) == multiset(items)
    ensures |SortByStart(items)| == |items|
  {
    if items != [] {
      var n := |items| - 1;
      assert items == items[..n] + [items[n]];
      SortKeeps(items[..n]);
      InsertKeeps(items[n], SortByStart(items[..n]));
    }
  }

  /** The item `a` stands before the item `b` in the list. */
  ghost predicate Earlier(items: seq<LiveItem>, a: LiveItem, b: LiveItem) {
    exists i, j :: 0 <= i < j < |items| && items[i] == a && items[j] == b
  }

  /** The order of step 5: newest start first, no start last, ties in RSS order. */
  ghost predicate Before(items: seq<LiveItem>, a: LiveItem, b: LiveItem) {
    Newer(a, b) || (a.startAt == b.startAt && Earlier(items, a, b))
  }

  ghost predicate InOrder(items: seq<LiveItem>, sorted: seq<LiveItem>) {
    forall i, j :: 0 <= i < j < |sorted| ==> Before(items, sorted[i], sorted[j])
  }

  lemma EarlierInMore(items: seq<LiveItem>, item: LiveItem, a: LiveItem, b: LiveItem)
    ensures Earlier(items, a, b) ==> Earlier(items + [item], a, b)
    ensures a in items ==> Earlier(items + [item], a, item)
  {
    var more := items + [item];
    if Earlier(items, a, b) {
      var i, j :| 0 <= i < j < |items| && items[i] == a && items[j] == b;
      assert more[i] == a && more[j] == b;
    }
    if a in items {
      var i :| 0 <= i < |items| && items[i] == a;
      assert more[i] == a && more[|items|] == item;
    }
  }

  lemma InsertFirst(items: seq<LiveItem>, item: LiveItem, sorted: seq<LiveItem>)
    requires InOrder(items, sorted) && sorted != [] && Newer(item, sorted[0])
    ensures InOrder(items + [item], [item] + sorted)
  {
    hide Earlier;
    var more, all := items + [item], [item] + sorted;
    forall i, j | 0 <= i < j < |all|
      ensures Before(more, all[i], all[j])
    {
      if i == 0 {
        assert j > 1 ==> Before(items, sorted[0], sorted[j - 1]);
      } else {
        assert Before(items, sorted[i - 1], sorted[j - 1]);
        EarlierInMore(items, item, sorted[i - 1], sorted[j - 1]);
      }
    }
  }

  /** An insert after the items that are not older keeps the order of a longer list. */
  lemma {:induction false} InsertInOrder(items: seq<LiveItem>, item: LiveItem, sorted: seq<LiveItem>)
    requires InOrder(items, sorted) && forall i :: 0 <= i < |sorted| ==> sorted[i] in items
    ensures InOrder(items + [item], InsertByStart(item, sorted))
  {
    hide Earlier;
    if sorted != [] {
      if Newer(item, sorted[0]) {
        InsertFirst(items, item, sorted);
      } else {
        var rest := InsertByStart(item, sorted[1..]);
        InsertInOrder(items, item, sorted[1..]);
        InsertKeeps(item, sorted[1..]);
        forall j | 0 <= j < |rest|
          ensures Before(items + [item], sorted[0], rest[j])
        {
          assert rest[j] in multiset(rest);
          if rest[j] == item {
            EarlierInMore(items, item, sorted[0], item);
          } else {
            var k :| 0 <= k < |sorted[1..]| && sorted[1..][k] == rest[j];
            assert Before(items, sorted[0], sorted[k + 1]);
            EarlierInMore(items, item, sorted[0], rest[j]);
          }
        }
      }
    }
  }

  lemma SortedMembers(items: seq<LiveItem>)
    ensures forall x :: x in SortByStart(items) <==> x in items
  {
    hide SortByStart;
    SortKeeps(items);
    forall x
      ensures x in SortByStart(items) <==> x in items
    {
      assert x in SortByStart(items) <==> x in multiset(SortByStart(items));
      assert x in items <==> x in multiset(items);
    }
  }

  lemma {:induction false} SortInOrder(items: seq<LiveItem>)
    ensures InOrder(items, SortByStart(items))
  {
    hide InOrder;
    if items == [] {
      assert InOrder([], []) by { NothingInOrder(); }
    } else {
      var n := |items| - 1;
      SortInOrder(items[..n]);
      SortedMembers(items[..n]);
      InsertInOrder(items[..n], items[n], SortByStart(items[..n]));
      assert items == items[..n] + [items[n]];
    }
  }

  lemma NothingInOrder()
    ensures InOrder([], [])
  {
  }

  // ── which items are kept ───────────────────────────────────────────────

  lemma GuidInFirsts(items: seq<LiveItem>, n: nat, i: nat)
    requires DistinctGuids(items) && i < |items|
    ensures items[i].guid in Guids(Take(items, n)) <==> i < n
  {
    if i < n {
      assert Take(items, n)[i].guid == items[i].guid;
    }
  }

  lemma GuidElsewhere(survivors: seq<LiveItem>, part: seq<LiveItem>, item: LiveItem)
    requires DistinctGuids(survivors) && item in survivors && item !in part
    requires forall i :: 0 <= i < |part| ==> part[i] in survivors
    ensures item.guid !in Guids(part)
  {
  }

  lemma SortedSameGuids(items: seq<LiveItem>)
    requires DistinctGuids(items)
    ensures DistinctGuids(SortByStart(items))
    ensures forall x :: x in SortByStart(items) <==> x in items
  {
    SortKeeps(items);
    var guid := (item: LiveItem) => item.guid;
    var sorted := SortByStart(items);
    MapPermutation(guid, items, sorted);
    assert NoRepeats(Map(guid, items));
    NoRepeatsPermuted(Map(guid, items), Map(guid, sorted));
    forall i, j | 0 <= i < j < |sorted|
      ensures sorted[i].guid != sorted[j].guid
    {
      assert Map(guid, sorted)[i] != Map(guid, sorted)[j];
    }
    SortedMembers(items);
  }

  /** The kept items among the active ones, and among the sorted ended ones. */
  lemma KeptParts(survivors: seq<LiveItem>)
    requires DistinctGuids(survivors)
    ensures var active := Filter(IsActive, survivors);
            Filter(Has(KeptGuids(survivors)), active) == Take(active, MAX_ACTIVE_LIVE_ROWS)
    ensures var ended := SortByStart(Filter(IsEnded, survivors));
            Filter(Has(KeptGuids(survivors)), ended) == Take(ended, MAX_ENDED_LIVE_ROWS)
  {
    hide Filter, SortByStart, DistinctGuids, Guids, HasStatus;
    var active, unsorted := Filter(IsActive, survivors), Filter(IsEnded, survivors);
    var ended := SortByStart(unsorted);
    FilterDistinct(IsActive, survivors);
    FilterDistinct(IsEnded, survivors);
    FilterMembers(IsActive, survivors);
    FilterMembers(IsEnded, survivors);
    SortedSameGuids(unsorted);
    var kept := Has(KeptGuids(survivors));
    forall i | 0 <= i < |active|
      ensures kept(active[i]) <==> i < |Take(active, MAX_ACTIVE_LIVE_ROWS)|
    {
      GuidInFirsts(active, MAX_ACTIVE_LIVE_ROWS, i);
      GuidElsewhere(survivors, Take(ended, MAX_ENDED_LIVE_ROWS), active[i]);
    }
    forall i | 0 <= i < |ended|
      ensures kept(ended[i]) <==> i < |Take(ended, MAX_ENDED_LIVE_ROWS)|
    {
      GuidInFirsts(ended, MAX_ENDED_LIVE_ROWS, i);
      GuidElsewhere(survivors, Take(active, MAX_ACTIVE_LIVE_ROWS), ended[i]);
    }
    FilterHalf(kept, active, |Take(active, MAX_ACTIVE_LIVE_ROWS)|);
    FilterHalf(kept, ended, |Take(ended, MAX_ENDED_LIVE_ROWS)|);
  }

  lemma {:induction false} ActiveAndEnded(items: seq<LiveItem>)
    ensures |Filter(IsActive, items)| + |Filter(IsEnded, items)| == |items|
  {
    hide HasStatus;
    if items != [] {
      ActiveAndEnded(items[..|items| - 1]);
    }
  }

  /** The kept active items are the first ones; the kept ended ones are the first sorted ones. */
  lemma KeptItems(survivors: seq<LiveItem>)
    requires DistinctGuids(survivors)
    ensures var kept := Filter(Has(KeptGuids(survivors)), survivors);
            var ended := SortByStart(Filter(IsEnded, survivors));
            && Filter(IsActive, kept) == Take(Filter(IsActive, survivors), MAX_ACTIVE_LIVE_ROWS)
            && multiset(Filter(IsEnded, kept)) == multiset(Take(ended, MAX_ENDED_LIVE_ROWS))
            && |Filter(IsEnded, kept)| == |Take(ended, MAX_ENDED_LIVE_ROWS)|
  {
    hide Filter, SortByStart, KeptGuids, Take;
    var has := Has(KeptGuids(survivors));
    KeptParts(survivors);
    FilterCommutes(IsActive, has, survivors);
    FilterCommutes(IsEnded, has, survivors);
    SortKeeps(Filter(IsEnded, survivors));
    FilterPermuted(has, SortByStart(Filter(IsEnded, survivors)), Filter(IsEnded, survivors));
  }

  lemma KeptCount(survivors: seq<LiveItem>)
    requires DistinctGuids(survivors)
    ensures var kept := Filter(Has(KeptGuids(survivors)), survivors);
            var ended := Filter(IsEnded, survivors);
            && |kept| == |Take(Filter(IsActive, survivors), MAX_ACTIVE_LIVE_ROWS)| + |Take(SortByStart(ended), MAX_ENDED_LIVE_ROWS)|
            && |survivors| == |Filter(IsActive, survivors)| + |ended|
  {
    hide Filter, SortByStart, KeptGuids, Take;
    KeptItems(survivors);
    ActiveAndEnded(survivors);
    ActiveAndEnded(Filter(Has(KeptGuids(survivors)), survivors));
  }

  // ── the promises of the selection ──────────────────────────────────────

  /** `a` is `b` with some elements left out. */
  predicate Sublist<T(==)>(a: seq<T>, b: seq<T>) {
    || a == []
    || (b != [] && a[|a| - 1] == b[|b| - 1] && Sublist(a[..|a| - 1], b[..|b| - 1]))
    || (b != [] && Sublist(a, b[..|b| - 1]))
  }

  lemma {:induction false} SublistTransitive<T>(a: seq<T>, b: seq<T>, c: seq<T>)
    requires Sublist(a, b) && Sublist(b, c)
    ensures Sublist(a, c)
    decreases |b| + |c|
  {
    if a != [] {
      var a', b', c' := a[..|a| - 1], b[..|b| - 1], c[..|c| - 1];
      if b[|b| - 1] == c[|c| - 1] && Sublist(b', c') {
        if a[|a| - 1] == b[|b| - 1] && Sublist(a', b') {
          SublistTransitive(a', b', c');
        } else {
          SublistTransitive(a, b', c');
        }
      } else {
        SublistTransitive(a, b, c');
      }
    }
  }

  lemma {:induction false} FilterIsSublist<T>(keep: T -> bool, items: seq<T>)
    ensures Sublist(Filter(keep, items), items)
  {
    if items != [] {
      FilterIsSublist(keep, items[..|items| - 1]);
      if keep(items[|items| - 1]) {
        assert Filter(keep, items)[..|Filter(keep, items)| - 1] == Filter(keep, items[..|items| - 1]);
      } else {
        assert Filter(keep, items) == Filter(keep, items[..|items| - 1]);
      }
    }
  }

  lemma {:induction false} FirstsAreSublist(items: seq<LiveItem>)
    ensures Sublist(FirstOfEachGuid(items), items)
  {
    if items != [] {
      FirstsAreSublist(items[..|items| - 1]);
      var front := FirstOfEachGuid(items[..|items| - 1]);
      if items[|items| - 1].guid !in Guids(front) {
        assert FirstOfEachGuid(items)[..|front|] == front;
      }
    }
  }

  /** The kept items are items of the feed in its order, one for each GUID, and all are allowed. */
  lemma SelectedAreGood(items: seq<LiveItem>)
    ensures Sublist(Select(items), items)
    ensures DistinctGuids(Select(items))
    ensures forall x :: x in Select(items) ==> IsKnown(x) && !IsBanned(x)
  {
    hide Filter, FirstOfEachGuid, KeptGuids, HasStatus, Sublist, DistinctGuids;
    var known := Filter(IsKnown, items);
    var firsts := FirstOfEachGuid(known);
    var survivors := Survivors(items);
    var has := Has(KeptGuids(survivors));
    FilterIsSublist(IsKnown, items);
    FirstsAreSublist(known);
    FilterIsSublist(IsAllowed, firsts);
    FilterIsSublist(has, survivors);
    SublistTransitive(firsts, known, items);
    SublistTransitive(survivors, firsts, items);
    SublistTransitive(Select(items), survivors, items);
    SurvivorsDistinct(items);
    FilterDistinct(has, survivors);
    FilterMembers(IsKnown, items);
    FilterMembers(IsAllowed, firsts);
    FilterMembers(has, survivors);
    forall x | x in firsts
      ensures x in known
    {
      SublistMembers(firsts, known, x);
    }
  }

  lemma {:induction false} SublistMembers<T>(a: seq<T>, b: seq<T>, x: T)
    requires Sublist(a, b) && x in a
    ensures x in b
    decreases |b|
  {
    if a[|a| - 1] == b[|b| - 1] && Sublist(a[..|a| - 1], b[..|b| - 1]) {
      if x != a[|a| - 1] {
        SublistMembers(a[..|a| - 1], b[..|b| - 1], x);
      }
    } else {
      SublistMembers(a, b[..|b| - 1], x);
    }
  }

  lemma EarlierInSurvivors(keep: LiveItem -> bool, items: seq<LiveItem>, a: LiveItem, b: LiveItem)
    requires Earlier(Filter(keep, items), a, b)
    ensures Earlier(items, a, b)
  {
    hide Filter;
    var kept := Filter(keep, items);
    var i, j :| 0 <= i < j < |kept| && kept[i] == a && kept[j] == b;
    var at := FilterKeepsOrder(keep, items, j);
    assert kept[..j][i] == a;
    var at' := FilterKeepsOrder(keep, items[..at], i);
    assert items[at'] == a && items[at] == b;
  }

  lemma KeptActive(items: seq<LiveItem>)
    ensures Filter(IsActive, Select(items)) == Take(Filter(IsActive, Survivors(items)), MAX_ACTIVE_LIVE_ROWS)
  {
    SurvivorsDistinct(items);
    KeptItems(Survivors(items));
  }

  function HasActiveStatus(): LiveItem -> bool {
    (x: LiveItem) => !EqIgnoreAsciiCase(x.status, "ended")
  }

  function HasEndedStatus(): LiveItem -> bool {
    (x: LiveItem) => EqIgnoreAsciiCase(x.status, "ended")
  }

  lemma AtTaken<T>(s: seq<T>, n: nat, x: T)
    requires x in s && x !in Take(s, n)
    ensures |Take(s, n)| == n
    ensures forall k :: k in Take(s, n) ==> exists i, j :: 0 <= i < n <= j < |s| && s[i] == k && s[j] == x
  {
    var j :| 0 <= j < |s| && s[j] == x;
    assert n <= j by {
      assert forall i :: 0 <= i < |Take(s, n)| ==> s[i] == Take(s, n)[i] && s[i] in Take(s, n);
    }
    forall k | k in Take(s, n)
      ensures exists i, j :: 0 <= i < n <= j < |s| && s[i] == k && s[j] == x
    {
      var i :| 0 <= i < n && Take(s, n)[i] == k;
      assert s[i] == k;
    }
  }

  /** A kept item that has not ended stands before each dropped one, and one is dropped only when ten are kept. */
  lemma ActiveAreFirst(items: seq<LiveItem>, k: LiveItem, d: LiveItem)
    requires k in Select(items) && !EqIgnoreAsciiCase(k.status, "ended")
    requires d in Survivors(items) && d !in Select(items) && !EqIgnoreAsciiCase(d.status, "ended")
    ensures Earlier(Survivors(items), k, d)
    ensures |Filter(HasActiveStatus(), Select(items))| == 10
  {
    hide Filter, Select, Survivors, EqIgnoreAsciiCase, Take;
    var active := Filter(IsActive, Survivors(items));
    KeptActive(items);
    FilterMembers(IsActive, Select(items));
    FilterMembers(IsActive, Survivors(items));
    FilterSame(HasActiveStatus(), IsActive, Select(items));
    AtTaken(active, MAX_ACTIVE_LIVE_ROWS, d);
    EarlierInSurvivors(IsActive, Survivors(items), k, d);
  }

  /**
   A dropped ended item starts no later than any kept one, where no start counts
   as the oldest, and equal starts go by RSS order. One is dropped only when ten
   are kept.
   */
  lemma EndedAreNewest(items: seq<LiveItem>, k: LiveItem, d: LiveItem)
    requires k in Select(items) && EqIgnoreAsciiCase(k.status, "ended")
    requires d in Survivors(items) && d !in Select(items) && EqIgnoreAsciiCase(d.status, "ended")
    ensures d.startAt.Some? ==> k.startAt.Some? && k.startAt.value >= d.startAt.value
    ensures k.startAt == d.startAt ==> Earlier(Survivors(items), k, d)
    ensures |Filter(HasEndedStatus(), Select(items))| == 10
  {
    hide Filter, Select, Survivors, EqIgnoreAsciiCase, Take, SortByStart, Earlier, KeptGuids;
    var survivors := Survivors(items);
    var unsorted := Filter(IsEnded, survivors);
    FilterMembers(IsEnded, Select(items));
    FilterMembers(IsEnded, survivors);
    FilterSame(HasEndedStatus(), IsEnded, Select(items));
    SelectedSurvive(items, k);
    KeptEnded(items, k);
    KeptEnded(items, d);
    SortInOrder(unsorted);
    AtTaken(SortByStart(unsorted), MAX_ENDED_LIVE_ROWS, d);
    assert Before(unsorted, k, d);
    if !Newer(k, d) {
      EarlierInSurvivors(IsEnded, survivors, k, d);
    }
  }

  lemma SelectedSurvive(items: seq<LiveItem>, x: LiveItem)
    requires x in Select(items)
    ensures x in Survivors(items)
  {
    hide Filter, KeptGuids, Survivors;
    FilterMembers(Has(KeptGuids(Survivors(items))), Survivors(items));
  }

  /** The kept ended items are the first ones of the sorted list. */
  lemma KeptEnded(items: seq<LiveItem>, x: LiveItem)
    requires x in Filter(IsEnded, Survivors(items))
    ensures var ended := SortByStart(Filter(IsEnded, Survivors(items)));
            && x in ended
            && (x in Select(items) <==> x in Take(ended, MAX_ENDED_LIVE_ROWS))
            && |Filter(IsEnded, Select(items))| == |Take(ended, MAX_ENDED_LIVE_ROWS)|
  {
    hide Filter, SortByStart, HasStatus, Take, Survivors, KeptGuids;
    var ended := SortByStart(Filter(IsEnded, Survivors(items)));
    SurvivorsDistinct(items);
    KeptItems(Survivors(items));
    SortedMembers(Filter(IsEnded, Survivors(items)));
    FilterMembers(IsEnded, Survivors(items));
    FilterMembers(IsEnded, Select(items));
    assert x in multiset(Filter(IsEnded, Select(items))) <==> x in multiset(Take(ended, MAX_ENDED_LIVE_ROWS));
  }

  /** Ten items with an ended status at most, and ten others. */
  lemma LimitsHold(items: seq<LiveItem>)
    ensures |Filter(HasActiveStatus(), Select(items))| <= 10 && |Filter(HasEndedStatus(), Select(items))| <= 10
  {
    hide Filter, SortByStart, Select, Survivors, KeptGuids, HasStatus;
    KeptActive(items);
    FilterSame(HasActiveStatus(), IsActive, Select(items)) by { StatusOf(); }
    FilterSame(HasEndedStatus(), IsEnded, Select(items)) by { StatusOf(); }
    KeptEndedCount(items);
  }

  lemma StatusOf()
    ensures forall x :: HasActiveStatus()(x) == IsActive(x) && HasEndedStatus()(x) == IsEnded(x)
  {
  }

  lemma KeptEndedCount(items: seq<LiveItem>)
    ensures |Filter(IsEnded, Select(items))| <= 10
  {
    hide Filter, SortByStart;
    SurvivorsDistinct(items);
    KeptItems(Survivors(items));
  }

  // ── which items reach the two limits ───────────────────────────────────

  /** Steps 1 and 3 with their conditions written out. */
  lemma KnownExactly(x: LiveItem)
    ensures IsKnown(x) <==>
            EqIgnoreAsciiCase(x.status, "pending") || EqIgnoreAsciiCase(x.status, "live") || EqIgnoreAsciiCase(x.status, "ended")
    ensures IsBanned(x) <==>
            && EqIgnoreAsciiCase(x.status, "live")
            && (x.relayUri.None? || x.relayUri.value == "")
            && (x.startAt.None? || x.endAt.None? || Wrap(x.endAt.value - x.startAt.value) > 21_600)
  {
  }

  /**
   An item survives steps 1 to 3 exactly when its status is one of three, no item
   of a known status with its GUID stands before it, and it is not live with
   neither a relay link nor a window of six hours at most.
   */
  lemma SurvivesExactly(items: seq<LiveItem>, x: LiveItem)
    ensures var known := (y: LiveItem) => EqIgnoreAsciiCase(y.status, "pending") || EqIgnoreAsciiCase(y.status, "live") ||
                                          EqIgnoreAsciiCase(y.status, "ended");
            var window := x.startAt.Some? && x.endAt.Some? && Wrap(x.endAt.value - x.startAt.value) <= 21_600;
            x in Survivors(items) <==>
            && (EqIgnoreAsciiCase(x.status, "live") ==> (x.relayUri.Some? && x.relayUri.value != "") || window)
            && exists i :: 0 <= i < |items| && items[i] == x && known(x) &&
                           forall j :: 0 <= j < i && items[j].guid == x.guid ==> !known(items[j])
  {
    hide Filter, FirstOfEachGuid, EqIgnoreAsciiCase, HasStatus;
    var known := (y: LiveItem) => EqIgnoreAsciiCase(y.status, "pending") || EqIgnoreAsciiCase(y.status, "live") ||
                                  EqIgnoreAsciiCase(y.status, "ended");
    forall y
      ensures IsKnown(y) <==> known(y)
    {
      KnownExactly(y);
    }
    KnownExactly(x);
    FilterMembers(IsAllowed, FirstOfEachGuid(Filter(IsKnown, items)));
    FirstsExactly(Filter(IsKnown, items), x);
    FirstAmong(IsKnown, items, x);
  }

  /** The list of firsts holds exactly the first item of each GUID. */
  lemma FirstsExactly(items: seq<LiveItem>, x: LiveItem)
    ensures x in FirstOfEachGuid(items) <==> IsFirstOfGuid(items, x)
  {
    if x in FirstOfEachGuid(items) {
      FirstsAreFirst(items, x);
    }
    if IsFirstOfGuid(items, x) {
      FirstIsKept(items, x);
    }
  }

  lemma {:induction false} FirstIsKept(items: seq<LiveItem>, x: LiveItem)
    requires IsFirstOfGuid(items, x)
    ensures x in FirstOfEachGuid(items)
  {
    hide Guids;
    var i :| 0 <= i < |items| && items[i] == x && forall j :: 0 <= j < i ==> items[j].guid != x.guid;
    var n := |items| - 1;
    if i < n {
      assert items[..n][i] == x && forall j :: 0 <= j < i ==> items[..n][j].guid != x.guid;
      FirstIsKept(items[..n], x);
    } else {
      FirstsDistinct(items[..n]);
      if x.guid in Guids(items[..n]) {
        MemberOfGuid(items[..n], x.guid);
      }
    }
  }

  lemma MemberOfGuid(items: seq<LiveItem>, g: Guid)
    requires g in Guids(items)
    ensures exists j :: 0 <= j < |items| && items[j].guid == g
  {
  }

  /** The first of its GUID among the elements that a filter keeps. */
  lemma {:induction false} FirstAmong(keep: LiveItem -> bool, items: seq<LiveItem>, x: LiveItem)
    ensures IsFirstOfGuid(Filter(keep, items), x) <==>
            exists i :: 0 <= i < |items| && items[i] == x && keep(x) &&
                        forall j :: 0 <= j < i && items[j].guid == x.guid ==> !keep(items[j])
  {
    hide Filter;
    var kept := Filter(keep, items);
    if IsFirstOfGuid(kept, x) {
      var k :| 0 <= k < |kept| && kept[k] == x && forall j :: 0 <= j < k ==> kept[j].guid != x.guid;
      var at := FilterKeepsOrder(keep, items, k);
      forall j | 0 <= j < at && items[j].guid == x.guid
        ensures !keep(items[j])
      {
        FilterMembers(keep, items[..at]);
        assert items[j] in items[..at];
      }
    }
    if i :| 0 <= i < |items| && items[i] == x && keep(x) && forall j :: 0 <= j < i && items[j].guid == x.guid ==> !keep(items[j]) {
      FilterMembers(keep, items[..i]);
      var front := Filter(keep, items[..i]);
      assert items == items[..i] + ([x] + items[i + 1..]);
      FilterConcat(keep, items[..i], [x] + items[i + 1..]);
      FilterConcat(keep, [x], items[i + 1..]);
      FilterAll(keep, [x]);
      assert kept[|front|] == x && forall j :: 0 <= j < |front| ==> kept[j] == front[j];
      forall j | 0 <= j < |front|
        ensures kept[j].guid != x.guid
      {
        assert front[j] in front;
      }
    }
  }

  // ── what a warning says ────────────────────────────────────────────────

  /** The reason to drop `x`, by each rule. */
  ghost predicate DroppedBy(rule: Rule, items: seq<LiveItem>, x: LiveItem) {
    match rule
    case UnknownStatus => forall status :: status in ["pending", "live", "ended"] ==> !EqIgnoreAsciiCase(x.status, status)
    case DuplicateGuid => exists i, j :: 0 <= i < j < |items| && items[i].guid == items[j].guid && items[j] == x
    case BannedItem =>
      && EqIgnoreAsciiCase(x.status, "live")
      && (x.relayUri.None? || x.relayUri.value == "")
      && (x.startAt.None? || x.endAt.None? || Wrap(x.endAt.value - x.startAt.value) > 21_600)
    case TooManyActive => x in Survivors(items) && x !in Select(items) && !EqIgnoreAsciiCase(x.status, "ended")
    case TooManyEnded => x in Survivors(items) && x !in Select(items) && EqIgnoreAsciiCase(x.status, "ended")
  }

  lemma {:induction false} LaterIsRepeated(items: seq<LiveItem>, x: LiveItem)
    requires x in LaterOfEachGuid(items)
    ensures exists i, j :: 0 <= i < j < |items| && items[i].guid == items[j].guid && items[j] == x
  {
    hide Guids, FirstOfEachGuid;
    var n := |items| - 1;
    if x in LaterOfEachGuid(items[..n]) {
      LaterIsRepeated(items[..n], x);
      var i, j :| 0 <= i < j < n && items[..n][i].guid == items[..n][j].guid && items[..n][j] == x;
      assert items[i].guid == items[j].guid;
    } else {
      FirstsDistinct(items[..n]);
      MemberOfGuid(items[..n], x.guid);
      var i :| 0 <= i < n && items[..n][i].guid == x.guid;
      assert items[i].guid == items[n].guid && items[n] == x;
    }
  }

  lemma RepeatedInItems(keep: LiveItem -> bool, items: seq<LiveItem>, x: LiveItem)
    requires x in LaterOfEachGuid(Filter(keep, items))
    ensures DroppedBy(DuplicateGuid, items, x)
  {
    hide Filter;
    var kept := Filter(keep, items);
    LaterIsRepeated(kept, x);
    var i, j :| 0 <= i < j < |kept| && kept[i].guid == kept[j].guid && kept[j] == x;
    assert Earlier(kept, kept[i], x);
    EarlierInSurvivors(keep, items, kept[i], x);
  }

  lemma RestIsDropped(items: seq<LiveItem>, x: LiveItem)
    ensures x in Rest(Filter(IsActive, Survivors(items)), MAX_ACTIVE_LIVE_ROWS) ==> DroppedBy(TooManyActive, items, x)
    ensures x in Rest(SortByStart(Filter(IsEnded, Survivors(items))), MAX_ENDED_LIVE_ROWS) ==> DroppedBy(TooManyEnded, items, x)
  {
    hide Filter, SortByStart, Take, Select, Survivors, EqIgnoreAsciiCase, Guids;
    var survivors := Survivors(items);
    var active, unsorted := Filter(IsActive, survivors), Filter(IsEnded, survivors);
    SurvivorsDistinct(items);
    FilterDistinct(IsActive, survivors);
    FilterDistinct(IsEnded, survivors);
    FilterMembers(IsActive, survivors);
    FilterMembers(IsEnded, survivors);
    SortedSameGuids(unsorted);
    if x in Rest(active, MAX_ACTIVE_LIVE_ROWS) {
      KeptActive(items);
      FilterMembers(IsActive, Select(items));
      RestIsElsewhere(active, MAX_ACTIVE_LIVE_ROWS, x);
    }
    if x in Rest(SortByStart(unsorted), MAX_ENDED_LIVE_ROWS) {
      RestIsElsewhere(SortByStart(unsorted), MAX_ENDED_LIVE_ROWS, x);
      KeptEnded(items, x);
    }
  }

  lemma RestIsElsewhere(items: seq<LiveItem>, n: nat, x: LiveItem)
    requires DistinctGuids(items) && x in Rest(items, n)
    ensures x in items && x !in Take(items, n)
  {
    var j :| 0 <= j < |Rest(items, n)| && Rest(items, n)[j] == x;
    assert items[n + j] == x;
  }

  /** Each warning names an item of the feed and the rule that drops it. */
  lemma WarningsAreTrue(items: seq<LiveItem>, w: Warning)
    requires w in SelectionWarnings(items)
    ensures exists x :: x in items && x.guid == w.guid && DroppedBy(w.rule, items, x)
  {
    hide Dropped, DroppedBy;
    var dropped := Dropped(w.rule, items);
    assert w in Warn(w.rule, dropped);
    var i :| 0 <= i < |dropped| && Warning(w.rule, dropped[i].guid) == w;
    DroppedItem(items, w.rule, dropped[i]);
  }

  lemma DroppedItem(items: seq<LiveItem>, rule: Rule, x: LiveItem)
    requires x in Dropped(rule, items)
    ensures x in items && DroppedBy(rule, items, x)
  {
    hide Filter, FirstOfEachGuid, LaterOfEachGuid, SortByStart, Rest, Survivors, Select, EqIgnoreAsciiCase;
    var known := Filter(IsKnown, items);
    KnownExactly(x);
    match rule
    case UnknownStatus => FilterMembers(IsUnknown, items);
    case DuplicateGuid => RepeatedInItems(IsKnown, items, x);
    case BannedItem =>
      FilterMembers(IsBanned, FirstOfEachGuid(known));
      FirstsAreMembers(items, x);
    case TooManyActive =>
      RestIsDropped(items, x);
      SurvivesExactly(items, x);
    case TooManyEnded =>
      RestIsDropped(items, x);
      SurvivesExactly(items, x);
  }

  lemma FirstsAreMembers(items: seq<LiveItem>, x: LiveItem)
    requires x in FirstOfEachGuid(Filter(IsKnown, items))
    ensures x in items
  {
    FirstsExactly(Filter(IsKnown, items), x);
    FilterMembers(IsKnown, items);
  }

  /** A second selection keeps each item and gives no warning. */
  lemma SelectIsIdempotent(items: seq<LiveItem>)
    ensures Select(Select(items)) == Select(items)
  {
    hide Filter, SortByStart, HasStatus, DistinctGuids, Sublist, Take;
    var kept := Select(items);
    SelectedAreGood(items);
    FilterAll(IsKnown, kept);
    FirstsOfDistinct(kept);
    FilterAll(IsAllowed, kept);
    assert Survivors(kept) == kept;
    SurvivorsDistinct(items);
    KeptItems(Survivors(items));
    KeptActive(items);
    AtMost(Filter(IsActive, Survivors(items)), MAX_ACTIVE_LIVE_ROWS);
    AtMost(SortByStart(Filter(IsEnded, Survivors(items))), MAX_ENDED_LIVE_ROWS);
    AllKept(kept);
  }

  lemma AtMost<T>(s: seq<T>, n: nat)
    ensures |Take(s, n)| <= n
    ensures |s| <= n ==> Take(s, n) == s
  {
  }

  lemma {:induction false} FirstsOfDistinct(items: seq<LiveItem>)
    requires DistinctGuids(items)
    ensures FirstOfEachGuid(items) == items
  {
    if items != [] {
      hide Guids;
      var n := |items| - 1;
      FirstsOfDistinct(items[..n]);
      GuidInFirsts(items, n, n);
      assert Take(items, n) == items[..n];
    }
  }

  /** A list within both limits is kept whole. */
  lemma AllKept(items: seq<LiveItem>)
    requires DistinctGuids(items)
    requires |Filter(IsActive, items)| <= MAX_ACTIVE_LIVE_ROWS && |Filter(IsEnded, items)| <= MAX_ENDED_LIVE_ROWS
    ensures Filter(Has(KeptGuids(items)), items) == items
  {
    hide Filter, SortByStart, KeptGuids, Take, DistinctGuids;
    var kept := Filter(Has(KeptGuids(items)), items);
    KeptCount(items);
    SortKeeps(Filter(IsEnded, items));
    AtMost(Filter(IsActive, items), MAX_ACTIVE_LIVE_ROWS);
    AtMost(SortByStart(Filter(IsEnded, items)), MAX_ENDED_LIVE_ROWS);
    FullFilter(Has(KeptGuids(items)), items);
  }

  /** The item `x` is the first one of its GUID in the list. */
  ghost predicate IsFirstOfGuid(items: seq<LiveItem>, x: LiveItem) {
    exists i :: 0 <= i < |items| && items[i] == x && forall j :: 0 <= j < i ==> items[j].guid != x.guid
  }

  lemma {:induction false} FirstsAreFirst(items: seq<LiveItem>, x: LiveItem)
    requires x in FirstOfEachGuid(items)
    ensures IsFirstOfGuid(items, x)
  {
    hide Guids;
    var n := |items| - 1;
    var front := FirstOfEachGuid(items[..n]);
    if x in front {
      FirstsAreFirst(items[..n], x);
      var i :| 0 <= i < n && items[..n][i] == x && forall j :: 0 <= j < i ==> items[..n][j].guid != x.guid;
      assert items[i] == x && forall j :: 0 <= j < i ==> items[j].guid == items[..n][j].guid;
    } else {
      FirstsDistinct(items[..n]);
      forall j | 0 <= j < n
        ensures items[j].guid != x.guid
      {
        GuidOfMember(items[..n], j);
      }
      assert items[n] == x;
    }
  }

  lemma GuidOfMember(items: seq<LiveItem>, j: nat)
    requires j < |items|
    ensures items[j].guid in Guids(items)
  {
  }

  /**
   Duplicates go before banned items: a kept item is the first one of its GUID
   among the items of a known status, so a banned first item takes its GUID along.
   */
  lemma KeptIsFirstOfItsGuid(items: seq<LiveItem>, x: LiveItem)
    requires x in Select(items)
    ensures IsFirstOfGuid(Filter(IsKnown, items), x)
  {
    hide Filter, FirstOfEachGuid, KeptGuids, HasStatus, IsFirstOfGuid;
    var firsts := FirstOfEachGuid(Filter(IsKnown, items));
    FilterMembers(Has(KeptGuids(Survivors(items))), Survivors(items));
    FilterMembers(IsAllowed, firsts);
    FirstsAreFirst(Filter(IsKnown, items), x);
  }
}
