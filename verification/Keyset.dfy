/**
 The pages of a search. A cursor is the sort key of the last row of a page, and a
 WHERE condition keeps the rows after it. The conditions are SQL conditions over
 columns that can be null, so they have three truth values.
 */
module Keyset {
  import opened Basics
  import opened Sequences

  // ── SQL truth ──────────────────────────────────────────────────────────

  datatype Tri = True | False | Unknown

  function Of(b: bool): Tri {
    if b then True else False
  }

  function And(a: Tri, b: Tri): Tri {
    if a == False || b == False then False else if a == True && b == True then True else Unknown
  }

  function Or(a: Tri, b: Tri): Tri {
    if a == True || b == True then True else if a == False && b == False then False else Unknown
  }

  function Less(x: Option<int>, y: Option<int>): Tri {
    if x.None? || y.None? then Unknown else Of(x.value < y.value)
  }

  function Equal(x: Option<int>, y: Option<int>): Tri {
    if x.None? || y.None? then Unknown else Of(x.value == y.value)
  }

  // ── rows and their orders ──────────────────────────────────────────────

  /** A hit: its effective rank, its date and its rowid. */
  datatype Hit = Hit(rank: real, date: Option<int>, rowid: int)

  type Order = (Hit, Hit) -> bool

  /** `ORDER BY eff_rank ASC, rowid ASC`. */
  predicate RankBefore(a: Hit, b: Hit) {
    a.rank < b.rank || (a.rank == b.rank && a.rowid < b.rowid)
  }

  /** `ORDER BY row_date DESC NULLS LAST, rowid ASC`. */
  predicate DateBefore(a: Hit, b: Hit) {
    || (a.date.Some? && b.date.None?)
    || (a.date.Some? && b.date.Some? && a.date.value > b.date.value)
    || (a.date == b.date && a.rowid < b.rowid)
  }

  /** The condition of a search by rank after the cursor `(rank, rowid)`. */
  function RankWhere(rank: real, rowid: int, row: Hit): Tri {
    Or(Of(row.rank > rank), And(Of(row.rank == rank), Of(row.rowid > rowid)))
  }

  /** The condition of a search by date after the cursor `(date, rowid)`. */
  function DateWhere(date: Option<int>, rowid: int, row: Hit): Tri {
    if date.Some? then
      Or(Or(Less(row.date, date), Of(row.date.None?)), And(Equal(row.date, date), Of(row.rowid > rowid)))
    else
      And(Of(row.date.None?), Of(row.rowid > rowid))
  }

  /** Each condition keeps exactly the rows after the row that the cursor came from. */
  lemma WheresKeepTheRest(last: Hit, row: Hit)
    ensures RankWhere(last.rank, last.rowid, row) == True <==> RankBefore(last, row)
    ensures DateWhere(last.date, last.rowid, row) == True <==> DateBefore(last, row)
  {
  }

  /** With no test for null, a dated cursor loses each row with no date. */
  lemma NullTestIsNeeded(date: int, rowid: int, row: Hit)
    requires row.date.None?
    ensures Or(Less(row.date, Some(date)), And(Equal(row.date, Some(date)), Of(row.rowid > rowid))) != True
    ensures DateWhere(Some(date), rowid, row) == True
  {
  }

  /** A strict total order on rows of distinct rowids. */
  ghost predicate StrictOrder(before: Order) {
    && (forall a :: !before(a, a))
    && (forall a, b, c :: before(a, b) && before(b, c) ==> before(a, c))
    && (forall a: Hit, b: Hit :: a.rowid != b.rowid ==> before(a, b) || before(b, a))
  }

  lemma BothOrdersAreStrict()
    ensures StrictOrder(RankBefore) && StrictOrder(DateBefore)
  {
  }

  predicate DistinctRowids(rows: seq<Hit>) {
    forall i, j :: 0 <= i < j < |rows| ==> rows[i].rowid != rows[j].rowid
  }

  // ── queries ────────────────────────────────────────────────────────────

  type Where = Hit -> bool

  /** Puts a row before the first row that it comes before. */
  function Insert(before: Order, row: Hit, sorted: seq<Hit>): seq<Hit> {
    if sorted == [] then [row]
    else if before(row, sorted[0]) then [row] + sorted
    else [sorted[0]] + Insert(before, row, sorted[1..])
  }

  function Sort(before: Order, rows: seq<Hit>): seq<Hit> {
    if rows == [] then [] else Insert(before, rows[|rows| - 1], Sort(before, rows[..|rows| - 1]))
  }

  datatype Kind = ByRank | ByDate

  function OrderOf(kind: Kind): Order {
    match kind
    case ByRank => RankBefore
    case ByDate => DateBefore
  }

  /** The condition of a request: `cursor` is the last row of the page before. */
  function WhereAfter(kind: Kind, cursor: Option<Hit>): Where {
    row =>
      cursor.None? ||
      (match kind
       case ByRank => RankWhere(cursor.value.rank, cursor.value.rowid, row)
       case ByDate => DateWhere(cursor.value.date, cursor.value.rowid, row)) == True
  }

  /** `SELECT … WHERE … ORDER BY … LIMIT` of `search_filtered` and `search_by_date`. */
  function Query(kind: Kind, table: seq<Hit>, cursor: Option<Hit>, limit: nat): seq<Hit> {
    Take(Sort(OrderOf(kind), Filter(WhereAfter(kind, cursor), table)), limit)
  }

  ghost predicate IsSorted(before: Order, rows: seq<Hit>) {
    forall i, j :: 0 <= i < j < |rows| ==> before(rows[i], rows[j])
  }

  // ── sorting ────────────────────────────────────────────────────────────

  lemma {:induction false} InsertKeepsRows(before: Order, row: Hit, sorted: seq<Hit>)
    ensures multiset(Insert(before, row, sorted)) == multiset(sorted) + multiset{row}
    decreases |sorted|
  {
    if sorted != [] {
      assert sorted == [sorted[0]] + sorted[1..];
      InsertKeepsRows(before, row, sorted[1..]);
    }
  }

  lemma {:induction false} InsertSorts(before: Order, row: Hit, sorted: seq<Hit>)
    requires StrictOrder(before) && IsSorted(before, sorted)
    requires forall i :: 0 <= i < |sorted| ==> sorted[i].rowid != row.rowid
    ensures IsSorted(before, Insert(before, row, sorted))
    decreases |sorted|
  {
    if sorted != [] && !before(row, sorted[0]) {
      var rest := Insert(before, row, sorted[1..]);
      InsertSorts(before, row, sorted[1..]);
      InsertKeepsRows(before, row, sorted[1..]);
      forall j | 0 <= j < |rest|
        ensures before(sorted[0], rest[j])
      {
        assert rest[j] in multiset(rest);
        assert rest[j] == row || rest[j] in sorted[1..];
      }
    }
  }

  lemma {:induction false} SortSorts(before: Order, rows: seq<Hit>)
    requires StrictOrder(before) && DistinctRowids(rows)
    ensures IsSorted(before, Sort(before, rows))
    ensures multiset(Sort(before, rows)) == multiset(rows)
  {
    hide StrictOrder, IsSorted;
    if rows == [] {
      NothingIsSorted(before);
    } else {
      var n := |rows| - 1;
      SortSorts(before, rows[..n]);
      var sorted := Sort(before, rows[..n]);
      assert rows == rows[..n] + [rows[n]];
      forall i | 0 <= i < |sorted|
        ensures sorted[i].rowid != rows[n].rowid
      {
        assert sorted[i] in multiset(sorted);
        assert sorted[i] in rows[..n];
      }
      InsertSorts(before, rows[n], sorted);
      InsertKeepsRows(before, rows[n], sorted);
    }
  }

  lemma NothingIsSorted(before: Order)
    ensures IsSorted(before, [])
  {
  }

  /**
   The full result holds each row of the table once: by rank, the lowest first;
   by date, the newest first and the rows with no date last; ties by rowid.
   */
  lemma ResultOrder(kind: Kind, table: seq<Hit>, i: nat, j: nat)
    requires DistinctRowids(table) && i < j < |Sort(OrderOf(kind), table)|
    ensures var list := Sort(OrderOf(kind), table);
            var a, b := list[i], list[j];
            && multiset(list) == multiset(table)
            && (kind == ByRank ==> a.rank <= b.rank && (a.rank == b.rank ==> a.rowid < b.rowid))
            && (kind == ByDate ==>
                  && (a.date.None? ==> b.date.None?)
                  && (a.date.Some? && b.date.Some? ==> a.date.value >= b.date.value)
                  && (a.date == b.date ==> a.rowid < b.rowid))
  {
    hide Sort, StrictOrder, DistinctRowids;
    OrderIsStrict(kind);
    SortSorts(OrderOf(kind), table);
  }

  /** Two sorted lists of the same rows are one list. */
  lemma {:induction false} SortedIsUnique(before: Order, a: seq<Hit>, b: seq<Hit>)
    requires StrictOrder(before) && IsSorted(before, a) && IsSorted(before, b)
    requires multiset(a) == multiset(b)
    ensures a == b
    decreases |a|
  {
    assert |a| == |multiset(a)| == |multiset(b)| == |b|;
    if a != [] {
      assert a == [a[0]] + a[1..] && b == [b[0]] + b[1..];
      assert a[0] in multiset(b) && b[0] in multiset(a);
      assert a[0] == b[0];
      assert multiset(a[1..]) == multiset(a) - multiset{a[0]};
      assert multiset(b[1..]) == multiset(b) - multiset{b[0]};
      SortedIsUnique(before, a[1..], b[1..]);
    }
  }

  // ── filtering ──────────────────────────────────────────────────────────

  lemma FilterSorted(before: Order, keep: Where, rows: seq<Hit>)
    requires StrictOrder(before) && IsSorted(before, rows)
    ensures IsSorted(before, Filter(keep, rows))
  {
    hide Filter, StrictOrder;
    var kept := Filter(keep, rows);
    forall i, j | 0 <= i < j < |kept|
      ensures before(kept[i], kept[j])
    {
      var at := FilterKeepsOrder(keep, rows, j);
      assert kept[..j][i] == kept[i];
      var at' := FilterKeepsOrder(keep, rows[..at], i);
    }
  }

  lemma FilterDistinct(keep: Where, rows: seq<Hit>)
    requires DistinctRowids(rows)
    ensures DistinctRowids(Filter(keep, rows))
  {
    hide Filter;
    var kept := Filter(keep, rows);
    forall i, j | 0 <= i < j < |kept|
      ensures kept[i].rowid != kept[j].rowid
    {
      var at := FilterKeepsOrder(keep, rows, j);
      assert kept[..j][i] == kept[i];
      var at' := FilterKeepsOrder(keep, rows[..at], i);
    }
  }

  /** The order and the condition of a query can be applied in either sequence. */
  lemma SortThenFilter(before: Order, keep: Where, rows: seq<Hit>)
    requires StrictOrder(before) && DistinctRowids(rows)
    ensures Sort(before, Filter(keep, rows)) == Filter(keep, Sort(before, rows))
  {
    hide Filter, Sort, StrictOrder, IsSorted, DistinctRowids;
    SortSorts(before, rows);
    FilterDistinct(keep, rows);
    SortSorts(before, Filter(keep, rows));
    FilterSorted(before, keep, Sort(before, rows));
    forall row
      ensures multiset(Filter(keep, rows))[row] == multiset(Filter(keep, Sort(before, rows)))[row]
    {
      FilterCounts(keep, rows, row);
      FilterCounts(keep, Sort(before, rows), row);
    }
    SortedIsUnique(before, Sort(before, Filter(keep, rows)), Filter(keep, Sort(before, rows)));
  }

  // ── following the cursors ──────────────────────────────────────────────

  lemma WhereKeepsAfter(kind: Kind, last: Hit, row: Hit)
    ensures WhereAfter(kind, Some(last))(row) <==> OrderOf(kind)(last, row)
  {
    WheresKeepTheRest(last, row);
  }

  /** The page after row `k` of the full list is the list from there. */
  lemma PageIsNext(kind: Kind, table: seq<Hit>, k: nat, limit: nat)
    requires DistinctRowids(table) && k <= |Sort(OrderOf(kind), table)|
    ensures var list := Sort(OrderOf(kind), table);
            Query(kind, table, if k == 0 then None else Some(list[k - 1]), limit) == Take(list[k..], limit)
  {
    hide Filter, Sort, Take, StrictOrder, WhereAfter, OrderOf, DistinctRowids;
    var before := OrderOf(kind);
    assert StrictOrder(before) by { OrderIsStrict(kind); }
    var list := Sort(before, table);
    var cursor := if k == 0 then None else Some(list[k - 1]);
    var keep := WhereAfter(kind, cursor);
    SortSorts(before, table);
    SortThenFilter(before, keep, table);
    assert list == list[..k] + list[k..];
    FilterConcat(keep, list[..k], list[k..]);
    if k > 0 {
      forall i | 0 <= i < k
        ensures !keep(list[..k][i])
      {
        WhereKeepsAfter(kind, list[k - 1], list[i]);
        NotBeforeItself(before, list, i, k - 1);
      }
      forall i | k <= i < |list|
        ensures keep(list[i])
      {
        WhereKeepsAfter(kind, list[k - 1], list[i]);
      }
      FilterNone(keep, list[..k]);
      FilterAll(keep, list[k..]);
    } else {
      NoCursorKeepsAll(kind, list);
      FilterAll(keep, list[k..]);
      FilterNone(keep, list[..k]);
    }
    assert Filter(keep, list) == list[k..];
  }

  lemma OrderIsStrict(kind: Kind)
    ensures StrictOrder(OrderOf(kind))
  {
    BothOrdersAreStrict();
  }

  lemma NoCursorKeepsAll(kind: Kind, rows: seq<Hit>)
    ensures forall i :: 0 <= i < |rows| ==> WhereAfter(kind, None)(rows[i])
  {
  }

  lemma NotBeforeItself(before: Order, list: seq<Hit>, i: nat, j: nat)
    requires StrictOrder(before) && IsSorted(before, list) && i <= j < |list|
    ensures !before(list[j], list[i])
  {
  }

  /**
   A client that follows the cursors. Each request reads one row more than the
   page holds, to know if there is a next page. The pages are the full sorted
   result, with no row repeated and none left out.
   */
  method FollowCursors(kind: Kind, table: seq<Hit>, limit: nat) returns (rows: seq<Hit>)
    requires DistinctRowids(table) && limit >= 1
    ensures rows == Sort(OrderOf(kind), table)
  {
    hide Sort, Query, DistinctRowids;
    rows := [];
    var cursor: Option<Hit> := None;
    var hasMore := true;
    ghost var list := Sort(OrderOf(kind), table);
    while hasMore
      invariant rows <= list
      invariant hasMore ==> cursor == if rows == [] then None else Some(rows[|rows| - 1])
      invariant !hasMore ==> rows == list
      decreases hasMore, |list| - |rows|
    {
      PageIsNext(kind, table, |rows|, limit + 1);
      var found := Query(kind, table, cursor, limit + 1);
      hasMore := |found| > limit;
      var page := Take(found, limit);
      rows := rows + page;
      if hasMore {
        cursor := Some(page[limit - 1]);
      }
    }
  }

  // ── a search over two types ────────────────────────────────────────────

  lemma SortPermuted(before: Order, a: seq<Hit>, b: seq<Hit>)
    requires StrictOrder(before) && DistinctRowids(a) && DistinctRowids(b) && multiset(a) == multiset(b)
    ensures Sort(before, a) == Sort(before, b)
  {
    hide Sort, StrictOrder, DistinctRowids;
    SortSorts(before, a);
    SortSorts(before, b);
    SortedIsUnique(before, Sort(before, a), Sort(before, b));
  }

  function Among(rows: seq<Hit>): Where {
    row => row in rows
  }

  /** A part of a sorted union is the sort of that part. */
  lemma PartOfUnion(before: Order, a: seq<Hit>, b: seq<Hit>)
    requires StrictOrder(before) && DistinctRowids(a + b)
    ensures Filter(Among(a), Sort(before, a + b)) == Sort(before, a)
    ensures Filter(Among(b), Sort(before, a + b)) == Sort(before, b)
  {
    hide Filter, Sort, StrictOrder;
    SortThenFilter(before, Among(a), a + b);
    SortThenFilter(before, Among(b), a + b);
    FilterConcat(Among(a), a, b);
    FilterConcat(Among(b), a, b);
    FilterAll(Among(a), a);
    FilterAll(Among(b), b);
    forall i, j | 0 <= i < |a| && 0 <= j < |b|
      ensures a[i] != b[j]
    {
      assert (a + b)[i].rowid != (a + b)[|a| + j].rowid;
    }
    FilterNone(Among(a), b);
    FilterNone(Among(b), a);
    assert a + [] == a && [] + b == b;
  }

  /** The first rows of the union come from the first rows of its parts. */
  lemma FirstRowsComeFrom(before: Order, a: seq<Hit>, b: seq<Hit>, n: nat, i: nat)
    requires StrictOrder(before) && DistinctRowids(a + b)
    requires i < n && i < |Sort(before, a + b)|
    ensures Sort(before, a + b)[i] in Take(Sort(before, a), n) + Take(Sort(before, b), n)
  {
    hide Filter, Sort, StrictOrder;
    var union := Sort(before, a + b);
    PartOfUnion(before, a, b);
    SortSorts(before, a + b);
    assert union[i] in multiset(union);
    assert union[i] in a + b;
    if union[i] in a {
      KeptByThen(Among(a), union, i);
    } else {
      KeptByThen(Among(b), union, i);
    }
  }

  lemma DistinctPermuted(a: seq<Hit>, b: seq<Hit>)
    requires DistinctRowids(a) && multiset(a) == multiset(b)
    ensures DistinctRowids(b)
  {
    var rowid := (row: Hit) => row.rowid;
    MapPermutation(rowid, a, b);
    assert NoRepeats(Map(rowid, a));
    NoRepeatsPermuted(Map(rowid, a), Map(rowid, b));
    forall i, j | 0 <= i < j < |b|
      ensures b[i].rowid != b[j].rowid
    {
      assert Map(rowid, b)[i] != Map(rowid, b)[j];
    }
  }

  /** The rows of two lists that are among the first `n` of either. */
  lemma FilterFirsts(a: seq<Hit>, b: seq<Hit>, n: nat)
    requires DistinctRowids(a + b)
    ensures Filter(Among(Take(a, n) + Take(b, n)), a + b) == Take(a, n) + Take(b, n)
  {
    hide Filter, DistinctRowids;
    var k, m := |Take(a, n)|, |Take(b, n)|;
    var first := a[..k] + b[..m];
    assert Take(a, n) + Take(b, n) == first;
    FilterConcat(Among(first), a, b);
    forall i | 0 <= i < |a|
      ensures Among(first)(a[i]) <==> i < k
    {
      if i < k {
        assert first[i] == a[i];
      } else {
        NotAmongFirsts(a, b, k, m, i);
      }
    }
    forall i | 0 <= i < |b|
      ensures Among(first)(b[i]) <==> i < m
    {
      if i < m {
        assert first[k + i] == b[i];
      } else {
        NotAmongFirsts(a, b, k, m, |a| + i);
      }
    }
    FilterHalf(Among(first), a, k);
    FilterHalf(Among(first), b, m);
  }

  lemma NotAmongFirsts(a: seq<Hit>, b: seq<Hit>, k: nat, m: nat, at: nat)
    requires DistinctRowids(a + b) && k <= |a| && m <= |b| && at < |a + b|
    requires k <= at < |a| || |a| + m <= at
    ensures (a + b)[at] !in a[..k] + b[..m]
  {
    var row := (a + b)[at];
    forall i | 0 <= i < k
      ensures a[i] != row
    {
      assert (a + b)[i].rowid != (a + b)[at].rowid;
    }
    forall j | 0 <= j < m
      ensures b[j] != row
    {
      assert (a + b)[|a| + j].rowid != (a + b)[at].rowid;
    }
  }

  lemma MergedFirsts(before: Order, a: seq<Hit>, b: seq<Hit>, n: nat)
    requires StrictOrder(before) && DistinctRowids(a + b)
    ensures var first := Take(Sort(before, a), n) + Take(Sort(before, b), n);
            Take(Sort(before, first), n) == Take(Sort(before, a + b), n)
  {
    hide Filter, Sort, StrictOrder, Take;
    var la, lb := Sort(before, a), Sort(before, b);
    var first := Take(la, n) + Take(lb, n);
    assert DistinctRowids(a) && DistinctRowids(b) by { DistinctHalves(a, b); }
    SortSorts(before, a);
    SortSorts(before, b);
    DistinctPermuted(a + b, la + lb);
    SortPermuted(before, a + b, la + lb);
    FilterFirsts(la, lb, n);
    SortThenFilter(before, Among(first), la + lb);
    var union := Sort(before, a + b);
    forall i | 0 <= i < n && i < |union|
      ensures Among(first)(union[i])
    {
      FirstRowsComeFrom(before, a, b, n, i);
    }
    FirstRowsStay(Among(first), union, n);
  }

  lemma DistinctHalves(a: seq<Hit>, b: seq<Hit>)
    requires DistinctRowids(a + b)
    ensures DistinctRowids(a) && DistinctRowids(b)
  {
    forall i, j | 0 <= i < j < |a|
      ensures a[i].rowid != a[j].rowid
    {
      assert (a + b)[i].rowid != (a + b)[j].rowid;
    }
    forall i, j | 0 <= i < j < |b|
      ensures b[i].rowid != b[j].rowid
    {
      assert (a + b)[|a| + i].rowid != (a + b)[|a| + j].rowid;
    }
  }

  /** A search with no type: one page of feeds and one of tracks, merged and cut. */
  function MergedQuery(feeds: seq<Hit>, tracks: seq<Hit>, cursor: Option<Hit>, limit: nat): seq<Hit> {
    Take(Sort(RankBefore, Query(ByRank, feeds, cursor, limit) + Query(ByRank, tracks, cursor, limit)), limit)
  }

  /** The merged page is the page of one query over both types. */
  lemma MergedQueryIsOneQuery(feeds: seq<Hit>, tracks: seq<Hit>, cursor: Option<Hit>, limit: nat)
    requires DistinctRowids(feeds + tracks)
    ensures MergedQuery(feeds, tracks, cursor, limit) == Query(ByRank, feeds + tracks, cursor, limit)
  {
    hide Filter, Sort, Take, StrictOrder, WhereAfter;
    BothOrdersAreStrict();
    var keep := WhereAfter(ByRank, cursor);
    FilterConcat(keep, feeds, tracks);
    FilterDistinct(keep, feeds + tracks);
    MergedFirsts(RankBefore, Filter(keep, feeds), Filter(keep, tracks), limit);
  }
}
