/** Maps, filters and permutations of sequences, and the size of a subset. */
module Sequences {

  // ── permutations ───────────────────────────────────────────────────────

  function Map<A, B>(f: A -> B, s: seq<A>): (m: seq<B>)
    ensures |m| == |s|
  {
    seq(|s|, i requires 0 <= i < |s| => f(s[i]))
  }

  lemma MapConcat<A, B>(f: A -> B, a: seq<A>, b: seq<A>)
    ensures Map(f, a + b) == Map(f, a) + Map(f, b)
  {
  }

  /** `b` holds the last element of its permutation `a` between two parts. */
  lemma FindLast<A>(a: seq<A>, b: seq<A>) returns (front: seq<A>, back: seq<A>)
    requires a != [] && multiset(a) == multiset(b)
    ensures b == front + ([a[|a| - 1]] + back)
    ensures multiset(a[..|a| - 1]) == multiset(front + back)
  {
    var n := |a| - 1;
    var x := a[n];
    assert a == a[..n] + [x];
    assert x in multiset(b);
    var i :| 0 <= i < |b| && b[i] == x;
    front, back := b[..i], b[i + 1..];
    assert b == front + ([x] + back);
    assert multiset(b) - multiset{x} == multiset(front + back) by {
      assert multiset(front + ([x] + back)) == multiset(front) + (multiset{x} + multiset(back));
    }
    assert multiset(a) - multiset{x} == multiset(a[..n]) by {
      assert multiset(a[..n] + [x]) == multiset(a[..n]) + multiset{x};
    }
  }

  lemma {:induction false} MapPermutation<A, B>(f: A -> B, a: seq<A>, b: seq<A>)
    requires multiset(a) == multiset(b)
    ensures multiset(Map(f, a)) == multiset(Map(f, b))
    decreases |a|
  {
    hide Map;
    assert |a| == |multiset(a)| == |multiset(b)| == |b|;
    if a != [] {
      var n := |a| - 1;
      var x := a[n];
      assert a == a[..n] + [x];
      var front, back := FindLast(a, b);
      MapPermutation(f, a[..n], front + back);
      MapConcat(f, a[..n], [x]);
      MapConcat(f, front, [x] + back);
      MapConcat(f, [x], back);
      MapConcat(f, front, back);
    }
  }

  predicate NoRepeats<T(==)>(s: seq<T>) {
    forall i, j :: 0 <= i < j < |s| ==> s[i] != s[j]
  }

  lemma {:induction false} NoRepeatsByCount<T>(s: seq<T>)
    ensures NoRepeats(s) <==> forall x :: multiset(s)[x] <= 1
  {
    if s != [] {
      var n := |s| - 1;
      var x := s[n];
      NoRepeatsByCount(s[..n]);
      assert s == s[..n] + [x];
      assert multiset(s) == multiset(s[..n]) + multiset{x};
      if NoRepeats(s) {
        assert x !in multiset(s[..n]);
      } else if NoRepeats(s[..n]) {
        assert multiset(s)[x] >= 2;
      } else {
        var y :| multiset(s[..n])[y] > 1;
        assert multiset(s)[y] > 1;
      }
    }
  }

  lemma NoRepeatsPermuted<T>(a: seq<T>, b: seq<T>)
    requires multiset(a) == multiset(b) && NoRepeats(a)
    ensures NoRepeats(b)
  {
    NoRepeatsByCount(a);
    NoRepeatsByCount(b);
  }

  // ── filters ────────────────────────────────────────────────────────────

  function Filter<T>(keep: T -> bool, rows: seq<T>): seq<T> {
    if rows == [] then []
    else Filter(keep, rows[..|rows| - 1]) + if keep(rows[|rows| - 1]) then [rows[|rows| - 1]] else []
  }

  function Take<T>(rows: seq<T>, n: nat): seq<T> {
    if n < |rows| then rows[..n] else rows
  }

  lemma {:induction false} FilterConcat<T>(keep: T -> bool, a: seq<T>, b: seq<T>)
    ensures Filter(keep, a + b) == Filter(keep, a) + Filter(keep, b)
    decreases |b|
  {
    if b == [] {
      assert a + b == a;
    } else {
      FilterConcat(keep, a, b[..|b| - 1]);
      assert (a + b)[..|a + b| - 1] == a + b[..|b| - 1];
    }
  }

  lemma {:induction false} FilterSame<T>(p: T -> bool, q: T -> bool, rows: seq<T>)
    requires forall x :: p(x) == q(x)
    ensures Filter(p, rows) == Filter(q, rows)
  {
    if rows != [] {
      FilterSame(p, q, rows[..|rows| - 1]);
    }
  }

  lemma {:induction false} FilterAll<T>(keep: T -> bool, rows: seq<T>)
    requires forall i :: 0 <= i < |rows| ==> keep(rows[i])
    ensures Filter(keep, rows) == rows
  {
    if rows != [] {
      FilterAll(keep, rows[..|rows| - 1]);
    }
  }

  lemma {:induction false} FilterNone<T>(keep: T -> bool, rows: seq<T>)
    requires forall i :: 0 <= i < |rows| ==> !keep(rows[i])
    ensures Filter(keep, rows) == []
  {
    if rows != [] {
      FilterNone(keep, rows[..|rows| - 1]);
    }
  }

  /** A filter keeps a sublist: each kept element stands no later than it stood. */
  lemma {:induction false} FilterKeepsOrder<T>(keep: T -> bool, rows: seq<T>, k: nat) returns (at: nat)
    requires k < |Filter(keep, rows)|
    ensures k <= at < |rows| && rows[at] == Filter(keep, rows)[k] && keep(rows[at])
    ensures Filter(keep, rows[..at]) == Filter(keep, rows)[..k]
    decreases |rows|
  {
    var n := |rows| - 1;
    var front := Filter(keep, rows[..n]);
    if k < |front| {
      at := FilterKeepsOrder(keep, rows[..n], k);
      assert rows[..n][..at] == rows[..at];
    } else {
      at := n;
      FilterShortens(keep, rows[..n]);
    }
  }

  lemma {:induction false} FilterShortens<T>(keep: T -> bool, rows: seq<T>)
    ensures |Filter(keep, rows)| <= |rows|
  {
    if rows != [] {
      FilterShortens(keep, rows[..|rows| - 1]);
    }
  }

  lemma {:induction false} FilterCounts<T>(keep: T -> bool, rows: seq<T>, row: T)
    ensures multiset(Filter(keep, rows))[row] == if keep(row) then multiset(rows)[row] else 0
  {
    if rows != [] {
      var n := |rows| - 1;
      FilterCounts(keep, rows[..n], row);
      assert rows == rows[..n] + [rows[n]];
    }
  }

  lemma FilterHalf<T>(keep: T -> bool, rows: seq<T>, k: nat)
    requires k <= |rows| && forall i :: 0 <= i < |rows| ==> (keep(rows[i]) <==> i < k)
    ensures Filter(keep, rows) == rows[..k]
  {
    hide Filter;
    assert rows == rows[..k] + rows[k..];
    FilterConcat(keep, rows[..k], rows[k..]);
    FilterAll(keep, rows[..k]);
    FilterNone(keep, rows[k..]);
  }

  /** The first `n` elements of a list stay first in any sublist that keeps them. */
  lemma FirstRowsStay<T>(keep: T -> bool, list: seq<T>, n: nat)
    requires forall i :: 0 <= i < n && i < |list| ==> keep(list[i])
    ensures Take(Filter(keep, list), n) == Take(list, n)
  {
    hide Filter;
    if n < |list| {
      assert list == list[..n] + list[n..];
      FilterConcat(keep, list[..n], list[n..]);
      FilterAll(keep, list[..n]);
    } else {
      FilterAll(keep, list);
    }
  }

  /** A kept element is among the first `i + 1` kept elements when it stands at `i`. */
  lemma KeptByThen<T>(keep: T -> bool, list: seq<T>, i: nat)
    requires i < |list| && keep(list[i])
    ensures list[i] in Take(Filter(keep, list), i + 1)
  {
    hide Filter;
    assert list == list[..i + 1] + list[i + 1..];
    assert list[..i + 1] == list[..i] + [list[i]];
    FilterConcat(keep, list[..i + 1], list[i + 1..]);
    FilterConcat(keep, list[..i], [list[i]]);
    FilterAll(keep, [list[i]]);
    FilterShortens(keep, list[..i]);
    assert Filter(keep, list)[|Filter(keep, list[..i])|] == list[i];
  }

  lemma {:induction false} FilterMembers<T>(keep: T -> bool, items: seq<T>)
    ensures forall x :: x in Filter(keep, items) <==> x in items && keep(x)
  {
    if items != [] {
      FilterMembers(keep, items[..|items| - 1]);
      assert items == items[..|items| - 1] + [items[|items| - 1]];
    }
  }

  lemma {:induction false} FilterCommutes<T>(p: T -> bool, q: T -> bool, items: seq<T>)
    ensures Filter(p, Filter(q, items)) == Filter(q, Filter(p, items))
  {
    if items != [] {
      var n := |items| - 1;
      FilterCommutes(p, q, items[..n]);
      FilterConcat(p, Filter(q, items[..n]), if q(items[n]) then [items[n]] else []);
      FilterConcat(q, Filter(p, items[..n]), if p(items[n]) then [items[n]] else []);
    }
  }

  lemma {:induction false} FilterPermuted<T>(keep: T -> bool, a: seq<T>, b: seq<T>)
    requires multiset(a) == multiset(b)
    ensures multiset(Filter(keep, a)) == multiset(Filter(keep, b))
    ensures |Filter(keep, a)| == |Filter(keep, b)|
    decreases |a|
  {
    hide Filter;
    assert |a| == |multiset(a)| == |multiset(b)| == |b|;
    if a != [] {
      var n := |a| - 1;
      assert a == a[..n] + [a[n]];
      var front, back := FindLast(a, b);
      FilterPermuted(keep, a[..n], front + back);
      FilterConcat(keep, a[..n], [a[n]]);
      FilterConcat(keep, front, [a[n]] + back);
      FilterConcat(keep, [a[n]], back);
      FilterConcat(keep, front, back);
    }
  }

  /** A filter that loses no element changes nothing. */
  lemma {:induction false} FullFilter<T>(keep: T -> bool, items: seq<T>)
    ensures |Filter(keep, items)| <= |items|
    ensures |Filter(keep, items)| == |items| ==> Filter(keep, items) == items
  {
    if items != [] {
      FullFilter(keep, items[..|items| - 1]);
    }
  }

  // ── sets ───────────────────────────────────────────────────────────────

  lemma {:induction false} SubsetSize<T>(a: set<T>, b: set<T>)
    requires a <= b
    ensures |a| <= |b|
    decreases b
  {
    if a != {} {
      var x :| x in a;
      SubsetSize(a - {x}, b - {x});
    }
  }
}
