/** Permutations of rows, and the rows that stay when one row of each key stays. */
module RowLemmas {
  import opened FeedTables
  import opened Sequences

  lemma FieldsPermuted(a: seq<Row>, b: seq<Row>)
    requires multiset(a) == multiset(b)
    ensures multiset(FieldsOf(a)) == multiset(FieldsOf(b))
  {
    var f := (r: Row) => r.fields;
    MapPermutation(f, a, b);
    assert Map(f, a) == FieldsOf(a) && Map(f, b) == FieldsOf(b);
  }

  lemma KeysPermuted(kind: SectionKind, a: seq<Row>, b: seq<Row>)
    requires multiset(a) == multiset(b) && NoRepeats(Keys(kind, a))
    ensures NoRepeats(Keys(kind, b))
  {
    var f := (r: Row) => KeyOf(kind, r);
    MapPermutation(f, a, b);
    assert Map(f, a) == Keys(kind, a) && Map(f, b) == Keys(kind, b);
    NoRepeatsPermuted(Keys(kind, a), Keys(kind, b));
  }

  // ── deduplication ──────────────────────────────────────────────────────

  /** Row `i` is the first row of its key. */
  predicate IsFirst(kind: SectionKind, rows: seq<Row>, i: nat) {
    i < |rows| && forall j :: 0 <= j < i ==> KeyOf(kind, rows[j]) != KeyOf(kind, rows[i])
  }

  lemma KeysOfMore(kind: SectionKind, rows: seq<Row>, row: Row)
    ensures Keys(kind, rows + [row]) == Keys(kind, rows) + [KeyOf(kind, row)]
  {
    hide KeyOf;
  }

  lemma DedupeStep(kind: SectionKind, rows: seq<Row>, i: nat)
    requires KeyColumns(kind) != [] && i < |rows|
    ensures var d := Dedupe(kind, rows[..i]);
            Dedupe(kind, rows[..i + 1]) == if KeyOf(kind, rows[i]) in Keys(kind, d) then d else d + [rows[i]]
  {
    hide KeyOf, Keys;
    assert rows[..i + 1][..i] == rows[..i];
  }

  lemma {:induction false} DedupeDistinct(kind: SectionKind, rows: seq<Row>)
    requires KeyColumns(kind) != []
    ensures NoRepeats(Keys(kind, Dedupe(kind, rows)))
  {
    hide KeyOf, KeyColumns;
    if rows != [] {
      var n := |rows| - 1;
      DedupeDistinct(kind, rows[..n]);
      var d := Dedupe(kind, rows[..n]);
      assert Keys(kind, d + [rows[n]]) == Keys(kind, d) + [KeyOf(kind, rows[n])];
    }
  }

  lemma {:induction false} DedupeCoversKeys(kind: SectionKind, rows: seq<Row>, i: nat)
    requires KeyColumns(kind) != [] && i < |rows|
    ensures KeyOf(kind, rows[i]) in Keys(kind, Dedupe(kind, rows))
    decreases |rows|
  {
    hide KeyOf;
    var n := |rows| - 1;
    var d := Dedupe(kind, rows[..n]);
    assert Keys(kind, d + [rows[n]]) == Keys(kind, d) + [KeyOf(kind, rows[n])];
    if i < n {
      DedupeCoversKeys(kind, rows[..n], i);
    }
  }

  lemma FirstInPrefix(kind: SectionKind, rows: seq<Row>, n: nat, i: nat)
    requires n <= |rows| && IsFirst(kind, rows[..n], i)
    ensures IsFirst(kind, rows, i) && rows[i] == rows[..n][i]
  {
    hide KeyOf;
    forall j | 0 <= j < i
      ensures KeyOf(kind, rows[j]) != KeyOf(kind, rows[i])
    {
      assert rows[..n][j] == rows[j];
    }
  }

  lemma LastIsFirst(kind: SectionKind, rows: seq<Row>)
    requires KeyColumns(kind) != [] && rows != []
    requires KeyOf(kind, rows[|rows| - 1]) !in Keys(kind, Dedupe(kind, rows[..|rows| - 1]))
    ensures IsFirst(kind, rows, |rows| - 1)
  {
    hide KeyOf, Keys, Dedupe;
    var n := |rows| - 1;
    forall j: nat | j < n
      ensures KeyOf(kind, rows[j]) != KeyOf(kind, rows[n])
    {
      DedupeCoversKeys(kind, rows[..n], j);
    }
  }

  lemma {:induction false} DedupeOnlyFirsts(kind: SectionKind, rows: seq<Row>, row: Row)
    requires KeyColumns(kind) != [] && row in Dedupe(kind, rows)
    ensures exists i: nat :: i < |rows| && IsFirst(kind, rows, i) && rows[i] == row
    decreases |rows|
  {
    hide KeyOf, Keys, IsFirst;
    var n := |rows| - 1;
    var d := Dedupe(kind, rows[..n]);
    if row in d {
      DedupeOnlyFirsts(kind, rows[..n], row);
      var i: nat :| i < n && IsFirst(kind, rows[..n], i) && rows[..n][i] == row;
      FirstInPrefix(kind, rows, n, i);
    } else {
      LastIsFirst(kind, rows);
    }
  }

  /** One row stays for each key: the rows that stay are the first of their keys. */
  lemma DedupeKeepsFirsts(kind: SectionKind, rows: seq<Row>)
    requires KeyColumns(kind) != []
    ensures NoRepeats(Keys(kind, Dedupe(kind, rows)))
    ensures forall row :: row in Dedupe(kind, rows) <==> exists i: nat :: IsFirst(kind, rows, i) && rows[i] == row
  {
    hide KeyOf, Dedupe;
    var d := Dedupe(kind, rows);
    DedupeDistinct(kind, rows);
    forall i: nat | IsFirst(kind, rows, i)
      ensures rows[i] in d
    {
      DedupeCoversKeys(kind, rows, i);
      var k :| 0 <= k < |d| && Keys(kind, d)[k] == KeyOf(kind, rows[i]);
      DedupeOnlyFirsts(kind, rows, d[k]);
      var j: nat :| j < |rows| && IsFirst(kind, rows, j) && rows[j] == d[k];
      assert KeyOf(kind, rows[j]) == KeyOf(kind, rows[i]);
      assert !(j < i) && !(i < j);
    }
    forall row | row in d
      ensures exists i: nat :: IsFirst(kind, rows, i) && rows[i] == row
    {
      DedupeOnlyFirsts(kind, rows, row);
    }
  }

  lemma LastKeyIsNew(kind: SectionKind, rows: seq<Row>)
    requires rows != [] && NoRepeats(Keys(kind, rows))
    ensures NoRepeats(Keys(kind, rows[..|rows| - 1]))
    ensures KeyOf(kind, rows[|rows| - 1]) !in Keys(kind, rows[..|rows| - 1])
  {
    hide KeyOf;
    var n := |rows| - 1;
    var keys := Keys(kind, rows);
    assert keys[..n] == Keys(kind, rows[..n]);
    assert keys[n] == KeyOf(kind, rows[n]) && keys[n] !in keys[..n];
  }

  lemma {:induction false} DedupeOfDistinct(kind: SectionKind, rows: seq<Row>)
    requires NoRepeats(Keys(kind, rows))
    ensures Dedupe(kind, rows) == rows
  {
    hide KeyOf, Keys, NoRepeats;
    if KeyColumns(kind) != [] && rows != [] {
      LastKeyIsNew(kind, rows);
      DedupeOfDistinct(kind, rows[..|rows| - 1]);
    }
  }
}
