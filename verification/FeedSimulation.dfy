/** The events of one ingest bring a replica of the feed to what the overwrite leaves. */
module FeedSimulation {
  import opened Basics
  import opened FeedTables
  import opened RowLemmas

  // ── sections ───────────────────────────────────────────────────────────

  lemma ProjectPermuted(kind: SectionKind, a: seq<Row>, b: seq<Row>)
    requires multiset(a) == multiset(b) && (kind == Routes ==> a == b)
    ensures Project(kind, a) == Project(kind, b)
  {
    FieldsPermuted(a, b);
  }

  lemma DedupePermuted(kind: SectionKind, rows: seq<Row>, permuted: seq<Row>)
    requires multiset(permuted) == multiset(Dedupe(kind, rows))
    requires KeyColumns(kind) == [] ==> permuted == rows
    ensures Dedupe(kind, permuted) == permuted
  {
    if KeyColumns(kind) != [] {
      DedupeDistinct(kind, rows);
      KeysPermuted(kind, Dedupe(kind, rows), permuted);
      DedupeOfDistinct(kind, permuted);
    }
  }

  lemma StoreOfPlainRows(kind: SectionKind, rows: seq<Row>)
    requires kind !in {Routes, ListValues}
    ensures Store(kind, rows) == rows
  {
  }

  /** The event carries rows that store as the overwrite stores them. */
  lemma CarriedRows(order: ReadOrder, b: FeedBody, kind: SectionKind)
    requires ReadsAll(order)
    ensures Dedupe(kind, NewerRows(order, b, kind)) == NewerRows(order, b, kind)
    ensures Project(kind, Store(kind, NewerRows(order, b, kind))) == Project(kind, StoredSection(b, kind))
  {
    hide Store, Project, Dedupe;
    var d := Dedupe(kind, BodySection(b, kind));
    var rows := NewerRows(order, b, kind);
    assert multiset(rows) == multiset(d);
    if KeyColumns(kind) == [] {
      DedupeWithNoKey(kind, BodySection(b, kind));
    }
    DedupePermuted(kind, BodySection(b, kind), rows);
    if kind == Live {
      StoreOfPlainRows(kind, rows);
      StoreOfPlainRows(kind, d);
      ProjectPermuted(kind, rows, d);
    }
  }

  lemma DedupeWithNoKey(kind: SectionKind, rows: seq<Row>)
    requires KeyColumns(kind) == []
    ensures Dedupe(kind, rows) == rows
  {
  }

  predicate ReadsBack(kind: SectionKind, rows: seq<Row>) {
    forall row :: row in rows ==> Stored(kind, row) == row
  }

  /** A section with no event holds what the new rows would store. */
  lemma UnchangedSection(order: ReadOrder, kind: SectionKind, existing: seq<Row>, newer: seq<Row>)
    requires ReadsAll(order) && ReadsBack(kind, existing)
    requires !Changed(order(kind, existing), newer)
    ensures Project(kind, existing) == Project(kind, Store(kind, newer))
  {
    var read := order(kind, existing);
    assert multiset(read) == multiset(existing);
    ProjectPermuted(kind, read, existing);
    forall i | 0 <= i < |read|
      ensures Store(kind, newer)[i].fields == read[i].fields
    {
      assert read[i] in multiset(read);
      assert Stored(kind, read[i]).fields == read[i].fields;
      assert read[i].fields == newer[i].fields;
    }
    assert FieldsOf(read) == FieldsOf(Store(kind, newer));
  }

  /** The section of the replica after the events, when it agreed before them. */
  lemma SectionAgrees(order: ReadOrder, p: FeedData, b: FeedBody, kind: SectionKind, before: seq<Row>)
    requires ReadsAll(order) && WellFormed(p)
    requires Project(kind, Section(p, kind)) == Project(kind, before)
    ensures var after := if EmitsSection(order, p, b, kind)
                         then Store(kind, Dedupe(kind, NewerRows(order, b, kind)))
                         else before;
            Project(kind, after) == Project(kind, StoredSection(b, kind))
  {
    hide Dedupe, Store, Stored;
    CarriedRows(order, b, kind);
    if !EmitsSection(order, p, b, kind) {
      if p.row.Some? {
        UnchangedSection(order, kind, Section(p, kind), NewerRows(order, b, kind));
      } else {
        assert NewerRows(order, b, kind) == [];
        assert |Store(kind, [])| == 0;
        assert FieldsOf(Section(p, kind)) == [];
      }
    }
  }

  // ── what the events of each kind change ────────────────────────────────

  lemma {:induction false} ApplyConcat(ft: FeedData, a: seq<FeedEvent>, b: seq<FeedEvent>)
    ensures ApplyEvents(ft, a + b) == ApplyEvents(ApplyEvents(ft, a), b)
    decreases |b|
  {
    if b == [] {
      assert a + b == a;
    } else {
      var n := |b| - 1;
      ApplyConcat(ft, a, b[..n]);
      assert (a + b)[..|a + b| - 1] == a + b[..n];
    }
  }

  /** The value of a section of the replica once the events of `kinds` are applied. */
  function AppliedSection(order: ReadOrder, p: FeedData, b: FeedBody, kinds: seq<SectionKind>, r: FeedData, kind: SectionKind): seq<Row> {
    if kind in kinds && EmitsSection(order, p, b, kind)
    then Store(kind, Dedupe(kind, NewerRows(order, b, kind)))
    else Section(r, kind)
  }

  lemma ApplyOne(ft: FeedData, e: FeedEvent)
    ensures ApplyEvents(ft, [e]) == ApplyEvent(ft, e)
  {
    assert [e][..0] == [];
  }

  lemma SectionEventApplied(order: ReadOrder, p: FeedData, b: FeedBody, k: SectionKind, r: FeedData, kind: SectionKind)
    ensures var r' := ApplyEvents(r, SectionEvent(order, p, b, k));
            && r'.(sections := r.sections) == r
            && Section(r', kind) == AppliedSection(order, p, b, [k], r, kind)
  {
    hide Dedupe, Store, EmitsSection, NewerRows, ApplyEvents;
    ApplyNone(r);
    ApplyOne(r, SectionReplaced(k, NewerRows(order, b, k)));
  }

  lemma {:induction false} SectionEventsApplied(order: ReadOrder, p: FeedData, b: FeedBody, kinds: seq<SectionKind>, r: FeedData, kind: SectionKind)
    ensures var r' := ApplyEvents(r, SectionEvents(order, p, b, kinds));
            && r'.(sections := r.sections) == r
            && Section(r', kind) == AppliedSection(order, p, b, kinds, r, kind)
  {
    hide Dedupe, Store, EmitsSection, NewerRows, ApplyEvents, SectionEvent, Section;
    if kinds == [] {
      ApplyNone(r);
    } else {
      var n := |kinds| - 1;
      SectionEventsApplied(order, p, b, kinds[..n], r, kind);
      assert kinds == kinds[..n] + [kinds[n]];
      var r0 := ApplyEvents(r, SectionEvents(order, p, b, kinds[..n]));
      ApplyConcat(r, SectionEvents(order, p, b, kinds[..n]), SectionEvent(order, p, b, kinds[n]));
      SectionEventApplied(order, p, b, kinds[n], r0, kind);
    }
  }

  lemma ApplyNone(ft: FeedData)
    ensures ApplyEvents(ft, []) == ft
  {
  }

  lemma EachSectionIsCompared(kind: SectionKind)
    ensures kind in SECTION_ORDER <==> kind != TrackItems
  {
    if kind != TrackItems {
      assert SECTION_ORDER[0] == Routes && SECTION_ORDER[1] == ListValues && SECTION_ORDER[2] == RemoteItems &&
             SECTION_ORDER[3] == Contributors && SECTION_ORDER[4] == EntityIds && SECTION_ORDER[5] == EntityLinks &&
             SECTION_ORDER[6] == ReleaseClaims && SECTION_ORDER[7] == Enclosures && SECTION_ORDER[8] == Transcripts &&
             SECTION_ORDER[9] == Platform && SECTION_ORDER[10] == Live;
    }
  }
}
