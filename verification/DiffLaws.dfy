/**
 The events of an ingest with each condition written out on the stored and the
 submitted columns: when a section, the feed or a track emits one, when an
 ingest emits none, and which columns make two rows one.
 */
module DiffLaws {
  import opened Basics
  import opened FeedTables
  import opened RowLemmas
  import opened FeedSimulation
  import opened TrackSimulation
  import opened IngestSimulation

  /** Two lists of rows differ in length or in a compared column. */
  ghost predicate Differ(a: seq<Row>, b: seq<Row>) {
    |a| != |b| || exists i :: 0 <= i < |a| && a[i].fields != b[i].fields
  }

  // ── the feed and its sections ──────────────────────────────────────────

  lemma {:induction false} SectionEventsExactly(order: ReadOrder, ft: FeedData, b: FeedBody, kinds: seq<SectionKind>, e: FeedEvent)
    ensures e in SectionEvents(order, ft, b, kinds) <==>
            && e.SectionReplaced? && e.kind in kinds && e.rows == NewerRows(order, b, e.kind)
            && EmitsSection(order, ft, b, e.kind)
  {
    hide EmitsSection, NewerRows;
    if kinds != [] {
      SectionEventsExactly(order, ft, b, kinds[..|kinds| - 1], e);
      assert kinds == kinds[..|kinds| - 1] + [kinds[|kinds| - 1]];
    }
  }

  lemma {:induction false} TrackEventsExactly(order: ReadOrder, ft: FeedData, bundles: seq<TrackBundle>, e: FeedEvent)
    ensures e in TrackEvents(order, ft, bundles) <==> exists bundle :: bundle in bundles && e in BundleEvents(order, ft, bundle)
  {
    hide BundleEvents;
    if bundles != [] {
      var n := |bundles| - 1;
      TrackEventsExactly(order, ft, bundles[..n], e);
      assert bundles == bundles[..n] + [bundles[n]];
    }
  }

  /**
   A later ingest emits an event of a section exactly when the stored rows, as
   the query returns them, differ from the submitted rows that stay; a first
   ingest does so exactly when some row stays. The event carries those rows.
   */
  lemma SectionEmitsExactly(order: ReadOrder, ft: FeedData, b: FeedBody, kind: SectionKind)
    requires kind != TrackItems
    ensures var stored := order(kind, Section(ft, kind));
            var kept := Dedupe(kind, BodySection(b, kind));
            var submitted := if kind == Live then order(Live, kept) else kept;
            && ((exists e :: e in DiffEvents(order, ft, b) && e.SectionReplaced? && e.kind == kind) <==>
                  if ft.row.None? then submitted != [] else Differ(stored, submitted))
            && (forall e :: e in DiffEvents(order, ft, b) && e.SectionReplaced? && e.kind == kind ==> e.rows == submitted)
  {
    hide Dedupe, TrackEvents, SectionEvents;
    var submitted := NewerRows(order, b, kind);
    EachSectionIsCompared(kind);
    forall e | e in DiffEvents(order, ft, b) && e.SectionReplaced? && e.kind == kind
      ensures e.rows == submitted && EmitsSection(order, ft, b, kind)
    {
      NoTrackEvent(order, ft, b.tracks, e);
      SectionEventsExactly(order, ft, b, SECTION_ORDER, e);
    }
    if EmitsSection(order, ft, b, kind) {
      var e := SectionReplaced(kind, submitted);
      SectionEventsExactly(order, ft, b, SECTION_ORDER, e);
      assert e in DiffEvents(order, ft, b);
    }
  }

  lemma NoTrackEvent(order: ReadOrder, ft: FeedData, bundles: seq<TrackBundle>, e: FeedEvent)
    requires e.SectionReplaced? || e.FeedUpserted?
    ensures e !in TrackEvents(order, ft, bundles)
  {
    hide EmitsTrack, EmitsItems, TrackEvents;
    TrackEventsExactly(order, ft, bundles, e);
  }

  /** The event of the feed row comes first, exactly on a first ingest or when a compared column differs. */
  lemma FeedEmitsExactly(order: ReadOrder, ft: FeedData, b: FeedBody)
    ensures (exists e :: e in DiffEvents(order, ft, b) && e.FeedUpserted?) <==>
            ft.row.None? || ft.row.value.fields != b.row.fields
    ensures forall i :: 0 <= i < |DiffEvents(order, ft, b)| && DiffEvents(order, ft, b)[i].FeedUpserted? ==>
                          i == 0 && DiffEvents(order, ft, b)[0].feed == b.row
  {
    hide SectionEvents, TrackEvents;
    var events := DiffEvents(order, ft, b);
    var tail := SectionEvents(order, ft, b, SECTION_ORDER) + TrackEvents(order, ft, b.tracks);
    assert events == FeedEvents(ft, b) + tail;
    forall e | e in tail
      ensures !e.FeedUpserted?
    {
      SectionEventsExactly(order, ft, b, SECTION_ORDER, e);
      if e.FeedUpserted? { NoTrackEvent(order, ft, b.tracks, e); }
    }
    if ft.row.None? || ft.row.value.fields != b.row.fields {
      assert events[0] == FeedUpserted(b.row);
    }
    forall i | |FeedEvents(ft, b)| <= i < |events|
      ensures !events[i].FeedUpserted?
    {
      assert events[i] == tail[i - |FeedEvents(ft, b)|];
    }
  }

  // ── tracks ─────────────────────────────────────────────────────────────

  ghost predicate DistinctTracks(bundles: seq<TrackBundle>) {
    forall i, j :: 0 <= i < j < |bundles| ==> bundles[i].guid != bundles[j].guid
  }

  lemma EventsOfTrack(order: ReadOrder, ft: FeedData, b: FeedBody, bundle: TrackBundle, e: FeedEvent)
    requires DistinctTracks(b.tracks) && bundle in b.tracks
    requires (e.TrackUpserted? || e.TrackItemsReplaced?) && e.guid == bundle.guid
    ensures e in DiffEvents(order, ft, b) <==> e in BundleEvents(order, ft, bundle)
  {
    hide SectionEvents, TrackEvents, EmitsTrack, EmitsItems;
    SectionEventsExactly(order, ft, b, SECTION_ORDER, e);
    TrackEventsExactly(order, ft, b.tracks, e);
    forall other | other in b.tracks && e in BundleEvents(order, ft, other)
      ensures other == bundle
    {
      assert other.guid == bundle.guid;
    }
  }

  /**
   With distinct GUIDs a track emits its row exactly when it is new or a
   compared column differs, and its items exactly when they differ from the
   stored ones; a new or changed track tells of its items whenever there are some.
   */
  lemma TrackEmitsExactly(order: ReadOrder, ft: FeedData, b: FeedBody, bundle: TrackBundle)
    requires DistinctTracks(b.tracks) && bundle in b.tracks
    ensures var known := ft.row.Some? && bundle.guid in ft.tracks;
            var changed := !known || ft.tracks[bundle.guid].fields != bundle.row.fields;
            var stored := if known then order(TrackItems, Items(ft, bundle.guid)) else [];
            && (TrackUpserted(bundle.guid, bundle.row) in DiffEvents(order, ft, b) <==> changed)
            && (TrackItemsReplaced(bundle.guid, bundle.items) in DiffEvents(order, ft, b) <==>
                  if changed then stored != [] || bundle.items != [] else Differ(stored, bundle.items))
    ensures forall e :: e in DiffEvents(order, ft, b) && (e.TrackUpserted? || e.TrackItemsReplaced?) && e.guid == bundle.guid ==>
                          e in {TrackUpserted(bundle.guid, bundle.row), TrackItemsReplaced(bundle.guid, bundle.items)}
  {
    hide DiffEvents;
    EventsOfTrack(order, ft, b, bundle, TrackUpserted(bundle.guid, bundle.row));
    EventsOfTrack(order, ft, b, bundle, TrackItemsReplaced(bundle.guid, bundle.items));
    forall e | e in DiffEvents(order, ft, b) && (e.TrackUpserted? || e.TrackItemsReplaced?) && e.guid == bundle.guid
      ensures e in {TrackUpserted(bundle.guid, bundle.row), TrackItemsReplaced(bundle.guid, bundle.items)}
    {
      EventsOfTrack(order, ft, b, bundle, e);
    }
  }

  // ── a second ingest ────────────────────────────────────────────────────

  /** No event, exactly when nothing differs. */
  lemma SilentExactly(order: ReadOrder, ft: FeedData, b: FeedBody)
    ensures DiffEvents(order, ft, b) == [] <==>
            && ft.row.Some? && ft.row.value.fields == b.row.fields
            && (forall kind :: kind in SECTION_ORDER ==>
                  !Differ(order(kind, Section(ft, kind)), NewerRows(order, b, kind)))
            && (forall bundle :: bundle in b.tracks ==>
                  && bundle.guid in ft.tracks && ft.tracks[bundle.guid].fields == bundle.row.fields
                  && !Differ(order(TrackItems, Items(ft, bundle.guid)), bundle.items))
  {
    hide SectionEvents, TrackEvents, NewerRows;
    var events := DiffEvents(order, ft, b);
    if events == [] {
      assert FeedEvents(ft, b) == [];
      forall kind | kind in SECTION_ORDER
        ensures !EmitsSection(order, ft, b, kind)
      {
        SectionEventsExactly(order, ft, b, SECTION_ORDER, SectionReplaced(kind, NewerRows(order, b, kind)));
      }
      forall bundle | bundle in b.tracks
        ensures BundleEvents(order, ft, bundle) == []
      {
        if BundleEvents(order, ft, bundle) != [] {
          TrackEventsExactly(order, ft, b.tracks, BundleEvents(order, ft, bundle)[0]);
        }
      }
    } else {
      SomethingEmits(order, ft, b, events[0]);
    }
  }

  lemma SomethingEmits(order: ReadOrder, ft: FeedData, b: FeedBody, e: FeedEvent)
    requires e in DiffEvents(order, ft, b)
    ensures || FeedEvents(ft, b) != []
            || (exists kind :: kind in SECTION_ORDER && EmitsSection(order, ft, b, kind))
            || (exists bundle :: bundle in b.tracks && BundleEvents(order, ft, bundle) != [])
  {
    hide SectionEvents, TrackEvents, EmitsSection, BundleEvents, FeedEvents;
    SectionEventsExactly(order, ft, b, SECTION_ORDER, e);
    TrackEventsExactly(order, ft, b.tracks, e);
  }

  /** The queries return the stored rows of this body in the order of their inserts; the live rows are sorted. */
  ghost predicate ReadsInOrder(order: ReadOrder, b: FeedBody) {
    && (forall kind :: kind in SECTION_ORDER && kind != Live ==> order(kind, StoredSection(b, kind)) == StoredSection(b, kind))
    && (forall bundle :: bundle in b.tracks ==> order(TrackItems, bundle.items) == bundle.items)
  }

  /** A custom key or value of a payment row is the empty string. */
  ghost predicate HasEmptyCustom(rows: seq<Row>) {
    exists i, c :: 0 <= i < |rows| && 3 <= c <= 4 && c < |rows[i].fields| && rows[i].fields[c] == Text("")
  }

  lemma StoreChanges(kind: SectionKind, rows: seq<Row>)
    ensures Differ(Store(kind, rows), rows) <==> kind in {Routes, ListValues} && HasEmptyCustom(rows)
  {
    if kind in {Routes, ListValues} {
      forall i | 0 <= i < |rows|
        ensures Store(kind, rows)[i].fields == rows[i].fields <==>
                forall c :: 3 <= c <= 4 && c < |rows[i].fields| ==> rows[i].fields[c] != Text("")
      {
        var f, f' := rows[i].fields, Store(kind, rows)[i].fields;
        assert |f| == |f'|;
        assert forall c :: 0 <= c < |f| ==> (f'[c] == f[c] <==> !(c in {3, 4} && f[c] == Text("")));
      }
    }
  }

  /**
   A body that was just stored emits nothing when it comes again, unless a
   payment row has an empty custom key or value: that one is stored as absent,
   so it differs at every later ingest.
   */
  lemma SecondIngestIsSilent(order: ReadOrder, p: FeedData, b: FeedBody)
    requires DistinctTracks(b.tracks) && ReadsInOrder(order, b)
    ensures DiffEvents(order, WriteBody(p, b), b) == [] <==>
            !HasEmptyCustom(BodySection(b, Routes)) && !HasEmptyCustom(BodySection(b, ListValues))
  {
    hide DiffEvents, WriteBody, Differ, Dedupe, Store, HasEmptyCustom, Stored;
    var ft := WriteBody(p, b);
    SilentExactly(order, ft, b);
    FeedWritten(p, b);
    forall kind | kind in SECTION_ORDER
      ensures Differ(order(kind, Section(ft, kind)), NewerRows(order, b, kind)) <==>
              kind in {Routes, ListValues} && HasEmptyCustom(BodySection(b, kind))
    {
      StoredSectionDiffers(order, p, b, kind);
    }
    forall bundle | bundle in b.tracks
      ensures bundle.guid in ft.tracks && ft.tracks[bundle.guid].fields == bundle.row.fields
      ensures !Differ(order(TrackItems, Items(ft, bundle.guid)), bundle.items)
    {
      TrackWritten(p, b, bundle);
      NothingDiffers(bundle.items);
    }
    EachSectionIsCompared(Routes);
    EachSectionIsCompared(ListValues);
  }

  lemma NothingDiffers(rows: seq<Row>)
    ensures !Differ(rows, rows)
  {
  }

  lemma FeedWritten(p: FeedData, b: FeedBody)
    ensures WriteBody(p, b).row.Some? && WriteBody(p, b).row.value.fields == b.row.fields
  {
    hide WriteBody;
    BodyWritten(p, b, Routes, Guid(""));
  }

  lemma StoredSectionDiffers(order: ReadOrder, p: FeedData, b: FeedBody, kind: SectionKind)
    requires ReadsInOrder(order, b) && kind in SECTION_ORDER
    ensures Differ(order(kind, Section(WriteBody(p, b), kind)), NewerRows(order, b, kind)) <==>
            kind in {Routes, ListValues} && HasEmptyCustom(BodySection(b, kind))
  {
    hide WriteBody, Differ, Dedupe, Store, HasEmptyCustom;
    BodyWritten(p, b, kind, Guid(""));
    EachSectionIsCompared(kind);
    var kept := Dedupe(kind, BodySection(b, kind));
    StoreChanges(kind, kept);
    if kind == Live {
      StoreOfPlainRows(kind, kept);
      NothingDiffers(order(Live, kept));
    } else if kind in {Routes, ListValues} {
      DedupeWithNoKey(kind, BodySection(b, kind));
    }
  }

  lemma TrackWritten(p: FeedData, b: FeedBody, bundle: TrackBundle)
    requires DistinctTracks(b.tracks) && bundle in b.tracks
    ensures var ft := WriteBody(p, b);
            && bundle.guid in ft.tracks
            && ft.tracks[bundle.guid].fields == bundle.row.fields
            && Items(ft, bundle.guid) == bundle.items
  {
    hide WriteBody;
    TracksAreSubmitted(p, b, bundle.guid);
    LastBundleIs(b.tracks, bundle.guid);
    TrackKnown(WriteBody(p, b), bundle.guid);
    assert bundle.guid in TrackGuids(b.tracks);
  }

  // ── one row of each key ────────────────────────────────────────────────

  lemma DedupeOfTwo(kind: SectionKind, a: Row, b: Row)
    ensures Dedupe(kind, [a, b]) == if KeyColumns(kind) != [] && KeyOf(kind, a) == KeyOf(kind, b) then [a] else [a, b]
  {
    hide KeyOf;
    assert [a, b][..1] == [a] && [a][..0] == [];
    assert Dedupe(kind, []) == [];
    assert Keys(kind, []) == [];
    assert Dedupe(kind, [a]) == [a];
    assert Keys(kind, [a]) == [KeyOf(kind, a)];
  }

  /** Which columns of two rows must differ for both to stay, section by section. */
  lemma TwoRowsStayExactly(kind: SectionKind, a: Row, b: Row)
    requires |a.fields| == |b.fields|
    requires |a.fields| >= match kind case Contributors => 11
                                      case EntityIds => 6
                                      case EntityLinks => 6
                                      case Live => 1
                                      case ReleaseClaims => 5
                                      case Enclosures => 5
                                      case Transcripts => 5
                                      case _ => 0
    ensures var f, g := a.fields, b.fields;
            Dedupe(kind, [a, b]) == [a, b] <==>
            match kind
            // feed GUID, entity type, entity ID, position, source
            case Contributors => f[0] != g[0] || f[1] != g[1] || f[2] != g[2] || f[3] != g[3] || f[10] != g[10]
            // feed GUID, entity type, entity ID, scheme or link type, value or URL
            case EntityIds => f[0] != g[0] || f[1] != g[1] || f[2] != g[2] || f[4] != g[4] || f[5] != g[5]
            case EntityLinks => f[0] != g[0] || f[1] != g[1] || f[2] != g[2] || f[4] != g[4] || f[5] != g[5]
            // feed GUID, entity type, entity ID, claim type, position
            case ReleaseClaims => f[0] != g[0] || f[1] != g[1] || f[2] != g[2] || f[3] != g[3] || f[4] != g[4]
            case Enclosures => f[0] != g[0] || f[1] != g[1] || f[2] != g[2] || f[3] != g[3] || f[4] != g[4]
            case Transcripts => f[0] != g[0] || f[1] != g[1] || f[2] != g[2] || f[3] != g[3] || f[4] != g[4]
            // live item GUID
            case Live => f[0] != g[0]
            case _ => true
  {
    hide KeyOf, Dedupe, Column;
    DedupeOfTwo(kind, a, b);
    SameKey(kind, a, b);
    ColumnIsField(a);
    ColumnIsField(b);
  }

  lemma SameKey(kind: SectionKind, a: Row, b: Row)
    ensures var columns := KeyColumns(kind);
            KeyOf(kind, a) == KeyOf(kind, b) <==>
            if |columns| == 5 then
              && Column(a.fields, columns[0]) == Column(b.fields, columns[0])
              && Column(a.fields, columns[1]) == Column(b.fields, columns[1])
              && Column(a.fields, columns[2]) == Column(b.fields, columns[2])
              && Column(a.fields, columns[3]) == Column(b.fields, columns[3])
              && Column(a.fields, columns[4]) == Column(b.fields, columns[4])
            else columns != [] ==> Column(a.fields, columns[0]) == Column(b.fields, columns[0])
  {
    hide Column;
    var x, y := KeyOf(kind, a), KeyOf(kind, b);
    assert |x| == |y| == |KeyColumns(kind)|;
    if |x| == 5 {
      assert x == y <==> x[0] == y[0] && x[1] == y[1] && x[2] == y[2] && x[3] == y[3] && x[4] == y[4];
    } else if |x| == 1 {
      assert x == y <==> x[0] == y[0];
    } else {
      assert x == [] && y == [];
    }
  }

  lemma ColumnIsField(row: Row)
    ensures forall i: nat :: i < |row.fields| ==> Column(row.fields, i) == row.fields[i]
  {
  }
}
