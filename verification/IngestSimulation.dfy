/** One ingest on the primary, and its events on a replica of the same feed. */
module IngestSimulation {
  import opened Basics
  import opened FeedTables
  import opened RowLemmas
  import opened FeedSimulation
  import opened TrackSimulation

  lemma {:induction false} RemovalsApplied(r: FeedData, removed: seq<Guid>, t: Guid)
    ensures var r' := ApplyEvents(r, RemovalEvents(removed));
            && r'.row == r.row && r'.sections == r.sections
            && TrackFieldsOf(r', t) == (if t in removed then None else TrackFieldsOf(r, t))
            && Items(r', t) == (if t in removed && t in r.tracks then [] else Items(r, t))
  {
    hide ApplyEvents;
    if removed == [] {
      ApplyNone(r);
    } else {
      var n := |removed| - 1;
      RemovalsApplied(r, removed[..n], t);
      var r0 := ApplyEvents(r, RemovalEvents(removed[..n]));
      assert removed == removed[..n] + [removed[n]];
      assert RemovalEvents(removed) == RemovalEvents(removed[..n]) + [TrackRemoved(removed[n])];
      ApplyConcat(r, RemovalEvents(removed[..n]), [TrackRemoved(removed[n])]);
      ApplyOne(r0, TrackRemoved(removed[n]));
      assert t in r.tracks ==> (t in r0.tracks <==> t !in removed[..n]);
    }
  }

  /** The parts of a feed after an ingest, table by table. */
  lemma BodyWritten(p: FeedData, b: FeedBody, kind: SectionKind, t: Guid)
    ensures var p' := WriteBody(p, b);
            && FeedFieldsOf(p') == Some(b.row.fields)
            && Section(p', kind) == (if kind == TrackItems then Section(p, kind) else StoredSection(b, kind))
            && TrackFieldsOf(p', t) == (if t in StaleTracks(p, b) then None else TrackFieldsOf(WriteTracks(p, b.tracks), t))
            && Items(p', t) == (if t in StaleTracks(p, b) then [] else Items(WriteTracks(p, b.tracks), t))
  {
    hide WriteTracks, StoredSection, StaleTracks, WriteSections;
    var written := WriteSections(p.(row := Some(b.row)), b);
    SectionsWritten(p.(row := Some(b.row)), b, kind);
    TracksWritten(written, b.tracks, t);
    TracksWritten(p, b.tracks, t);
  }

  lemma SectionsWritten(p: FeedData, b: FeedBody, kind: SectionKind)
    ensures var written := WriteSections(p, b);
            && written.(sections := p.sections) == p
            && Section(written, kind) == (if kind == TrackItems then Section(p, kind) else StoredSection(b, kind))
  {
    hide StoredSection;
    EachSectionIsCompared(kind);
  }

  /** The replica after the events of the diff and of the removals. */
  lemma EventsApplied(order: ReadOrder, p: FeedData, r: FeedData, b: FeedBody, removed: seq<Guid>, kind: SectionKind, t: Guid)
    requires ReadsAll(order) && WellFormed(p) && Agree(p, r)
    requires forall g :: g in removed <==> g in StaleTracks(p, b)
    ensures var r' := ApplyEvents(r, DiffEvents(order, p, b) + RemovalEvents(removed));
            var tracked := ApplyEvents(r, TrackEvents(order, p, b.tracks));
            && FeedFieldsOf(r') == Some(b.row.fields)
            && Section(r', kind) == AppliedSection(order, p, b, SECTION_ORDER, r, kind)
            && TrackFieldsOf(r', t) == (if t in StaleTracks(p, b) then None else TrackFieldsOf(tracked, t))
            && Items(r', t) == (if t in StaleTracks(p, b) then [] else Items(tracked, t))
  {
    hide ApplyEvents, AppliedSection, TrackEvents, SectionEvents;
    var r1 := ApplyEvents(r, FeedEvents(p, b));
    assert FeedFieldsOf(r1) == Some(b.row.fields) && r1.(row := None) == r.(row := None) by {
      ApplyNone(r);
      ApplyOne(r, FeedUpserted(b.row));
    }
    var r2 := ApplyEvents(r1, SectionEvents(order, p, b, SECTION_ORDER));
    SectionEventsApplied(order, p, b, SECTION_ORDER, r1, kind);
    assert AppliedSection(order, p, b, SECTION_ORDER, r1, kind) == AppliedSection(order, p, b, SECTION_ORDER, r, kind) by {
      AppliedFrom(order, p, b, r, r1, kind);
    }
    var r3 := ApplyEvents(r2, TrackEvents(order, p, b.tracks));
    TrackEventsApplied(order, p, b.tracks, r2, t);
    TrackEventsApplied(order, p, b.tracks, r, t);
    RemovalsApplied(r3, removed, t);
    ApplyConcat(r, FeedEvents(p, b), SectionEvents(order, p, b, SECTION_ORDER));
    ApplyConcat(r, FeedEvents(p, b) + SectionEvents(order, p, b, SECTION_ORDER), TrackEvents(order, p, b.tracks));
    ApplyConcat(r, DiffEvents(order, p, b), RemovalEvents(removed));
    if t in StaleTracks(p, b) {
      StaleStays(order, p, r, b, t);
    }
  }

  lemma AppliedFrom(order: ReadOrder, p: FeedData, b: FeedBody, r: FeedData, r1: FeedData, kind: SectionKind)
    requires r.sections == r1.sections
    ensures AppliedSection(order, p, b, SECTION_ORDER, r1, kind) == AppliedSection(order, p, b, SECTION_ORDER, r, kind)
  {
  }

  /** The replica still holds a stale track when its removal arrives. */
  lemma StaleStays(order: ReadOrder, p: FeedData, r: FeedData, b: FeedBody, t: Guid)
    requires t in StaleTracks(p, b) && Agree(p, r)
    ensures TrackFieldsOf(ApplyEvents(r, TrackEvents(order, p, b.tracks)), t).Some?
  {
    TrackEventsApplied(order, p, b.tracks, r, t);
    assert AgreeOnTrack(p, r, t);
  }

  /**
   An ingest and its events keep the agreement of the two nodes exactly when the
   submitted tracks settle.
   */
  lemma IngestAgreesExactly(order: ReadOrder, p: FeedData, r: FeedData, b: FeedBody, removed: seq<Guid>)
    requires ReadsAll(order) && WellFormed(p) && Agree(p, r)
    requires forall g :: g in removed <==> g in StaleTracks(p, b)
    ensures Agree(WriteBody(p, b), ApplyEvents(r, DiffEvents(order, p, b) + RemovalEvents(removed)))
            <==> TracksSettle(order, p, b.tracks)
  {
    hide ApplyEvents, DiffEvents, WriteBody, Project, FieldsSettle, ItemsSettle, RemovalEvents, AgreeOnTrack,
         FeedFieldsOf, Section, WellFormed, ReadsAll, StaleTracks;
    var p' := WriteBody(p, b);
    var r' := ApplyEvents(r, DiffEvents(order, p, b) + RemovalEvents(removed));
    assert FeedFieldsOf(p') == FeedFieldsOf(r') by {
      FeedAgrees(order, p, r, b, removed);
    }
    forall kind
      ensures Project(kind, Section(p', kind)) == Project(kind, Section(r', kind))
    {
      SectionAgreesAfter(order, p, r, b, removed, kind);
    }
    forall t
      ensures AgreeOnTrack(p', r', t) <==>
              (t in TrackGuids(b.tracks) ==> FieldsSettle(p, b.tracks, t) && ItemsSettle(order, p, b.tracks, t))
    {
      TrackAgreesAfter(order, p, r, b, removed, t);
    }
  }

  lemma FeedAgrees(order: ReadOrder, p: FeedData, r: FeedData, b: FeedBody, removed: seq<Guid>)
    requires ReadsAll(order) && WellFormed(p) && Agree(p, r)
    requires forall g :: g in removed <==> g in StaleTracks(p, b)
    ensures FeedFieldsOf(WriteBody(p, b)) == FeedFieldsOf(ApplyEvents(r, DiffEvents(order, p, b) + RemovalEvents(removed)))
  {
    hide ApplyEvents, DiffEvents, WriteBody;
    var anyTrack := Guid("");
    BodyWritten(p, b, Routes, anyTrack);
    EventsApplied(order, p, r, b, removed, Routes, anyTrack);
  }

  lemma SectionAgreesAfter(order: ReadOrder, p: FeedData, r: FeedData, b: FeedBody, removed: seq<Guid>, kind: SectionKind)
    requires ReadsAll(order) && WellFormed(p) && Agree(p, r)
    requires forall g :: g in removed <==> g in StaleTracks(p, b)
    ensures Project(kind, Section(WriteBody(p, b), kind)) ==
            Project(kind, Section(ApplyEvents(r, DiffEvents(order, p, b) + RemovalEvents(removed)), kind))
  {
    hide ApplyEvents, DiffEvents, WriteBody, Project, EmitsSection, Dedupe, Store, NewerRows;
    var anyTrack := Guid("");
    BodyWritten(p, b, kind, anyTrack);
    EventsApplied(order, p, r, b, removed, kind, anyTrack);
    EachSectionIsCompared(kind);
    SectionAgrees(order, p, b, kind, Section(r, kind));
  }

  lemma TrackAgreesAfter(order: ReadOrder, p: FeedData, r: FeedData, b: FeedBody, removed: seq<Guid>, t: Guid)
    requires ReadsAll(order) && WellFormed(p) && Agree(p, r)
    requires forall g :: g in removed <==> g in StaleTracks(p, b)
    ensures AgreeOnTrack(WriteBody(p, b), ApplyEvents(r, DiffEvents(order, p, b) + RemovalEvents(removed)), t)
            <==> (t in TrackGuids(b.tracks) ==> FieldsSettle(p, b.tracks, t) && ItemsSettle(order, p, b.tracks, t))
  {
    hide ApplyEvents, DiffEvents, WriteBody, Project, FieldsSettle, ItemsSettle, WriteTracks, TrackEvents;
    BodyWritten(p, b, Routes, t);
    EventsApplied(order, p, r, b, removed, Routes, t);
    if t !in StaleTracks(p, b) {
      assert AgreeOnTrack(p, r, t);
      TrackAgreesExactly(order, p, r, b.tracks, t);
      LastBundleIs(b.tracks, t);
      if t !in TrackGuids(b.tracks) {
        NoBundleSettles(order, p, b.tracks, t);
      }
    }
  }

  lemma NoBundleSettles(order: ReadOrder, p: FeedData, bundles: seq<TrackBundle>, t: Guid)
    requires t !in TrackGuids(bundles)
    ensures FieldsSettle(p, bundles, t) && ItemsSettle(order, p, bundles, t)
  {
    LastBundleIs(bundles, t);
  }

  /** An ingest leaves rows that read back as they are. */
  lemma WriteBodyWellFormed(p: FeedData, b: FeedBody)
    requires WellFormed(p)
    ensures WellFormed(WriteBody(p, b))
  {
    hide WriteBody;
    var p' := WriteBody(p, b);
    forall kind, row | row in Section(p', kind)
      ensures Stored(kind, row) == row
    {
      BodyWritten(p, b, kind, Guid(""));
      if kind != TrackItems {
        assert Section(p', kind) == Store(kind, Dedupe(kind, BodySection(b, kind)));
        StoredReadsBack(kind, Dedupe(kind, BodySection(b, kind)), row);
      }
    }
    forall t | t !in p'.tracks
      ensures Items(p', t) == []
    {
      BodyWritten(p, b, Routes, t);
      TracksWritten(p, b.tracks, t);
    }
    BodyWritten(p, b, Routes, Guid(""));
  }

  lemma StoredReadsBack(kind: SectionKind, rows: seq<Row>, row: Row)
    requires row in Store(kind, rows)
    ensures Stored(kind, row) == row
  {
  }

  /** After an ingest the feed holds the submitted tracks and no others, each as its last bundle. */
  lemma TracksAreSubmitted(p: FeedData, b: FeedBody, t: Guid)
    ensures t in WriteBody(p, b).tracks <==> t in TrackGuids(b.tracks)
    ensures var last := LastBundle(b.tracks, t);
            last.Some? ==> TrackFieldsOf(WriteBody(p, b), t) == Some(last.value.row.fields) &&
                           Items(WriteBody(p, b), t) == last.value.items
  {
    hide WriteBody, WriteTracks;
    BodyWritten(p, b, Routes, t);
    TracksWritten(p, b.tracks, t);
    LastBundleIs(b.tracks, t);
    TrackKnown(WriteBody(p, b), t);
    TrackKnown(p, t);
  }

  lemma TrackKnown(ft: FeedData, t: Guid)
    ensures t in ft.tracks <==> TrackFieldsOf(ft, t).Some?
  {
  }
}
