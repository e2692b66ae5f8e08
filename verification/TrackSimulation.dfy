/**
 The track events of one ingest. They bring a replica to the tracks of the
 primary exactly when no bundle that emits nothing comes after a bundle of the
 same GUID that emits something else; distinct GUIDs give that.
 */
module TrackSimulation {
  import opened Basics
  import opened FeedTables
  import opened RowLemmas
  import opened FeedSimulation

  /** The last bundle of a track GUID: the one that the primary keeps. */
  function LastBundle(bundles: seq<TrackBundle>, t: Guid): Option<TrackBundle> {
    if bundles == [] then None
    else if bundles[|bundles| - 1].guid == t then Some(bundles[|bundles| - 1])
    else LastBundle(bundles[..|bundles| - 1], t)
  }

  /** The last bundle of a track GUID with a `TrackUpserted` event. */
  function LastUpserted(p: FeedData, bundles: seq<TrackBundle>, t: Guid): Option<TrackBundle> {
    if bundles == [] then None
    else if bundles[|bundles| - 1].guid == t && EmitsTrack(p, bundles[|bundles| - 1]) then
      Some(bundles[|bundles| - 1])
    else LastUpserted(p, bundles[..|bundles| - 1], t)
  }

  /** The last bundle of a track GUID with a `TrackRemoteItemsReplaced` event. */
  function LastReplaced(order: ReadOrder, p: FeedData, bundles: seq<TrackBundle>, t: Guid): Option<TrackBundle> {
    if bundles == [] then None
    else if bundles[|bundles| - 1].guid == t && EmitsItems(order, p, bundles[|bundles| - 1]) then
      Some(bundles[|bundles| - 1])
    else LastReplaced(order, p, bundles[..|bundles| - 1], t)
  }

  lemma {:induction false} LastBundleIs(bundles: seq<TrackBundle>, t: Guid)
    ensures LastBundle(bundles, t).Some? <==> t in TrackGuids(bundles)
    ensures LastBundle(bundles, t).Some? ==>
              LastBundle(bundles, t).value.guid == t && LastBundle(bundles, t).value in bundles
  {
    if bundles != [] {
      var n := |bundles| - 1;
      LastBundleIs(bundles[..n], t);
      assert bundles[n].guid in TrackGuids(bundles);
      assert forall i :: 0 <= i < n ==> bundles[..n][i].guid in TrackGuids(bundles);
      assert forall i :: 0 <= i < n ==> bundles[i].guid in TrackGuids(bundles[..n]) by {
        forall i | 0 <= i < n
          ensures bundles[i].guid in TrackGuids(bundles[..n])
        {
          assert bundles[..n][i].guid in TrackGuids(bundles[..n]);
        }
      }
    }
  }

  lemma {:induction false} LastUpsertedIs(p: FeedData, bundles: seq<TrackBundle>, t: Guid)
    ensures var last := LastUpserted(p, bundles, t);
            last.Some? ==> last.value in bundles && last.value.guid == t && EmitsTrack(p, last.value)
    ensures LastUpserted(p, bundles, t).None? ==>
              forall b :: b in bundles && b.guid == t ==> !EmitsTrack(p, b)
    ensures var last := LastBundle(bundles, t);
            last.Some? && EmitsTrack(p, last.value) ==> LastUpserted(p, bundles, t) == last
  {
    hide EmitsTrack;
    if bundles != [] {
      var n := |bundles| - 1;
      LastUpsertedIs(p, bundles[..n], t);
      assert bundles == bundles[..n] + [bundles[n]];
    }
  }

  lemma {:induction false} LastReplacedIs(order: ReadOrder, p: FeedData, bundles: seq<TrackBundle>, t: Guid)
    ensures var last := LastReplaced(order, p, bundles, t);
            last.Some? ==> last.value in bundles && last.value.guid == t && EmitsItems(order, p, last.value)
    ensures var last := LastBundle(bundles, t);
            last.Some? && EmitsItems(order, p, last.value) ==> LastReplaced(order, p, bundles, t) == last
    ensures LastBundle(bundles, t).None? ==> LastReplaced(order, p, bundles, t).None?
  {
    hide EmitsItems;
    if bundles != [] {
      var n := |bundles| - 1;
      LastReplacedIs(order, p, bundles[..n], t);
      assert bundles == bundles[..n] + [bundles[n]];
    }
  }

  // ── the two sides ──────────────────────────────────────────────────────

  lemma {:induction false} TracksWritten(ft: FeedData, bundles: seq<TrackBundle>, t: Guid)
    ensures var written := WriteTracks(ft, bundles);
            var last := LastBundle(bundles, t);
            && written.row == ft.row && written.sections == ft.sections
            && TrackFieldsOf(written, t) == (if last.Some? then Some(last.value.row.fields) else TrackFieldsOf(ft, t))
            && Items(written, t) == (if last.Some? then last.value.items else Items(ft, t))
  {
    if bundles != [] {
      TracksWritten(ft, bundles[..|bundles| - 1], t);
    }
  }

  lemma BundleApplied(order: ReadOrder, p: FeedData, bundle: TrackBundle, r: FeedData, t: Guid)
    ensures var r' := ApplyEvents(r, BundleEvents(order, p, bundle));
            && r'.row == r.row && r'.sections == r.sections
            && TrackFieldsOf(r', t) == (if bundle.guid == t && EmitsTrack(p, bundle)
                                        then Some(bundle.row.fields) else TrackFieldsOf(r, t))
            && Items(r', t) == (if bundle.guid == t && EmitsItems(order, p, bundle) then bundle.items else Items(r, t))
  {
    hide EmitsTrack, EmitsItems, ApplyEvents;
    var upserted := if EmitsTrack(p, bundle) then [TrackUpserted(bundle.guid, bundle.row)] else [];
    var replaced := if EmitsItems(order, p, bundle) then [TrackItemsReplaced(bundle.guid, bundle.items)] else [];
    var r0 := ApplyEvents(r, upserted);
    ApplyConcat(r, upserted, replaced);
    ApplyNone(r);
    ApplyNone(r0);
    ApplyOne(r, TrackUpserted(bundle.guid, bundle.row));
    ApplyOne(r0, TrackItemsReplaced(bundle.guid, bundle.items));
  }

  lemma {:induction false} TrackEventsApplied(order: ReadOrder, p: FeedData, bundles: seq<TrackBundle>, r: FeedData, t: Guid)
    ensures var r' := ApplyEvents(r, TrackEvents(order, p, bundles));
            var upserted := LastUpserted(p, bundles, t);
            var replaced := LastReplaced(order, p, bundles, t);
            && r'.row == r.row && r'.sections == r.sections
            && TrackFieldsOf(r', t) == (if upserted.Some? then Some(upserted.value.row.fields) else TrackFieldsOf(r, t))
            && Items(r', t) == (if replaced.Some? then replaced.value.items else Items(r, t))
  {
    hide EmitsTrack, EmitsItems, ApplyEvents, BundleEvents;
    if bundles == [] {
      ApplyNone(r);
    } else {
      var n := |bundles| - 1;
      TrackEventsApplied(order, p, bundles[..n], r, t);
      var r0 := ApplyEvents(r, TrackEvents(order, p, bundles[..n]));
      ApplyConcat(r, TrackEvents(order, p, bundles[..n]), BundleEvents(order, p, bundles[n]));
      BundleApplied(order, p, bundles[n], r0, t);
    }
  }

  // ── when they agree ────────────────────────────────────────────────────

  /** No bundle changes the track when the last one leaves it as it is stored. */
  predicate FieldsSettle(p: FeedData, bundles: seq<TrackBundle>, t: Guid) {
    var last := LastBundle(bundles, t);
    last.Some? && !EmitsTrack(p, last.value) ==>
      forall b :: b in bundles && b.guid == t ==> !EmitsTrack(p, b)
  }

  /** When the last bundle emits no items, the last emitted items are its own. */
  predicate ItemsSettle(order: ReadOrder, p: FeedData, bundles: seq<TrackBundle>, t: Guid) {
    var last := LastBundle(bundles, t);
    var replaced := LastReplaced(order, p, bundles, t);
    last.Some? && !EmitsItems(order, p, last.value) && replaced.Some? ==>
      Project(TrackItems, replaced.value.items) == Project(TrackItems, last.value.items)
  }

  predicate TracksSettle(order: ReadOrder, p: FeedData, bundles: seq<TrackBundle>) {
    forall t :: t in TrackGuids(bundles) ==> FieldsSettle(p, bundles, t) && ItemsSettle(order, p, bundles, t)
  }

  lemma FieldsAgreeExactly(order: ReadOrder, p: FeedData, r: FeedData, bundles: seq<TrackBundle>, t: Guid)
    requires TrackFieldsOf(p, t) == TrackFieldsOf(r, t)
    requires WellFormed(p)
    ensures TrackFieldsOf(WriteTracks(p, bundles), t) == TrackFieldsOf(ApplyEvents(r, TrackEvents(order, p, bundles)), t)
            <==> FieldsSettle(p, bundles, t)
  {
    hide WriteTracks, ApplyEvents, TrackEvents;
    TracksWritten(p, bundles, t);
    TrackEventsApplied(order, p, bundles, r, t);
    LastBundleIs(bundles, t);
    LastUpsertedIs(p, bundles, t);
  }

  /** Items with no event: the stored items are those of the bundle. */
  lemma SilentItems(order: ReadOrder, p: FeedData, bundle: TrackBundle)
    requires ReadsAll(order) && WellFormed(p) && !EmitsItems(order, p, bundle)
    ensures Project(TrackItems, Items(p, bundle.guid)) == Project(TrackItems, bundle.items)
  {
    var stored := Items(p, bundle.guid);
    var read := order(TrackItems, stored);
    assert multiset(read) == multiset(stored);
    if p.row.None? || EmitsTrack(p, bundle) {
      assert bundle.items == [];
      assert |multiset(read)| == |multiset(stored)|;
    } else {
      StoreOfPlainRows(TrackItems, bundle.items);
      assert ReadsBack(TrackItems, stored);
      UnchangedSection(order, TrackItems, stored, bundle.items);
    }
  }

  lemma ItemsAgreeExactly(order: ReadOrder, p: FeedData, r: FeedData, bundles: seq<TrackBundle>, t: Guid)
    requires ReadsAll(order) && WellFormed(p)
    requires Project(TrackItems, Items(p, t)) == Project(TrackItems, Items(r, t))
    ensures Project(TrackItems, Items(WriteTracks(p, bundles), t)) ==
            Project(TrackItems, Items(ApplyEvents(r, TrackEvents(order, p, bundles)), t))
            <==> ItemsSettle(order, p, bundles, t)
  {
    hide WriteTracks, ApplyEvents, TrackEvents, Project, EmitsItems;
    TracksWritten(p, bundles, t);
    TrackEventsApplied(order, p, bundles, r, t);
    LastBundleIs(bundles, t);
    LastReplacedIs(order, p, bundles, t);
    var last := LastBundle(bundles, t);
    if last.Some? && !EmitsItems(order, p, last.value) {
      SilentItems(order, p, last.value);
    }
  }

  lemma TrackAgreesExactly(order: ReadOrder, p: FeedData, r: FeedData, bundles: seq<TrackBundle>, t: Guid)
    requires ReadsAll(order) && WellFormed(p) && AgreeOnTrack(p, r, t)
    ensures AgreeOnTrack(WriteTracks(p, bundles), ApplyEvents(r, TrackEvents(order, p, bundles)), t)
            <==> FieldsSettle(p, bundles, t) && ItemsSettle(order, p, bundles, t)
  {
    hide WriteTracks, ApplyEvents, TrackEvents, FieldsSettle, ItemsSettle, Project;
    FieldsAgreeExactly(order, p, r, bundles, t);
    ItemsAgreeExactly(order, p, r, bundles, t);
  }

  /** Distinct track GUIDs settle each track. */
  lemma DistinctTracksSettle(order: ReadOrder, p: FeedData, bundles: seq<TrackBundle>)
    requires forall i, j :: 0 <= i < j < |bundles| ==> bundles[i].guid != bundles[j].guid
    ensures TracksSettle(order, p, bundles)
  {
    hide EmitsTrack, EmitsItems;
    forall t | t in TrackGuids(bundles)
      ensures FieldsSettle(p, bundles, t) && ItemsSettle(order, p, bundles, t)
    {
      LastBundleIs(bundles, t);
      LastUpsertedIs(p, bundles, t);
      LastReplacedIs(order, p, bundles, t);
    }
  }

  /**
   A body that names a stored track twice, first with other fields and last as
   it is stored, does not settle: the replica keeps the first.
   */
  lemma RepeatedTrackDiverges(order: ReadOrder, p: FeedData, t: Guid, first: TrackBundle, last: TrackBundle)
    requires p.row.Some? && t in p.tracks && first.guid == t && last.guid == t
    requires first.row.fields != p.tracks[t].fields && last.row.fields == p.tracks[t].fields
    ensures !TracksSettle(order, p, [first, last])
  {
    var bundles := [first, last];
    assert bundles[0] in bundles && EmitsTrack(p, bundles[0]);
    assert LastBundle(bundles, t) == Some(last) && !EmitsTrack(p, last);
    LastBundleIs(bundles, t);
    assert !FieldsSettle(p, bundles, t);
  }
}
