/**
 The writers of the replicated tables, statement by statement: the diff of an
 ingest, the transaction that stores it, and the application of one event.
 */
module NodeStore {
  import opened Basics
  import opened FeedTables
  import opened RowLemmas
  import opened Replication
  import O = Ownership

  // ── comparisons and loops over rows ────────────────────────────────────

  /** Each `dedupe_*` function: a set of the keys seen, and the rows kept. */
  method DedupeRows(kind: SectionKind, rows: seq<Row>) returns (deduped: seq<Row>)
    ensures deduped == Dedupe(kind, rows)
  {
    if KeyColumns(kind) == [] {
      return rows;
    }
    hide KeyOf, KeyColumns, Dedupe, Keys;
    var seen: set<seq<Value>> := {};
    deduped := [];
    NothingDeduped(kind);
    for i := 0 to |rows|
      invariant deduped == Dedupe(kind, rows[..i])
      invariant forall key :: key in seen <==> key in Keys(kind, deduped)
    {
      var key := KeyOf(kind, rows[i]);
      DedupeStep(kind, rows, i);
      if key !in seen {
        KeysOfMore(kind, deduped, rows[i]);
        seen := seen + {key};
        deduped := deduped + [rows[i]];
      }
    }
    assert rows[..|rows|] == rows;
  }

  lemma NothingDeduped(kind: SectionKind)
    ensures Dedupe(kind, []) == [] && Keys(kind, []) == []
  {
  }

  /** Each `*_changed` function: the lengths, and then the rows in step. */
  method RowsChanged(existing: seq<Row>, newer: seq<Row>) returns (changed: bool)
    ensures changed <==> Changed(existing, newer)
  {
    if |existing| != |newer| {
      return true;
    }
    for i := 0 to |existing|
      invariant forall k :: 0 <= k < i ==> existing[k].fields == newer[k].fields
    {
      if existing[i].fields != newer[i].fields {
        return true;
      }
    }
    changed := false;
  }

  /** The comparison of one section, and its event. */
  method BuildSectionEvent(order: ReadOrder, ft: FeedData, b: FeedBody, kind: SectionKind) returns (events: seq<FeedEvent>)
    ensures events == SectionEvent(order, ft, b, kind)
  {
    hide Dedupe;
    var rows := DedupeRows(kind, BodySection(b, kind));
    if kind == Live {
      rows := order(Live, rows);
    }
    var emits := rows != [];
    if ft.row.Some? {
      emits := RowsChanged(order(kind, Section(ft, kind)), rows);
    }
    events := if emits then [SectionReplaced(kind, rows)] else [];
  }

  /** `build_all_events` for a feed with no row, `build_changed_events` for another. */
  method BuildDiffEvents(order: ReadOrder, ft: FeedData, b: FeedBody) returns (events: seq<FeedEvent>)
    ensures events == DiffEvents(order, ft, b)
  {
    hide SectionEvent, BundleEvents;
    events := [];
    if ft.row.None? || FeedFieldsChanged(ft.row.value.fields, b.row.fields) {
      events := [FeedUpserted(b.row)];
    }
    ghost var head := events;
    var more: seq<FeedEvent>;
    for i := 0 to |SECTION_ORDER|
      invariant events == head + SectionEvents(order, ft, b, SECTION_ORDER[..i])
    {
      more := BuildSectionEvent(order, ft, b, SECTION_ORDER[i]);
      events := events + more;
      assert SECTION_ORDER[..i + 1][..i] == SECTION_ORDER[..i];
    }
    assert SECTION_ORDER[..|SECTION_ORDER|] == SECTION_ORDER;
    ghost var sections := events;
    for i := 0 to |b.tracks|
      invariant events == sections + TrackEvents(order, ft, b.tracks[..i])
    {
      more := BuildBundleEvents(order, ft, b.tracks[i]);
      events := events + more;
      assert b.tracks[..i + 1][..i] == b.tracks[..i];
    }
    assert b.tracks[..|b.tracks|] == b.tracks;
  }

  /** The body of the track loop. */
  method BuildBundleEvents(order: ReadOrder, ft: FeedData, bundle: TrackBundle) returns (events: seq<FeedEvent>)
    ensures events == BundleEvents(order, ft, bundle)
  {
    var t := bundle.guid;
    events := [];
    if ft.row.None? {
      events := [TrackUpserted(t, bundle.row)];
      if bundle.items != [] {
        events := events + [TrackItemsReplaced(t, bundle.items)];
      }
      return;
    }
    var isNewOrChanged := t !in ft.tracks || TrackFieldsChanged(ft.tracks[t].fields, bundle.row.fields);
    if isNewOrChanged {
      events := [TrackUpserted(t, bundle.row)];
      var emptied := t in ft.tracks && order(TrackItems, Items(ft, t)) != [];
      if bundle.items != [] || emptied {
        events := events + [TrackItemsReplaced(t, bundle.items)];
      }
    } else {
      var changed := RowsChanged(order(TrackItems, Items(ft, t)), bundle.items);
      if changed {
        events := [TrackItemsReplaced(t, bundle.items)];
      }
    }
  }

  class NodeStore {
    var feeds: map<Guid, FeedData>
    var observations: map<Url, Observation>
    var copies: map<(Guid, Url), Copy>
    var overflow: map<Guid, nat>
    var blocks: map<string, Block>
    var supersessions: map<Guid, O.Supersession>

    function State(): Node
      reads this
    {
      Node(feeds, observations, copies, overflow, blocks, supersessions)
    }

    constructor ()
      ensures State() == EMPTY_NODE
    {
      feeds, observations, copies := map[], map[], map[];
      overflow, blocks, supersessions := map[], map[], map[];
    }

    /** The lookup behind the `UNIQUE` constraint of `feed_url`. */
    method UrlIsTaken(g: Guid, url: Url) returns (taken: bool)
      ensures taken == UrlTaken(State(), g, url)
    {
      if h :| h in feeds && h != g && feeds[h].row.Some? && feeds[h].row.value.fields.feedUrl == url {
        assert UrlOf(State(), h) == Some(url);
        taken := true;
      } else {
        taken := false;
      }
    }

    method DeleteFeed(g: Guid)
      modifies this
      ensures State() == DeleteFeedRows(old(State()), g)
    {
      copies := map k | k in copies && k.0 != g :: copies[k];
      overflow := overflow - {g};
      feeds := feeds - {g};
    }

    /** `replace_*` for each section of the feed. */
    method ReplaceSections(ft: FeedData, b: FeedBody, kinds: seq<SectionKind>) returns (replaced: FeedData)
      ensures replaced == ft.(sections := ft.sections + map kind | kind in kinds :: StoredSection(b, kind))
    {
      hide StoredSection;
      replaced := ft;
      for i := 0 to |kinds|
        invariant replaced.(sections := ft.sections) == ft
        invariant replaced.sections.Keys == ft.sections.Keys + set kind | kind in kinds[..i]
        invariant forall kind :: kind in replaced.sections ==>
                    replaced.sections[kind] == if kind in kinds[..i] then StoredSection(b, kind) else ft.sections[kind]
      {
        var kind := kinds[i];
        var rows := StoreSection(b, kind);
        replaced := replaced.(sections := replaced.sections[kind := rows]);
        assert kinds[..i + 1] == kinds[..i] + [kind];
      }
      assert kinds[..|kinds|] == kinds;
      assert replaced.sections == ft.sections + map kind | kind in kinds :: StoredSection(b, kind);
    }

    method StoreSection(b: FeedBody, kind: SectionKind) returns (rows: seq<Row>)
      ensures rows == StoredSection(b, kind)
    {
      rows := DedupeRows(kind, BodySection(b, kind));
      rows := Store(kind, rows);
    }

    /** The delete of each stored track that the body lacks, in the order of a hash set. */
    method RemoveStaleTracks(ft: FeedData, existing: set<Guid>, kept: set<Guid>) returns (left: FeedData, removed: seq<Guid>)
      ensures left == RemoveTracks(ft, existing - kept)
      ensures (set x | x in removed) == existing - kept
    {
      left, removed := ft, [];
      var pending := existing;
      while pending != {}
        invariant pending <= existing
        invariant left == RemoveTracks(ft, existing - pending - kept)
        invariant (set x | x in removed) == existing - pending - kept
        decreases pending
      {
        var t :| t in pending;
        pending := pending - {t};
        if t !in kept {
          left := RemoveTracks(left, {t});
          assert (set x | x in removed + [t]) == (set x | x in removed) + {t};
          removed := removed + [t];
          assert existing - pending - kept == (existing - (pending + {t}) - kept) + {t};
        } else {
          assert existing - pending - kept == existing - (pending + {t}) - kept;
        }
      }
      assert existing - {} - kept == existing - kept;
    }

    /** `ingest_transaction`. A refused URL leaves each table as it was. */
    method IngestTransaction(g: Guid, b: FeedBody) returns (ok: bool, removed: seq<Guid>)
      modifies `feeds
      ensures ok == !UrlTaken(old(State()), g, b.row.fields.feedUrl)
      ensures !ok ==> State() == old(State())
      ensures ok ==> State() == SetFeed(old(State()), g, WriteBody(Tables(old(State()), g), b))
      ensures ok ==> (set x | x in removed) == StaleTracks(Tables(old(State()), g), b)
    {
      var taken := UrlIsTaken(g, b.row.fields.feedUrl);
      if taken {
        return false, [];
      }
      var stored := Tables(State(), g);
      var ft := ReplaceSections(stored.(row := Some(b.row)), b, SECTION_ORDER);
      var existing := stored.tracks.Keys;
      ghost var before := ft;
      var kept: set<Guid> := {};
      for i := 0 to |b.tracks|
        invariant State() == old(State())
        invariant ft == WriteTracks(before, b.tracks[..i])
        invariant kept == TrackGuids(b.tracks[..i])
      {
        var bundle := b.tracks[i];
        ft := ft.(tracks := ft.tracks[bundle.guid := bundle.row]);
        ft := ft.(items := ft.items[bundle.guid := bundle.items]);
        kept := kept + {bundle.guid};
        GuidsOfPrefix(b.tracks, i);
        assert b.tracks[..i + 1][..i] == b.tracks[..i];
      }
      assert b.tracks[..|b.tracks|] == b.tracks;
      ft, removed := RemoveStaleTracks(ft, existing, kept);
      assert ft == WriteBody(stored, b);
      feeds := feeds[g := ft];
      ok := true;
    }

    method InsertFeedBlock(env: Env, id: string, block: Block) returns (inserted: bool)
      modifies `blocks, `copies
      ensures inserted == BlockInserted(env, old(State()), id, block)
      ensures State() == InsertBlock(env, old(State()), id, block)
    {
      var value := env.normalize(block.kind, block.value);
      if id in blocks {
        return false;
      }
      if k :| k in blocks && blocks[k].kind == block.kind && blocks[k].value == value {
        return false;
      }
      blocks := blocks[id := block.(value := value)];
      if block.kind == UrlBlock {
        copies := map k | k in copies && k.1 != Url(value) :: copies[k];
      }
      inserted := true;
    }

    /**
     The steps of a submission that write the replicated tables: the diff, the
     transition that a changed GUID needs, and the ingest transaction.
     */
    method HandleIngest(env: Env, g: Guid, b: FeedBody, tr: Option<GuidTransition>)
        returns (removed: seq<Guid>, events: seq<Event>)
      requires tr.Some? ==> tr.value.oldGuid != g
      modifies this
      ensures (State(), events) == CommitIngest(env, old(State()), g, b, tr, removed)
      ensures !UrlTaken(if tr.Some? then CommitTransition(old(State()), g, tr.value).0 else old(State()), g, b.row.fields.feedUrl)
              ==> (set x | x in removed) == StaleTracks(Tables(old(State()), g), b)
    {
      hide UrlTaken, WriteBody, DiffEvents, StaleTracks, ForFeed, RemovalEvents;
      var diff := BuildDiffEvents(env.order, Tables(State(), g), b);
      events := [];
      if tr.Some? {
        var s := O.Supersession(g, tr.value.sourceUrl, tr.value.now);
        DeleteFeed(tr.value.oldGuid);
        if tr.value.oldGuid !in supersessions {
          supersessions := supersessions[tr.value.oldGuid := s];
        }
        events := [FeedRetired(tr.value.oldGuid), Superseded(tr.value.oldGuid, s)];
      }
      var ok: bool;
      ok, removed := IngestTransaction(g, b);
      if ok {
        events := events + (ForFeed(g, diff) + ForFeed(g, RemovalEvents(removed)));
      }
    }

    /** `delete_feed_with_event`: the retirement, and one event for each new block. */
    method RetireFeed(env: Env, g: Guid, newBlocks: seq<(string, Block)>) returns (events: seq<Event>)
      modifies this
      ensures (State(), events) == CommitRetirement(env, old(State()), g, newBlocks)
    {
      DeleteFeed(g);
      ghost var retired := State();
      events := [FeedRetired(g)];
      for i := 0 to |newBlocks|
        invariant State() == CommitBlocks(env, retired, newBlocks[..i]).0
        invariant events == [FeedRetired(g)] + CommitBlocks(env, retired, newBlocks[..i]).1
      {
        var (id, block) := newBlocks[i];
        var inserted := InsertFeedBlock(env, id, block);
        if inserted {
          events := events + [Blocked(id, block)];
        }
        assert newBlocks[..i + 1][..i] == newBlocks[..i];
      }
      assert newBlocks[..|newBlocks|] == newBlocks;
    }

    /** `record_feed_copy_for_ingest`. */
    method RecordCopy(g: Guid, url: Url, summary: Row, now: int) returns (events: seq<Event>)
      modifies `copies, `overflow
      ensures (State(), events) == CommitCopy(old(State()), (g, url), summary, now)
    {
      var k := (g, url);
      events := [];
      if k in copies {
        var existing := copies[k];
        copies := copies[k := existing.(lastSeen := Some(now))];
        if existing.summary.fields != summary.fields {
          copies := copies[k := copies[k].(summary := summary)];
          events := [CopyObserved(k, existing.firstSeen, summary)];
        }
      } else if |CopiesOf(State(), g)| >= MAX_COPIES_PER_GUID {
        overflow := overflow[g := if g in overflow then overflow[g] + 1 else 1];
      } else {
        copies := copies[k := Copy(now, None, summary, None)];
        copies := copies[k := copies[k].(lastSeen := Some(now))];
        events := [CopyObserved(k, now, summary)];
      }
    }

    /**
     `apply_single_event_inner` after the check for a duplicate. `ok` is false
     when the statement fails, which leaves each table as it was.
     */
    method ApplySingleEvent(env: Env, e: Event) returns (ok: bool)
      modifies this
      ensures var applied := Apply(env, old(State()), e);
              ok == applied.Some? && State() == if ok then applied.value else old(State())
    {
      ok := true;
      match e {
        case OfFeed(g, fe) =>
          if fe.FeedUpserted? {
            var taken := UrlIsTaken(g, fe.feed.fields.feedUrl);
            if taken {
              return false;
            }
          }
          feeds := feeds[g := ApplyEvent(Tables(State(), g), fe)];
        case FeedRetired(g) =>
          if Tables(State(), g).row.Some? {
            DeleteFeed(g);
          }
        case UrlObserved(u, o) => observations := observations[u := o];
        case Blocked(id, block) => var _ := InsertFeedBlock(env, id, block);
        case Unblocked(id) => blocks := blocks - {id};
        case CopyObserved(k, firstSeen, summary) =>
          if k in copies {
            copies := copies[k := copies[k].(summary := summary)];
          } else {
            copies := copies[k := Copy(firstSeen, None, summary, None)];
          }
        case CopyResolved(k, resolution) =>
          if k in copies {
            copies := copies[k := copies[k].(resolution := Some(resolution))];
          }
        case Superseded(g, s) =>
          if g !in supersessions {
            supersessions := supersessions[g := s];
          }
      }
    }
  }

  lemma GuidsOfPrefix(bundles: seq<TrackBundle>, i: nat)
    requires i < |bundles|
    ensures TrackGuids(bundles[..i + 1]) == TrackGuids(bundles[..i]) + {bundles[i].guid}
  {
    forall t
      ensures t in TrackGuids(bundles[..i + 1]) <==> t in TrackGuids(bundles[..i]) + {bundles[i].guid}
    {
      if t in TrackGuids(bundles[..i]) {
        var k :| 0 <= k < i && bundles[..i][k].guid == t;
        assert bundles[..i + 1][k].guid == t;
      }
      if t in TrackGuids(bundles[..i + 1]) {
        var k :| 0 <= k <= i && bundles[..i + 1][k].guid == t;
        if k < i {
          assert bundles[..i][k].guid == t;
        }
      }
      assert bundles[..i + 1][i].guid == bundles[i].guid;
    }
  }
}
