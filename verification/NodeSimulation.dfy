/** Each transaction and its events keep a replica in agreement with the primary. */
module NodeSimulation {
  import opened Basics
  import opened FeedTables
  import opened FeedSimulation
  import opened TrackSimulation
  import opened IngestSimulation
  import opened Replication
  import O = Ownership

  // ── events in sequence ─────────────────────────────────────────────────

  lemma {:induction false} ApplyAllConcat(env: Env, n: Node, a: seq<Event>, b: seq<Event>)
    ensures var n1 := ApplyAll(env, n, a);
            ApplyAll(env, n, a + b) == if n1.None? then None else ApplyAll(env, n1.value, b)
    decreases |b|
  {
    if b == [] {
      assert a + b == a;
    } else {
      var m := |b| - 1;
      ApplyAllConcat(env, n, a, b[..m]);
      assert (a + b)[..|a + b| - 1] == a + b[..m];
    }
  }

  lemma ApplyAllOne(env: Env, n: Node, e: Event)
    ensures ApplyAll(env, n, [e]) == Apply(env, n, e)
  {
    assert [e][..0] == [];
    assert ApplyAll(env, n, []) == Some(n);
  }

  /** `r` after some events of the feed `g` alone. */
  ghost predicate FeedBecomes(r: Node, r': Node, g: Guid, ft: FeedData) {
    && Tables(r', g) == ft
    && (forall h :: h != g ==> Tables(r', h) == Tables(r, h))
    && r'.(feeds := r.feeds) == r
  }

  /** No event of the list puts the feed at a URL that another feed holds. */
  predicate UrlsFree(r: Node, g: Guid, events: seq<FeedEvent>) {
    forall e :: e in events && e.FeedUpserted? ==> !UrlTaken(r, g, e.feed.fields.feedUrl)
  }

  lemma TakenElsewhere(n: Node, g: Guid, url: Url)
    ensures UrlTaken(n, g, url) <==> exists h :: h != g && UrlOf(n, h) == Some(url)
  {
  }

  lemma TakenWithOthers(n: Node, n': Node, g: Guid, url: Url)
    requires forall h :: h != g ==> UrlOf(n, h) == UrlOf(n', h)
    ensures UrlTaken(n, g, url) == UrlTaken(n', g, url)
  {
    hide UrlTaken, UrlOf;
    TakenElsewhere(n, g, url);
    TakenElsewhere(n', g, url);
  }

  lemma {:induction false} FeedEventsApplied(env: Env, r: Node, g: Guid, events: seq<FeedEvent>)
    requires UrlsFree(r, g, events)
    ensures var r' := ApplyAll(env, r, ForFeed(g, events));
            r'.Some? && FeedBecomes(r, r'.value, g, ApplyEvents(Tables(r, g), events))
  {
    hide ApplyEvent, UrlTaken;
    if events != [] {
      var n := |events| - 1;
      var e := events[n];
      FeedEventsApplied(env, r, g, events[..n]);
      var r0 := ApplyAll(env, r, ForFeed(g, events[..n])).value;
      assert ForFeed(g, events)[..n] == ForFeed(g, events[..n]);
      assert e in events;
      if e.FeedUpserted? {
        TakenWithOthers(r, r0, g, e.feed.fields.feedUrl);
      }
    }
  }

  // ── agreement, part by part ────────────────────────────────────────────

  lemma UrlsAgree(p: Node, r: Node, g: Guid, url: Url)
    requires NodesAgree(p, r)
    ensures UrlTaken(p, g, url) == UrlTaken(r, g, url)
  {
    hide UrlTaken;
    forall h
      ensures UrlOf(p, h) == UrlOf(r, h)
    {
      assert Agree(Tables(p, h), Tables(r, h));
    }
    TakenWithOthers(p, r, g, url);
  }

  lemma FeedChangeAgrees(p: Node, p': Node, r: Node, r': Node, g: Guid, ft: FeedData, rt: FeedData)
    requires NodesAgree(p, r) && FeedBecomes(p, p', g, ft) && FeedBecomes(r, r', g, rt)
    ensures NodesAgree(p', r') <==> Agree(ft, rt)
  {
    hide Agree;
    forall h
      ensures h != g ==> Agree(Tables(p', h), Tables(r', h))
    {
      assert Agree(Tables(p, h), Tables(r, h));
    }
    forall k
      ensures ShownCopy(p', k) == ShownCopy(r', k)
    {
      assert ShownCopy(p, k) == ShownCopy(r, k);
    }
  }

  lemma FeedSet(n: Node, g: Guid, ft: FeedData)
    ensures FeedBecomes(n, SetFeed(n, g, ft), g, ft)
  {
  }

  lemma DeletionsAgree(p: Node, r: Node, g: Guid)
    requires NodesAgree(p, r)
    ensures NodesAgree(DeleteFeedRows(p, g), DeleteFeedRows(r, g))
  {
    hide Agree;
    var p', r' := DeleteFeedRows(p, g), DeleteFeedRows(r, g);
    forall h
      ensures Agree(Tables(p', h), Tables(r', h))
    {
      assert Agree(Tables(p, h), Tables(r, h));
      AgreeWithItself(NO_TABLES);
    }
    forall k
      ensures ShownCopy(p', k) == ShownCopy(r', k)
    {
      assert ShownCopy(p, k) == ShownCopy(r, k);
    }
  }

  lemma AgreeWithItself(ft: FeedData)
    ensures Agree(ft, ft)
  {
  }

  lemma SameGlobals(p: Node, r: Node)
    requires NodesAgree(p, r)
    ensures p.observations == r.observations && p.blocks == r.blocks && p.supersessions == r.supersessions
  {
  }

  /** The tables of no feed, when the feeds of both nodes stay. */
  lemma GlobalsAgree(p: Node, p': Node, r: Node, r': Node)
    requires NodesAgree(p, r) && p'.feeds == p.feeds && r'.feeds == r.feeds
    requires p'.observations == r'.observations && p'.blocks == r'.blocks && p'.supersessions == r'.supersessions
    requires forall k :: ShownCopy(p', k) == ShownCopy(r', k)
    ensures NodesAgree(p', r')
  {
    hide Agree, ShownCopy;
    forall h
      ensures Agree(Tables(p', h), Tables(r', h))
    {
      assert Agree(Tables(p, h), Tables(r, h));
    }
  }

  lemma CopiesStay(p: Node, p': Node, r: Node, r': Node)
    requires NodesAgree(p, r) && p'.copies == p.copies && r'.copies == r.copies
    ensures forall k :: ShownCopy(p', k) == ShownCopy(r', k)
  {
    hide Agree;
    forall k
      ensures ShownCopy(p', k) == ShownCopy(r', k)
    {
      assert ShownCopy(p, k) == ShownCopy(r, k);
    }
  }

  lemma ObservationsSet(p: Node, r: Node, o: map<Url, Observation>)
    requires NodesAgree(p, r)
    ensures NodesAgree(p.(observations := o), r.(observations := o))
  {
    hide ShownCopy, Agree;
    CopiesStay(p, p.(observations := o), r, r.(observations := o));
    GlobalsAgree(p, p.(observations := o), r, r.(observations := o));
  }

  lemma BlocksSet(p: Node, r: Node, b: map<string, Block>)
    requires NodesAgree(p, r)
    ensures NodesAgree(p.(blocks := b), r.(blocks := b))
  {
    hide ShownCopy, Agree;
    CopiesStay(p, p.(blocks := b), r, r.(blocks := b));
    GlobalsAgree(p, p.(blocks := b), r, r.(blocks := b));
  }

  lemma SupersessionsSet(p: Node, r: Node, s: map<Guid, O.Supersession>)
    requires NodesAgree(p, r)
    ensures NodesAgree(p.(supersessions := s), r.(supersessions := s))
  {
    hide ShownCopy, Agree;
    CopiesStay(p, p.(supersessions := s), r, r.(supersessions := s));
    GlobalsAgree(p, p.(supersessions := s), r, r.(supersessions := s));
  }

  lemma CopiesCleared(p: Node, r: Node, u: Url)
    requires NodesAgree(p, r)
    ensures NodesAgree(p.(copies := ClearCopiesOf(p.copies, u)), r.(copies := ClearCopiesOf(r.copies, u)))
  {
    hide Agree;
    var p', r' := p.(copies := ClearCopiesOf(p.copies, u)), r.(copies := ClearCopiesOf(r.copies, u));
    forall k
      ensures ShownCopy(p', k) == ShownCopy(r', k)
    {
      assert ShownCopy(p, k) == ShownCopy(r, k);
    }
    GlobalsAgree(p, p', r, r');
  }

  lemma BlockParts(env: Env, n: Node, id: string, block: Block)
    ensures var b := block.(value := env.normalize(block.kind, block.value));
            var copies := if b.kind == UrlBlock then ClearCopiesOf(n.copies, Url(b.value)) else n.copies;
            InsertBlock(env, n, id, block) ==
            if BlockIgnored(n.blocks, id, b) then n else n.(blocks := n.blocks[id := b]).(copies := copies)
  {
    hide BlockIgnored, ClearCopiesOf;
  }

  lemma BlocksAgree(env: Env, p: Node, r: Node, id: string, block: Block)
    requires NodesAgree(p, r)
    ensures NodesAgree(InsertBlock(env, p, id, block), InsertBlock(env, r, id, block))
  {
    hide NodesAgree, BlockIgnored, InsertBlock, ClearCopiesOf;
    var b := block.(value := env.normalize(block.kind, block.value));
    SameGlobals(p, r);
    BlockParts(env, p, id, block);
    BlockParts(env, r, id, block);
    if !BlockIgnored(p.blocks, id, b) {
      BlocksSet(p, r, p.blocks[id := b]);
      CopiesCleared(p.(blocks := p.blocks[id := b]), r.(blocks := r.blocks[id := b]), Url(b.value));
    }
  }

  // ── the transactions ───────────────────────────────────────────────────

  /** What one transaction has to establish. */
  ghost predicate Follows(env: Env, n': Node, r: Node, events: seq<Event>) {
    var r' := ApplyAll(env, r, events);
    r'.Some? && NodesAgree(n', r'.value)
  }

  lemma RetirementFollows(env: Env, p: Node, r: Node, g: Guid)
    requires NodesAgree(p, r) && Tables(p, g).row.Some?
    ensures Follows(env, DeleteFeedRows(p, g), r, [FeedRetired(g)])
  {
    ApplyAllOne(env, r, FeedRetired(g));
    assert Agree(Tables(p, g), Tables(r, g));
    DeletionsAgree(p, r, g);
  }

  lemma FollowsConcat(env: Env, n1: Node, n2: Node, r: Node, a: seq<Event>, b: seq<Event>)
    requires Follows(env, n1, r, a)
    requires Follows(env, n2, ApplyAll(env, r, a).value, b)
    ensures Follows(env, n2, r, a + b)
  {
    hide NodesAgree, ApplyAll;
    ApplyAllConcat(env, r, a, b);
  }

  lemma FollowsOne(env: Env, p': Node, r: Node, e: Event)
    requires Apply(env, r, e).Some? && NodesAgree(p', Apply(env, r, e).value)
    ensures Follows(env, p', r, [e])
  {
    ApplyAllOne(env, r, e);
  }

  lemma FollowsNone(env: Env, p: Node, r: Node)
    requires NodesAgree(p, r)
    ensures Follows(env, p, r, [])
  {
  }

  lemma TransitionFollows(env: Env, p: Node, r: Node, g: Guid, tr: GuidTransition)
    requires NodesAgree(p, r) && Tables(p, tr.oldGuid).row.Some?
    ensures Follows(env, CommitTransition(p, g, tr).0, r, CommitTransition(p, g, tr).1)
  {
    hide NodesAgree, ApplyAll, Apply;
    var s := O.Supersession(g, tr.sourceUrl, tr.now);
    var retired, superseded := FeedRetired(tr.oldGuid), Superseded(tr.oldGuid, s);
    RetirementFollows(env, p, r, tr.oldGuid);
    var p1 := DeleteFeedRows(p, tr.oldGuid);
    var r1 := ApplyAll(env, r, [retired]).value;
    SupersessionFollows(env, p1, r1, tr.oldGuid, s);
    FollowsConcat(env, p1, InsertSupersession(p1, tr.oldGuid, s), r, [retired], [superseded]);
    assert [retired] + [superseded] == [retired, superseded];
  }

  lemma SupersessionFollows(env: Env, p: Node, r: Node, oldGuid: Guid, s: O.Supersession)
    requires NodesAgree(p, r)
    ensures Follows(env, InsertSupersession(p, oldGuid, s), r, [Superseded(oldGuid, s)])
  {
    hide NodesAgree, ApplyAll;
    SameGlobals(p, r);
    SupersessionsSet(p, r, p.supersessions[oldGuid := s]);
    FollowsOne(env, InsertSupersession(p, oldGuid, s), r, Superseded(oldGuid, s));
  }

  lemma {:induction false} NoFeedInSections(order: ReadOrder, ft: FeedData, b: FeedBody, kinds: seq<SectionKind>)
    ensures forall e :: e in SectionEvents(order, ft, b, kinds) ==> e.SectionReplaced?
  {
    hide EmitsSection;
    if kinds != [] {
      NoFeedInSections(order, ft, b, kinds[..|kinds| - 1]);
    }
  }

  lemma {:induction false} NoFeedInTracks(order: ReadOrder, ft: FeedData, bundles: seq<TrackBundle>)
    ensures forall e :: e in TrackEvents(order, ft, bundles) ==> !e.FeedUpserted?
  {
    hide EmitsTrack, EmitsItems;
    if bundles != [] {
      NoFeedInTracks(order, ft, bundles[..|bundles| - 1]);
    }
  }

  lemma DiffUrlsFree(order: ReadOrder, ft: FeedData, b: FeedBody, removed: seq<Guid>, r: Node, g: Guid)
    requires !UrlTaken(r, g, b.row.fields.feedUrl)
    ensures UrlsFree(r, g, DiffEvents(order, ft, b) + RemovalEvents(removed))
  {
    hide SectionEvents, TrackEvents, UrlTaken;
    NoFeedInSections(order, ft, b, SECTION_ORDER);
    NoFeedInTracks(order, ft, b.tracks);
  }

  /** The overwrite of a feed whose URL is free, after a transition or without one. */
  lemma AdmissionFollows(env: Env, ft: FeedData, p: Node, r: Node, g: Guid, b: FeedBody, removed: seq<Guid>)
    requires ReadsAll(env.order) && NodesAgree(p, r) && WellFormed(Tables(p, g)) && ft == Tables(p, g)
    requires (set x | x in removed) == StaleTracks(ft, b)
    requires !UrlTaken(p, g, b.row.fields.feedUrl)
    ensures var events := ForFeed(g, DiffEvents(env.order, ft, b)) + ForFeed(g, RemovalEvents(removed));
            && ApplyAll(env, r, events).Some?
            && (NodesAgree(SetFeed(p, g, WriteBody(ft, b)), ApplyAll(env, r, events).value)
                <==> TracksSettle(env.order, ft, b.tracks))
  {
    hide NodesAgree, ApplyAll, WriteBody, DiffEvents, ApplyEvents, UrlTaken, FeedBecomes, ReadsAll, WellFormed, Agree, StaleTracks,
         TracksSettle, ForFeed;
    var events := DiffEvents(env.order, ft, b) + RemovalEvents(removed);
    assert forall x :: x in removed <==> x in (set y | y in removed);
    UrlsAgree(p, r, g, b.row.fields.feedUrl);
    DiffUrlsFree(env.order, ft, b, removed, r, g);
    FeedEventsApplied(env, r, g, events);
    FeedSet(p, g, WriteBody(ft, b));
    assert ForFeed(g, events) == ForFeed(g, DiffEvents(env.order, ft, b)) + ForFeed(g, RemovalEvents(removed)) by {
      ForFeedConcat(g, DiffEvents(env.order, ft, b), RemovalEvents(removed));
    }
    TablesAgree(p, r, g);
    IngestAgreesExactly(env.order, ft, Tables(r, g), b, removed);
    FeedChangeAgrees(p, SetFeed(p, g, WriteBody(ft, b)), r, ApplyAll(env, r, ForFeed(g, events)).value, g,
                     WriteBody(ft, b), ApplyEvents(Tables(r, g), events));
  }

  lemma ForFeedConcat(g: Guid, a: seq<FeedEvent>, b: seq<FeedEvent>)
    ensures ForFeed(g, a + b) == ForFeed(g, a) + ForFeed(g, b)
  {
  }

  lemma TablesAgree(p: Node, r: Node, g: Guid)
    requires NodesAgree(p, r)
    ensures Agree(Tables(p, g), Tables(r, g))
  {
  }

  lemma IngestFollows(env: Env, p: Node, r: Node, g: Guid, b: FeedBody, tr: Option<GuidTransition>, removed: seq<Guid>)
    requires ReadsAll(env.order) && NodesAgree(p, r) && Sound(p)
    requires Permitted(p, Ingest(g, b, tr, removed))
    ensures var (n', events) := CommitIngest(env, p, g, b, tr, removed);
            && ApplyAll(env, r, events).Some?
            && (NodesAgree(n', ApplyAll(env, r, events).value) <==> Settles(env, p, Ingest(g, b, tr, removed)))
  {
    hide NodesAgree, ApplyAll, WriteBody, DiffEvents, UrlTaken, ReadsAll, WellFormed, Agree, StaleTracks, TracksSettle,
         ForFeed, DeleteFeedRows, InsertSupersession;
    var ft := Tables(p, g);
    assert WellFormed(ft);
    var events := ForFeed(g, DiffEvents(env.order, ft, b)) + ForFeed(g, RemovalEvents(removed));
    var (n1, prefix) := if tr.Some? then CommitTransition(p, g, tr.value) else (p, []);
    if tr.Some? {
      TransitionFollows(env, p, r, g, tr.value);
      TransitionKeepsFeed(p, g, tr.value);
    } else {
      FollowsNone(env, p, r);
    }
    var r1 := ApplyAll(env, r, prefix).value;
    if !UrlTaken(n1, g, b.row.fields.feedUrl) {
      AdmissionFollows(env, ft, n1, r1, g, b, removed);
      ApplyAllConcat(env, r, prefix, events);
    }
  }

  lemma TransitionKeepsFeed(n: Node, g: Guid, tr: GuidTransition)
    requires tr.oldGuid != g
    ensures Tables(CommitTransition(n, g, tr).0, g) == Tables(n, g)
  {
  }

  lemma ObservationFollows(env: Env, p: Node, r: Node, u: Url, g: Guid, now: int)
    requires NodesAgree(p, r)
    ensures Follows(env, CommitObservation(p, u, g, now).0, r, CommitObservation(p, u, g, now).1)
  {
    hide NodesAgree, ApplyAll;
    SameGlobals(p, r);
    FollowsNone(env, p, r);
    var o := Observation(g, now);
    if CommitObservation(p, u, g, now).1 != [] {
      ObservationsSet(p, r, p.observations[u := o]);
      FollowsOne(env, p.(observations := p.observations[u := o]), r, UrlObserved(u, o));
    }
  }

  lemma ObservationsFollow(env: Env, p: Node, r: Node, g: Guid, canonicalUrl: Url, sourceUrl: Url, now: int)
    requires NodesAgree(p, r)
    ensures var (n', events) := CommitObservations(p, g, canonicalUrl, sourceUrl, now);
            Follows(env, n', r, events)
  {
    hide NodesAgree, ApplyAll, CommitObservation;
    var first := CommitObservation(p, canonicalUrl, g, now);
    ObservationFollows(env, p, r, canonicalUrl, g, now);
    if sourceUrl != canonicalUrl {
      var second := CommitObservation(first.0, sourceUrl, g, now);
      ObservationFollows(env, first.0, ApplyAll(env, r, first.1).value, sourceUrl, g, now);
      FollowsConcat(env, first.0, second.0, r, first.1, second.1);
    }
  }

  lemma CopyParts(p: Node, k: (Guid, Url), summary: Row, now: int, k': (Guid, Url))
    ensures var (p', events) := CommitCopy(p, k, summary, now);
            var firstSeen := if k in p.copies then p.copies[k].firstSeen else now;
            && p'.(copies := p.copies, overflow := p.overflow) == p
            && (events == [] ==> ShownCopy(p', k') == ShownCopy(p, k'))
            && (events != [] ==>
                  && events == [CopyObserved(k, firstSeen, summary)]
                  && ShownCopy(p', k') == ShownCopy(UpsertCopy(p, k, firstSeen, summary), k'))
  {
    hide CopiesOf;
  }

  /** The new summary of a copy shows alike where the copy showed alike. */
  lemma UpsertsAgree(p: Node, r: Node, k: (Guid, Url), firstSeen: int, summary: Row, k': (Guid, Url))
    requires ShownCopy(p, k) == ShownCopy(r, k) && ShownCopy(p, k') == ShownCopy(r, k')
    ensures ShownCopy(UpsertCopy(p, k, firstSeen, summary), k') == ShownCopy(UpsertCopy(r, k, firstSeen, summary), k')
  {
  }

  /** The event writes the copy that the primary wrote, and nothing is silent. */
  lemma CopyFollows(env: Env, p: Node, r: Node, k: (Guid, Url), summary: Row, now: int)
    requires NodesAgree(p, r)
    ensures Follows(env, CommitCopy(p, k, summary, now).0, r, CommitCopy(p, k, summary, now).1)
  {
    hide Agree, ApplyAll, CommitCopy, ShownCopy;
    var (p', events) := CommitCopy(p, k, summary, now);
    var firstSeen := if k in p.copies then p.copies[k].firstSeen else now;
    var r' := if events == [] then r else UpsertCopy(r, k, firstSeen, summary);
    forall k'
      ensures ShownCopy(p', k') == ShownCopy(r', k')
    {
      CopyParts(p, k, summary, now, k');
      UpsertsAgree(p, r, k, firstSeen, summary, k');
    }
    CopyParts(p, k, summary, now, k);
    GlobalsAgree(p, p', r, r');
    if events == [] {
      FollowsNone(env, p', r);
    } else {
      FollowsOne(env, p', r, CopyObserved(k, firstSeen, summary));
    }
  }

  lemma RelocationFollows(env: Env, p: Node, r: Node, g: Guid, url: Url)
    requires NodesAgree(p, r)
    ensures Follows(env, CommitRelocation(p, g, url).0, r, CommitRelocation(p, g, url).1)
  {
    hide NodesAgree, ApplyAll, UrlTaken, FeedBecomes, Agree;
    FollowsNone(env, p, r);
    var (p', events) := CommitRelocation(p, g, url);
    if events != [] {
      var moved := events[0].event.feed;
      UrlsAgree(p, r, g, url);
      TablesAgree(p, r, g);
      var ft, rt := Tables(p, g).(row := Some(moved)), Tables(r, g).(row := Some(moved));
      FeedSet(p, g, ft);
      FeedSet(r, g, rt);
      FeedChangeAgrees(p, p', r, SetFeed(r, g, rt), g, ft, rt);
      RowsAgree(Tables(p, g), Tables(r, g), moved);
      FollowsOne(env, p', r, events[0]);
    }
  }

  lemma RowsAgree(p: FeedData, r: FeedData, row: FeedRow)
    requires Agree(p, r)
    ensures Agree(p.(row := Some(row)), r.(row := Some(row)))
  {
    hide Project;
    forall t ensures AgreeOnTrack(p.(row := Some(row)), r.(row := Some(row)), t) {
      assert AgreeOnTrack(p, r, t);
    }
    forall kind
      ensures Project(kind, Section(p.(row := Some(row)), kind)) == Project(kind, Section(r.(row := Some(row)), kind))
    {
      assert Project(kind, Section(p, kind)) == Project(kind, Section(r, kind));
    }
  }

  lemma ResolutionFollows(env: Env, p: Node, r: Node, g: Guid, url: Url, relocate: bool, reason: string, now: int)
    requires NodesAgree(p, r)
    ensures var (n', events) := CommitResolution(p, g, url, relocate, reason, now);
            Follows(env, n', r, events)
  {
    hide NodesAgree, ApplyAll, UrlTaken;
    FollowsNone(env, p, r);
    var (p', events) := CommitResolution(p, g, url, relocate, reason, now);
    if events != [] {
      var (p1, moved) := if relocate then CommitRelocation(p, g, url) else (p, []);
      if relocate {
        RelocationFollows(env, p, r, g, url);
      }
      var r1 := ApplyAll(env, r, moved).value;
      var last := events[|events| - 1];
      ResolveFollows(env, p1, r1, (g, url), last.resolution);
      FollowsConcat(env, p1, p', r, moved, [last]);
    }
  }

  lemma ResolveFollows(env: Env, p: Node, r: Node, k: (Guid, Url), resolution: Resolution)
    requires NodesAgree(p, r)
    ensures Follows(env, ResolveCopy(p, k, resolution), r, [CopyResolved(k, resolution)])
  {
    hide Agree, ApplyAll;
    var p', r' := ResolveCopy(p, k, resolution), ResolveCopy(r, k, resolution);
    assert ShownCopy(p, k) == ShownCopy(r, k);
    forall k' ensures ShownCopy(p', k') == ShownCopy(r', k') {
      assert ShownCopy(p, k') == ShownCopy(r, k');
    }
    GlobalsAgree(p, p', r, r');
    FollowsOne(env, p', r, CopyResolved(k, resolution));
  }

  lemma BlockFollows(env: Env, p: Node, r: Node, id: string, b: Block)
    requires NodesAgree(p, r)
    ensures Follows(env, InsertBlock(env, p, id, b), r, [Blocked(id, b)])
  {
    hide NodesAgree, ApplyAll, InsertBlock;
    BlocksAgree(env, p, r, id, b);
    FollowsOne(env, InsertBlock(env, p, id, b), r, Blocked(id, b));
  }

  lemma {:induction false} BlocksFollow(env: Env, p: Node, r: Node, blocks: seq<(string, Block)>)
    requires NodesAgree(p, r)
    ensures Follows(env, CommitBlocks(env, p, blocks).0, r, CommitBlocks(env, p, blocks).1)
    decreases |blocks|
  {
    hide NodesAgree, ApplyAll, InsertBlock, BlockInserted;
    if blocks == [] {
      FollowsNone(env, p, r);
    } else {
      var (n1, events) := CommitBlocks(env, p, blocks[..|blocks| - 1]);
      var (id, b) := blocks[|blocks| - 1];
      BlocksFollow(env, p, r, blocks[..|blocks| - 1]);
      if BlockInserted(env, n1, id, b) {
        BlockFollows(env, n1, ApplyAll(env, r, events).value, id, b);
        FollowsConcat(env, n1, InsertBlock(env, n1, id, b), r, events, [Blocked(id, b)]);
      }
    }
  }

  lemma FeedRetirementFollows(env: Env, p: Node, r: Node, g: Guid, blocks: seq<(string, Block)>)
    requires NodesAgree(p, r) && Tables(p, g).row.Some?
    ensures Follows(env, CommitRetirement(env, p, g, blocks).0, r, CommitRetirement(env, p, g, blocks).1)
  {
    hide NodesAgree, ApplyAll, CommitBlocks, DeleteFeedRows;
    RetirementFollows(env, p, r, g);
    var p1 := DeleteFeedRows(p, g);
    var (n', events) := CommitBlocks(env, p1, blocks);
    BlocksFollow(env, p1, ApplyAll(env, r, [FeedRetired(g)]).value, blocks);
    FollowsConcat(env, p1, n', r, [FeedRetired(g)], events);
  }

  lemma TrackRemovalFollows(env: Env, p: Node, r: Node, g: Guid, t: Guid)
    requires NodesAgree(p, r) && t in Tables(p, g).tracks
    ensures Follows(env, SetFeed(p, g, RemoveTracks(Tables(p, g), {t})), r, [OfFeed(g, TrackRemoved(t))])
  {
    hide NodesAgree, ApplyAll, FeedBecomes, Agree, RemoveTracks;
    TablesAgree(p, r, g);
    var ft, rt := Tables(p, g), Tables(r, g);
    RemovedAgree(ft, rt, t);
    FeedSet(p, g, RemoveTracks(ft, {t}));
    FeedSet(r, g, RemoveTracks(rt, {t}));
    FeedChangeAgrees(p, SetFeed(p, g, RemoveTracks(ft, {t})), r, SetFeed(r, g, RemoveTracks(rt, {t})), g,
                     RemoveTracks(ft, {t}), RemoveTracks(rt, {t}));
    FollowsOne(env, SetFeed(p, g, RemoveTracks(ft, {t})), r, OfFeed(g, TrackRemoved(t)));
  }

  lemma RemovedAgree(p: FeedData, r: FeedData, t: Guid)
    requires Agree(p, r) && t in p.tracks
    ensures t in r.tracks
    ensures Agree(RemoveTracks(p, {t}), RemoveTracks(r, {t}))
  {
    hide Project;
    assert AgreeOnTrack(p, r, t);
    forall x ensures AgreeOnTrack(RemoveTracks(p, {t}), RemoveTracks(r, {t}), x) {
      assert AgreeOnTrack(p, r, x);
    }
    forall kind
      ensures Project(kind, Section(RemoveTracks(p, {t}), kind)) == Project(kind, Section(RemoveTracks(r, {t}), kind))
    {
      assert Project(kind, Section(p, kind)) == Project(kind, Section(r, kind));
    }
  }

  lemma UnblockFollows(env: Env, p: Node, r: Node, id: string)
    requires NodesAgree(p, r)
    ensures Follows(env, p.(blocks := p.blocks - {id}), r, [Unblocked(id)])
  {
    hide NodesAgree, ApplyAll;
    SameGlobals(p, r);
    BlocksSet(p, r, p.blocks - {id});
    FollowsOne(env, p.(blocks := p.blocks - {id}), r, Unblocked(id));
  }

  /**
   The replica accepts the events of each transaction, and it agrees with the
   primary after them exactly when the tracks of the transaction settle.
   */
  lemma CommitFollowsExactly(env: Env, p: Node, r: Node, t: Transaction)
    requires ReadsAll(env.order) && NodesAgree(p, r) && Sound(p) && Permitted(p, t)
    ensures ApplyAll(env, r, Commit(env, p, t).1).Some?
    ensures NodesAgree(Commit(env, p, t).0, ApplyAll(env, r, Commit(env, p, t).1).value) <==> Settles(env, p, t)
  {
    hide NodesAgree, ApplyAll, CommitIngest, CommitObservations, CommitCopy, CommitResolution, CommitRelocation,
         CommitRetirement, CommitNewBlock, CommitBlocks, InsertBlock, SetFeed, RemoveTracks, ReadsAll;
    match t
    case Ingest(g, b, tr, removed) => IngestFollows(env, p, r, g, b, tr, removed);
    case Observe(g, canonicalUrl, sourceUrl, now) => ObservationsFollow(env, p, r, g, canonicalUrl, sourceUrl, now);
    case ObserveCopy(g, u, summary, now) => CopyFollows(env, p, r, (g, u), summary, now);
    case Resolve(g, u, relocate, reason, now) => ResolutionFollows(env, p, r, g, u, relocate, reason, now);
    case Relocate(g, u) => RelocationFollows(env, p, r, g, u);
    case Retire(g, blocks) => FeedRetirementFollows(env, p, r, g, blocks);
    case RemoveTrack(g, track) => TrackRemovalFollows(env, p, r, g, track);
    case CreateBlock(id, b) => NewBlockFollows(env, p, r, id, b);
    case SeedBlocks(blocks) => BlocksFollow(env, p, r, blocks);
    case DeleteBlock(id) =>
      UnblockFollows(env, p, r, id);
      FollowsNone(env, p, r);
  }

  lemma NewBlockFollows(env: Env, p: Node, r: Node, id: string, block: Block)
    requires NodesAgree(p, r)
    ensures Follows(env, CommitNewBlock(env, p, id, block).0, r, CommitNewBlock(env, p, id, block).1)
  {
    hide NodesAgree, ApplyAll, InsertBlock;
    BlockFollows(env, p, r, id, block.(value := env.normalize(block.kind, block.value)));
    FollowsNone(env, p, r);
  }

  // ── whole runs ─────────────────────────────────────────────────────────

  /** Each transaction begins where the routes let it begin, and its tracks settle. */
  predicate Admissible(env: Env, ts: seq<Transaction>) {
    forall i :: 0 <= i < |ts| ==>
      Permitted(After(env, ts[..i]).0, ts[i]) && Settles(env, After(env, ts[..i]).0, ts[i])
  }

  lemma IngestSound(env: Env, n: Node, g: Guid, b: FeedBody, tr: Option<GuidTransition>, removed: seq<Guid>, h: Guid)
    requires Sound(n)
    ensures WellFormed(Tables(CommitIngest(env, n, g, b, tr, removed).0, h))
  {
    hide WriteBody, UrlTaken, DiffEvents, StaleTracks, WellFormed, InsertSupersession;
    var n1 := if tr.Some? then CommitTransition(n, g, tr.value).0 else n;
    assert WellFormed(Tables(n1, h)) && WellFormed(Tables(n1, g)) by {
      EmptyIsWellFormed();
      TransitionTables(n, g, if tr.Some? then tr.value else GuidTransition(g, Url(""), 0), h);
      TransitionTables(n, g, if tr.Some? then tr.value else GuidTransition(g, Url(""), 0), g);
      assert WellFormed(Tables(n, h)) && WellFormed(Tables(n, g));
    }
    WriteBodyWellFormed(Tables(n1, g), b);
  }

  lemma EmptyIsWellFormed()
    ensures WellFormed(NO_TABLES)
  {
  }

  lemma TransitionTables(n: Node, g: Guid, tr: GuidTransition, h: Guid)
    ensures Tables(CommitTransition(n, g, tr).0, h) == if h == tr.oldGuid then NO_TABLES else Tables(n, h)
  {
  }

  lemma {:induction false} BlocksKeepFeeds(env: Env, n: Node, blocks: seq<(string, Block)>)
    ensures CommitBlocks(env, n, blocks).0.feeds == n.feeds
  {
    hide BlockInserted, BlockIgnored;
    if blocks != [] {
      BlocksKeepFeeds(env, n, blocks[..|blocks| - 1]);
    }
  }

  predicate TouchesNoFeed(t: Transaction) {
    t.Observe? || t.ObserveCopy? || t.CreateBlock? || t.SeedBlocks? || t.DeleteBlock?
  }

  lemma ObservationKeepsFeeds(n: Node, u: Url, g: Guid, now: int)
    ensures CommitObservation(n, u, g, now).0.feeds == n.feeds
  {
  }

  lemma FeedsStay(env: Env, n: Node, t: Transaction)
    requires TouchesNoFeed(t)
    ensures Commit(env, n, t).0.feeds == n.feeds
  {
    hide CommitObservation, CommitCopy, CommitBlocks, CommitIngest, CommitRetirement, CommitResolution, CommitRelocation,
         InsertBlock, SetFeed;
    match t
    case Observe(g, canonicalUrl, sourceUrl, now) =>
      ObservationKeepsFeeds(n, canonicalUrl, g, now);
      ObservationKeepsFeeds(CommitObservation(n, canonicalUrl, g, now).0, sourceUrl, g, now);
    case ObserveCopy(g, u, summary, now) => CopyParts(n, (g, u), summary, now, (g, u));
    case CreateBlock(id, b) => BlockParts(env, n, id, b.(value := env.normalize(b.kind, b.value)));
    case SeedBlocks(blocks) => BlocksKeepFeeds(env, n, blocks);
    case _ =>
  }

  /** Transactions other than an ingest change no section, and no tracks but a removed one. */
  lemma OtherSound(env: Env, n: Node, t: Transaction, h: Guid)
    requires Sound(n) && Permitted(n, t) && !t.Ingest?
    ensures WellFormed(Tables(Commit(env, n, t).0, h))
  {
    hide WellFormed, CommitBlocks, CommitRelocation, CommitObservations, CommitCopy, CommitNewBlock, CommitIngest, RemoveTracks,
         DeleteFeedRows;
    assert WellFormed(Tables(n, h));
    EmptyIsWellFormed();
    if TouchesNoFeed(t) {
      FeedsStay(env, n, t);
    } else if t.Relocate? || t.Resolve? {
      MovedWellFormed(n, t.guid, t.url, h);
    } else if t.RemoveTrack? {
      assert WellFormed(Tables(n, t.guid));
      RemovedWellFormed(Tables(n, t.guid), t.track);
    } else {
      BlocksKeepFeeds(env, DeleteFeedRows(n, t.guid), t.blocks);
      DeletedTables(n, t.guid, h);
    }
  }

  lemma DeletedTables(n: Node, g: Guid, h: Guid)
    ensures Tables(DeleteFeedRows(n, g), h) == if h == g then NO_TABLES else Tables(n, h)
  {
  }

  lemma MovedWellFormed(n: Node, g: Guid, url: Url, h: Guid)
    requires Sound(n)
    ensures WellFormed(Tables(CommitRelocation(n, g, url).0, h))
  {
    hide UrlTaken, WellFormed;
    assert WellFormed(Tables(n, g)) && WellFormed(Tables(n, h));
    var (n', events) := CommitRelocation(n, g, url);
    if events != [] {
      RowChangeWellFormed(Tables(n, g), events[0].event.feed);
    }
  }

  lemma RowChangeWellFormed(ft: FeedData, row: FeedRow)
    requires WellFormed(ft) && ft.row.Some?
    ensures WellFormed(ft.(row := Some(row)))
  {
    var ft' := ft.(row := Some(row));
    assert forall kind :: Section(ft', kind) == Section(ft, kind);
    assert forall t :: Items(ft', t) == Items(ft, t);
  }

  lemma RemovedWellFormed(ft: FeedData, t: Guid)
    requires WellFormed(ft) && t in ft.tracks
    ensures WellFormed(RemoveTracks(ft, {t}))
  {
    var ft' := RemoveTracks(ft, {t});
    assert forall kind :: Section(ft', kind) == Section(ft, kind);
    assert forall x :: x != t ==> Items(ft', x) == Items(ft, x);
  }

  lemma CommitSound(env: Env, n: Node, t: Transaction)
    requires Sound(n) && Permitted(n, t)
    ensures Sound(Commit(env, n, t).0)
  {
    hide WellFormed;
    forall h
      ensures WellFormed(Tables(Commit(env, n, t).0, h))
    {
      if t.Ingest? {
        IngestSound(env, n, t.guid, t.body, t.transition, t.removed, h);
      } else {
        OtherSound(env, n, t, h);
      }
    }
  }

  /** In every reachable state, the log of the primary rebuilds its replicated columns. */
  lemma {:induction false} LogRebuildsThePrimary(env: Env, ts: seq<Transaction>)
    requires ReadsAll(env.order) && Admissible(env, ts)
    ensures var (n, log) := After(env, ts);
            var rebuilt := ApplyAll(env, EMPTY_NODE, log);
            Sound(n) && rebuilt.Some? && NodesAgree(n, rebuilt.value)
  {
    hide NodesAgree, ApplyAll, Commit, ReadsAll, Permitted, Settles, Sound;
    if ts == [] {
      EmptyNodesAgree(env);
    } else {
      var m := |ts| - 1;
      assert forall i :: 0 <= i < m ==> ts[..m][..i] == ts[..i] && ts[..m][i] == ts[i];
      LogRebuildsThePrimary(env, ts[..m]);
      var (n, log) := After(env, ts[..m]);
      var r := ApplyAll(env, EMPTY_NODE, log).value;
      CommitFollowsExactly(env, n, r, ts[m]);
      CommitSound(env, n, ts[m]);
      ApplyAllConcat(env, EMPTY_NODE, log, Commit(env, n, ts[m]).1);
    }
  }

  lemma EmptyNodesAgree(env: Env)
    ensures Sound(EMPTY_NODE) && ApplyAll(env, EMPTY_NODE, []) == Some(EMPTY_NODE) && NodesAgree(EMPTY_NODE, EMPTY_NODE)
  {
  }
}
