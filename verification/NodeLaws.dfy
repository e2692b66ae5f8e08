/**
 What the small transactions of the primary leave, column by column: the
 observations of URLs, the copies of a feed and their resolutions, relocations,
 blocks and retirements.
 */
module NodeLaws {
  import opened Basics
  import opened FeedTables
  import opened TrackSimulation
  import opened Replication
  import opened NodeSimulation
  import opened NodeInvariants

  // ── observations (ADR 0049 section 1) ──────────────────────────────────

  predicate Observes(t: Transaction, u: Url) {
    t.Observe? && (u == t.canonicalUrl || u == t.sourceUrl)
  }

  /**
   Both URLs of an accepted submission name its GUID. A row that named it keeps
   its time, another one takes the present time, and each other URL stays. One
   event goes out for each row that changed.
   */
  lemma ObservationsNameTheGuid(env: Env, n: Node, t: Transaction, u: Url)
    requires t.Observe?
    ensures var (n', events) := Commit(env, n, t);
            && n' == n.(observations := n'.observations)
            && (Observes(t, u) ==>
                  && u in n'.observations
                  && n'.observations[u] == (if u in n.observations && n.observations[u].guid == t.guid
                                            then n.observations[u] else Observation(t.guid, t.now)))
            && (!Observes(t, u) ==>
                  && (u in n'.observations <==> u in n.observations)
                  && (u in n.observations ==> n'.observations[u] == n.observations[u]))
            && ((exists e :: e in events && e.UrlObserved? && e.url == u) <==>
                  Observes(t, u) && !(u in n.observations && n.observations[u].guid == t.guid))
  {
    var first := CommitObservation(n, t.canonicalUrl, t.guid, t.now);
    var second := CommitObservation(first.0, t.sourceUrl, t.guid, t.now);
    var events := Commit(env, n, t).1;
    OneObservation(n, t.canonicalUrl, t.guid, t.now, u);
    OneObservation(first.0, t.sourceUrl, t.guid, t.now, u);
    hide CommitObservation;
    if t.sourceUrl != t.canonicalUrl {
      assert events == first.1 + second.1;
    }
  }

  lemma OneObservation(n: Node, v: Url, g: Guid, now: int, u: Url)
    ensures var (n', events) := CommitObservation(n, v, g, now);
            && n' == n.(observations := n'.observations)
            && (u == v ==>
                  && u in n'.observations
                  && n'.observations[u] == (if u in n.observations && n.observations[u].guid == g
                                            then n.observations[u] else Observation(g, now)))
            && (u != v ==>
                  && (u in n'.observations <==> u in n.observations)
                  && (u in n.observations ==> n'.observations[u] == n.observations[u]))
            && ((exists e :: e in events && e.UrlObserved? && e.url == u) <==>
                  u == v && !(u in n.observations && n.observations[u].guid == g))
  {
    var events := CommitObservation(n, v, g, now).1;
    if events != [] {
      assert events[0] in events && events[0].url == v;
    }
  }

  lemma IngestKeepsObservations(env: Env, n: Node, g: Guid, b: FeedBody, tr: Option<GuidTransition>, removed: seq<Guid>)
    ensures CommitIngest(env, n, g, b, tr, removed).0.observations == n.observations
  {
    hide UrlTaken, WriteBody, DiffEvents, ForFeed, StaleTracks;
  }

  lemma CopyKeepsObservations(n: Node, k: (Guid, Url), summary: Row, now: int)
    ensures CommitCopy(n, k, summary, now).0.observations == n.observations
  {
    hide CopiesOf;
  }

  lemma ResolutionKeepsObservations(n: Node, g: Guid, url: Url, relocate: bool, reason: string, now: int)
    ensures CommitRelocation(n, g, url).0.observations == n.observations
    ensures CommitResolution(n, g, url, relocate, reason, now).0.observations == n.observations
  {
    hide UrlTaken;
  }

  lemma OthersKeepObservations(env: Env, n: Node, t: Transaction)
    requires !t.Observe?
    ensures Commit(env, n, t).0.observations == n.observations
  {
    hide CommitIngest, CommitRelocation, CommitResolution, CommitCopy, CommitBlocks, ClearCopiesOf, BlockIgnored, RemoveTracks;
    match t
    case Ingest(g, b, tr, removed) => IngestKeepsObservations(env, n, g, b, tr, removed);
    case ObserveCopy(g, u, summary, now) => CopyKeepsObservations(n, (g, u), summary, now);
    case Resolve(g, u, relocate, reason, now) => ResolutionKeepsObservations(n, g, u, relocate, reason, now);
    case Relocate(g, u) => ResolutionKeepsObservations(n, g, u, true, "", 0);
    case Retire(g, blocks) => BlocksKeepObservations(env, DeleteFeedRows(n, g), blocks);
    case SeedBlocks(blocks) => BlocksKeepObservations(env, n, blocks);
    case _ =>
  }

  lemma {:induction false} BlocksKeepObservations(env: Env, n: Node, blocks: seq<(string, Block)>)
    ensures CommitBlocks(env, n, blocks).0.observations == n.observations
  {
    hide BlockIgnored, ClearCopiesOf;
    if blocks != [] {
      BlocksKeepObservations(env, n, blocks[..|blocks| - 1]);
    }
  }

  /** The GUID of the last submission at the URL. */
  function LastObserved(ts: seq<Transaction>, u: Url): Option<Guid> {
    if ts == [] then None
    else if Observes(ts[|ts| - 1], u) then Some(ts[|ts| - 1].guid)
    else LastObserved(ts[..|ts| - 1], u)
  }

  /** In every run a URL names the GUID of the last submission observed there, and no URL has another row. */
  lemma {:induction false} ObservationsAreLast(env: Env, ts: seq<Transaction>, u: Url)
    ensures var n := After(env, ts).0;
            LastObserved(ts, u) == if u in n.observations then Some(n.observations[u].guid) else None
  {
    hide Commit;
    if ts != [] {
      var n, t := After(env, ts[..|ts| - 1]).0, ts[|ts| - 1];
      ObservationsAreLast(env, ts[..|ts| - 1], u);
      if t.Observe? {
        ObservationsNameTheGuid(env, n, t, u);
      } else {
        OthersKeepObservations(env, n, t);
      }
    }
  }

  // ── relocations and resolutions ────────────────────────────────────────

  /** Another feed stores the URL. */
  ghost predicate StoredElsewhere(n: Node, g: Guid, url: Url) {
    exists h :: h in n.feeds && h != g && n.feeds[h].row.Some? && n.feeds[h].row.value.fields.feedUrl == url
  }

  lemma TakenIsStored(n: Node, g: Guid, url: Url)
    ensures UrlTaken(n, g, url) <==> StoredElsewhere(n, g, url)
  {
    if UrlTaken(n, g, url) {
      var h :| h in n.feeds && h != g && UrlOf(n, h) == Some(url);
      assert n.feeds[h].row.Some?;
    }
    if StoredElsewhere(n, g, url) {
      var h :| h in n.feeds && h != g && n.feeds[h].row.Some? && n.feeds[h].row.value.fields.feedUrl == url;
      assert UrlOf(n, h) == Some(url);
    }
  }

  /** A relocation stores the URL and drops the build date, and changes nothing else of any feed. */
  lemma RelocationLeaves(n: Node, g: Guid, url: Url)
    ensures var (n', events) := CommitRelocation(n, g, url);
            if Tables(n, g).row.None? || StoredElsewhere(n, g, url) then n' == n && events == []
            else
              var row := Tables(n, g).row.value;
              var moved := Tables(n', g).row;
              && n' == n.(feeds := n.feeds[g := Tables(n, g).(row := moved)])
              && moved.Some? && moved.value.lastBuildDate == None
              && moved.value.fields.feedUrl == url
              && moved.value == row.(fields := row.fields.(feedUrl := url), lastBuildDate := None)
              && events == [OfFeed(g, FeedUpserted(moved.value))]
  {
    hide UrlTaken;
    TakenIsStored(n, g, url);
  }

  /**
   A resolution writes its decision to the copy, with the digests that the copy
   has. A relocation moves the feed to the URL of the copy, and the decision to
   keep the source leaves the feed. With no feed, no copy, or a held URL nothing
   changes.
   */
  lemma ResolutionLeaves(env: Env, n: Node, g: Guid, url: Url, relocate: bool, reason: string, now: int)
    ensures var (n', events) := Commit(env, n, Resolve(g, url, relocate, reason, now));
            if Tables(n, g).row.None? || (g, url) !in n.copies || (relocate && StoredElsewhere(n, g, url)) then
              n' == n && events == []
            else
              var summary := n.copies[(g, url)].summary.fields;
              var r := Resolution(if relocate then "relocate" else "keep_source", reason, now,
                                  if |summary| > 0 then summary[0] else Null, if |summary| > 1 then summary[1] else Null);
              && n'.copies == n.copies[(g, url) := n.copies[(g, url)].(resolution := Some(r))]
              && UrlOf(n', g) == (if relocate then Some(url) else UrlOf(n, g))
              && (forall h :: h != g || !relocate ==> Tables(n', h) == Tables(n, h))
              && n' == n.(feeds := n'.feeds, copies := n'.copies)
              && |events| == (if relocate then 2 else 1)
              && events[|events| - 1] == CopyResolved((g, url), r)
  {
    hide UrlTaken, CommitRelocation, StoredElsewhere;
    TakenIsStored(n, g, url);
    RelocationLeaves(n, g, url);
  }

  // ── copies ─────────────────────────────────────────────────────────────

  /**
   A mirror submission marks its copy as seen now. A known copy keeps its first
   time and its resolution; a new one needs room among twenty. The event goes out
   exactly when a compared column changed or the copy is new.
   */
  lemma CopyLeaves(env: Env, n: Node, g: Guid, url: Url, summary: Row, now: int)
    ensures var k := (g, url);
            var known, full := k in n.copies, |set c | c in n.copies && c.0 == g| >= 20;
            var (n', events) := Commit(env, n, ObserveCopy(g, url, summary, now));
            if !known && full then
              && events == []
              && n' == n.(overflow := n.overflow[g := 1 + if g in n.overflow then n.overflow[g] else 0])
            else
              var changed := !known || n.copies[k].summary.fields != summary.fields;
              var firstSeen := if known then n.copies[k].firstSeen else now;
              && n' == n.(copies := n'.copies)
              && n'.copies == n.copies[k := Copy(firstSeen, Some(now),
                                                 if changed then summary else n.copies[k].summary,
                                                 if known then n.copies[k].resolution else None)]
              && events == if changed then [CopyObserved(k, firstSeen, summary)] else []
  {
    hide CommitCopy;
    KnownCopyLeaves(n, (g, url), summary, now);
    NewCopyLeaves(n, (g, url), summary, now);
  }

  lemma KnownCopyLeaves(n: Node, k: (Guid, Url), summary: Row, now: int)
    ensures k in n.copies ==>
              var changed := n.copies[k].summary.fields != summary.fields;
              var copy := n.copies[k].(lastSeen := Some(now), summary := if changed then summary else n.copies[k].summary);
              CommitCopy(n, k, summary, now) ==
              (n.(copies := n.copies[k := copy]), if changed then [CopyObserved(k, copy.firstSeen, summary)] else [])
  {
    if k in n.copies {
      var touched := n.copies[k].(lastSeen := Some(now));
      assert n.copies[k := touched][k := touched.(summary := summary)] == n.copies[k := touched.(summary := summary)];
    }
  }

  lemma NewCopyLeaves(n: Node, k: (Guid, Url), summary: Row, now: int)
    ensures k !in n.copies ==>
              CommitCopy(n, k, summary, now) ==
              if |set c | c in n.copies && c.0 == k.0| >= 20 then
                (n.(overflow := n.overflow[k.0 := 1 + if k.0 in n.overflow then n.overflow[k.0] else 0]), [])
              else (n.(copies := n.copies[k := Copy(now, Some(now), summary, None)]), [CopyObserved(k, now, summary)])
  {
    assert CopiesOf(n, k.0) == set c | c in n.copies && c.0 == k.0;
    assert n.copies[k := Copy(now, None, summary, None)][k := Copy(now, Some(now), summary, None)] ==
           n.copies[k := Copy(now, Some(now), summary, None)];
  }

  // ── blocks ─────────────────────────────────────────────────────────────

  /**
   A new block normalises its value twice, as the route and the insert each do.
   It answers with a conflict and changes nothing when a row of its kind has that
   value; otherwise such a row exists afterwards, each other row stays, and the
   event carries the value normalised once.
   */
  lemma NewBlockLeaves(env: Env, n: Node, id: string, b: Block)
    requires id !in n.blocks
    ensures var once := env.normalize(b.kind, b.value);
            var stored := env.normalize(b.kind, once);
            var known := exists k :: k in n.blocks && n.blocks[k].kind == b.kind && n.blocks[k].value == stored;
            var (n', events) := Commit(env, n, CreateBlock(id, b));
            if known then n' == n && events == []
            else
              && n'.blocks == n.blocks[id := b.(value := stored)]
              && n' == n.(blocks := n'.blocks, copies := n'.copies)
              && events == [Blocked(id, b.(value := once))]
  {
    hide InsertBlock;
    BlockParts(env, n, id, b.(value := env.normalize(b.kind, b.value)));
  }

  /** A deleted block goes with one event, each other block and everything else stays; an unknown one changes nothing. */
  lemma DeletedBlockLeaves(env: Env, n: Node, id: string)
    ensures var (n', events) := Commit(env, n, DeleteBlock(id));
            && n' == n.(blocks := n'.blocks)
            && id !in n'.blocks
            && (forall k :: k in n'.blocks <==> k in n.blocks && k != id)
            && (forall k :: k in n'.blocks ==> n'.blocks[k] == n.blocks[k])
            && events == if id in n.blocks then [Unblocked(id)] else []
  {
  }

  /** A removed track goes with its items, and each other track of the feed stays. */
  lemma TrackRemovalLeaves(env: Env, n: Node, g: Guid, track: Guid)
    ensures var (n', events) := Commit(env, n, RemoveTrack(g, track));
            var ft, ft' := Tables(n, g), Tables(n', g);
            && n' == n.(feeds := n.feeds[g := ft'])
            && ft' == ft.(tracks := ft'.tracks, items := ft'.items)
            && (forall t :: t in ft'.tracks <==> t in ft.tracks && t != track)
            && (forall t :: t != track ==> TrackFieldsOf(ft', t) == TrackFieldsOf(ft, t) && Items(ft', t) == Items(ft, t))
            && Items(ft', track) == []
            && events == [OfFeed(g, TrackRemoved(track))]
  {
  }

  // ── retirements ────────────────────────────────────────────────────────

  /** A retired feed has no row, no track, no copy and no count; its event comes before those of its blocks. */
  lemma RetirementLeaves(env: Env, n: Node, g: Guid, blocks: seq<(string, Block)>)
    ensures var (n', events) := Commit(env, n, Retire(g, blocks));
            && Tables(n', g) == NO_TABLES
            && (forall h :: h != g ==> Tables(n', h) == Tables(n, h))
            && (forall u :: (g, u) !in n'.copies)
            && g !in n'.overflow
            && events != [] && events[0] == FeedRetired(g)
            && (forall i :: 0 < i < |events| ==> events[i].Blocked?)
  {
    hide DeleteFeedRows, CommitBlocks;
    var n1 := DeleteFeedRows(n, g);
    DeletedRows(n, g);
    BlocksKeepFeeds(env, n1, blocks);
    BlocksAddNoCopy(env, n1, blocks);
    BlockEventsAlone(env, n1, blocks);
  }

  lemma DeletedRows(n: Node, g: Guid)
    ensures var n1 := DeleteFeedRows(n, g);
            && Tables(n1, g) == NO_TABLES
            && (forall h :: h != g ==> Tables(n1, h) == Tables(n, h))
            && (forall u :: (g, u) !in n1.copies)
            && g !in n1.overflow
  {
  }

  lemma {:induction false} BlockEventsAlone(env: Env, n: Node, blocks: seq<(string, Block)>)
    ensures CommitBlocks(env, n, blocks).0.overflow == n.overflow
    ensures forall e :: e in CommitBlocks(env, n, blocks).1 ==> e.Blocked?
  {
    hide BlockIgnored, ClearCopiesOf;
    if blocks != [] {
      BlockEventsAlone(env, n, blocks[..|blocks| - 1]);
    }
  }
}
