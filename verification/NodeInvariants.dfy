/**
 What the tables of a node keep in every run: one feed for each URL, one row for
 each blocked value, and a limit on the copies of a feed. A replica counts no
 copies and looks up no pair, and it keeps the same limits.
 */
module NodeInvariants {
  import opened Basics
  import opened FeedTables
  import opened Replication
  import opened NodeSimulation
  import Sequences

  ghost predicate UrlsUnique(n: Node) {
    forall g, h :: UrlOf(n, g).Some? && UrlOf(n, g) == UrlOf(n, h) ==> g == h
  }

  ghost predicate CopiesBounded(n: Node) {
    forall g :: |CopiesOf(n, g)| <= MAX_COPIES_PER_GUID
  }

  function Pair(b: Block): (BlockKind, string) {
    (b.kind, b.value)
  }

  ghost predicate BlocksUnique(n: Node) {
    forall i, j :: i in n.blocks && j in n.blocks && Pair(n.blocks[i]) == Pair(n.blocks[j]) ==> i == j
  }

  ghost predicate Limits(n: Node) {
    UrlsUnique(n) && CopiesBounded(n) && BlocksUnique(n)
  }

  // ── one feed for each URL ──────────────────────────────────────────────

  lemma DeletedUrls(n: Node, g: Guid)
    requires UrlsUnique(n)
    ensures UrlsUnique(DeleteFeedRows(n, g))
  {
    forall h
      ensures UrlOf(DeleteFeedRows(n, g), h) == if h == g then None else UrlOf(n, h)
    {
    }
  }

  lemma SetUrls(n: Node, g: Guid, ft: FeedData)
    requires UrlsUnique(n)
    requires ft.row.Some? ==> !UrlTaken(n, g, ft.row.value.fields.feedUrl) || UrlOf(n, g) == Some(ft.row.value.fields.feedUrl)
    ensures UrlsUnique(SetFeed(n, g, ft))
  {
    forall h
      ensures UrlOf(SetFeed(n, g, ft), h) ==
              if h != g then UrlOf(n, h) else if ft.row.Some? then Some(ft.row.value.fields.feedUrl) else None
    {
    }
    if ft.row.Some? {
      TakenElsewhere(n, g, ft.row.value.fields.feedUrl);
    }
  }

  lemma SameFeedsSameUrls(n: Node, n': Node)
    requires UrlsUnique(n) && n'.feeds == n.feeds
    ensures UrlsUnique(n')
  {
    assert forall h :: UrlOf(n', h) == UrlOf(n, h);
  }

  lemma WrittenUrl(ft: FeedData, b: FeedBody)
    ensures WriteBody(ft, b).row == Some(b.row)
  {
    TracksKeepTheRow(WriteSections(ft.(row := Some(b.row)), b), b.tracks);
  }

  lemma {:induction false} TracksKeepTheRow(ft: FeedData, bundles: seq<TrackBundle>)
    ensures WriteTracks(ft, bundles).row == ft.row
  {
    if bundles != [] {
      TracksKeepTheRow(ft, bundles[..|bundles| - 1]);
    }
  }

  lemma IngestUrls(env: Env, n: Node, t: Transaction)
    requires UrlsUnique(n) && t.Ingest?
    ensures UrlsUnique(Commit(env, n, t).0)
  {
    hide UrlsUnique, WriteBody, UrlTaken, DeleteFeedRows, SetFeed, DiffEvents;
    var n1 := if t.transition.Some? then CommitTransition(n, t.guid, t.transition.value).0 else n;
    if t.transition.Some? {
      DeletedUrls(n, t.transition.value.oldGuid);
      SameFeedsSameUrls(DeleteFeedRows(n, t.transition.value.oldGuid), n1);
    }
    if !UrlTaken(n1, t.guid, t.body.row.fields.feedUrl) {
      WrittenUrl(Tables(n1, t.guid), t.body);
      SetUrls(n1, t.guid, WriteBody(Tables(n1, t.guid), t.body));
    }
  }

  lemma MovedUrls(n: Node, g: Guid, url: Url)
    requires UrlsUnique(n)
    ensures UrlsUnique(CommitRelocation(n, g, url).0)
  {
    hide UrlsUnique, UrlTaken, SetFeed;
    var (n', events) := CommitRelocation(n, g, url);
    if events != [] {
      SetUrls(n, g, Tables(n, g).(row := Some(events[0].event.feed)));
    }
  }

  lemma ResolutionFeeds(n: Node, g: Guid, url: Url, relocate: bool, reason: string, now: int)
    ensures var n' := CommitResolution(n, g, url, relocate, reason, now).0;
            n'.feeds == n.feeds || n'.feeds == CommitRelocation(n, g, url).0.feeds
  {
    hide CommitRelocation, UrlTaken;
  }

  lemma CommitUrls(env: Env, n: Node, t: Transaction)
    requires UrlsUnique(n)
    ensures UrlsUnique(Commit(env, n, t).0)
  {
    hide UrlsUnique, CommitIngest, CommitRelocation, CommitObservations, CommitCopy, CommitBlocks, CommitNewBlock, SetFeed,
         DeleteFeedRows;
    if t.Ingest? {
      IngestUrls(env, n, t);
    } else if TouchesNoFeed(t) {
      FeedsStay(env, n, t);
      SameFeedsSameUrls(n, Commit(env, n, t).0);
    } else if t.Relocate? {
      MovedUrls(n, t.guid, t.url);
    } else if t.Resolve? {
      ResolutionFeeds(n, t.guid, t.url, t.relocate, t.reason, t.now);
      MovedUrls(n, t.guid, t.url);
      SameFeedsSameUrls(if Commit(env, n, t).0.feeds == n.feeds then n else CommitRelocation(n, t.guid, t.url).0, Commit(env, n, t).0);
    } else if t.RemoveTrack? {
      SetUrls(n, t.guid, RemoveTracks(Tables(n, t.guid), {t.track}));
    } else {
      DeletedUrls(n, t.guid);
      BlocksKeepFeeds(env, DeleteFeedRows(n, t.guid), t.blocks);
      SameFeedsSameUrls(DeleteFeedRows(n, t.guid), Commit(env, n, t).0);
    }
  }

  // ── a limit on copies ──────────────────────────────────────────────────

  lemma FewerCopies(n: Node, n': Node, g: Guid)
    requires n'.copies.Keys <= n.copies.Keys
    ensures |CopiesOf(n', g)| <= |CopiesOf(n, g)|
  {
    Sequences.SubsetSize(CopiesOf(n', g), CopiesOf(n, g));
  }

  lemma {:induction false} BlocksAddNoCopy(env: Env, n: Node, blocks: seq<(string, Block)>)
    ensures CommitBlocks(env, n, blocks).0.copies.Keys <= n.copies.Keys
  {
    hide BlockIgnored;
    if blocks != [] {
      BlocksAddNoCopy(env, n, blocks[..|blocks| - 1]);
      var n1 := CommitBlocks(env, n, blocks[..|blocks| - 1]).0;
      BlockParts(env, n1, blocks[|blocks| - 1].0, blocks[|blocks| - 1].1);
    }
  }

  /** A delete of feed rows removes copies, and leaves the blocks. */
  lemma DeletedParts(n: Node, g: Guid)
    ensures DeleteFeedRows(n, g).copies.Keys <= n.copies.Keys && DeleteFeedRows(n, g).blocks == n.blocks
  {
  }

  lemma IngestParts(env: Env, n: Node, g: Guid, b: FeedBody, tr: Option<GuidTransition>, removed: seq<Guid>)
    ensures var n' := CommitIngest(env, n, g, b, tr, removed).0;
            n'.copies.Keys <= n.copies.Keys && n'.blocks == n.blocks
  {
    hide UrlTaken, WriteBody, DiffEvents, DeleteFeedRows, ForFeed;
    if tr.Some? {
      DeletedParts(n, tr.value.oldGuid);
    }
  }

  lemma ObservationParts(n: Node, u: Url, g: Guid, now: int)
    ensures var n' := CommitObservation(n, u, g, now).0;
            n'.copies == n.copies && n'.blocks == n.blocks
  {
  }

  lemma RelocationParts(n: Node, g: Guid, url: Url)
    ensures var n' := CommitRelocation(n, g, url).0;
            n'.copies == n.copies && n'.blocks == n.blocks
  {
    hide UrlTaken;
  }

  lemma ResolutionParts(n: Node, g: Guid, url: Url, relocate: bool, reason: string, now: int)
    ensures var n' := CommitResolution(n, g, url, relocate, reason, now).0;
            n'.copies.Keys <= n.copies.Keys && n'.blocks == n.blocks
  {
    hide UrlTaken, CommitRelocation;
    RelocationParts(n, g, url);
  }

  lemma BlockAddsNoCopy(env: Env, n: Node, id: string, block: Block)
    ensures InsertBlock(env, n, id, block).copies.Keys <= n.copies.Keys
  {
    hide BlockIgnored;
    BlockParts(env, n, id, block);
  }

  /** No transaction but a mirror submission adds a copy. */
  lemma OthersAddNoCopy(env: Env, n: Node, t: Transaction)
    requires !t.ObserveCopy?
    ensures Commit(env, n, t).0.copies.Keys <= n.copies.Keys
  {
    hide CommitIngest, CommitObservation, CommitRelocation, CommitResolution, InsertBlock, CommitBlocks, RemoveTracks,
         DeleteFeedRows, CommitCopy, ClearCopiesOf, BlockIgnored;
    match t
    case Ingest(g, b, tr, removed) => IngestParts(env, n, g, b, tr, removed);
    case Observe(g, canonicalUrl, sourceUrl, now) =>
      ObservationParts(n, canonicalUrl, g, now);
      ObservationParts(CommitObservation(n, canonicalUrl, g, now).0, sourceUrl, g, now);
    case Resolve(g, u, relocate, reason, now) => ResolutionParts(n, g, u, relocate, reason, now);
    case Relocate(g, u) => RelocationParts(n, g, u);
    case Retire(g, blocks) =>
      DeletedParts(n, g);
      BlocksAddNoCopy(env, DeleteFeedRows(n, g), blocks);
    case SeedBlocks(blocks) => BlocksAddNoCopy(env, n, blocks);
    case CreateBlock(id, b) => BlockAddsNoCopy(env, n, id, b.(value := env.normalize(b.kind, b.value)));
    case _ =>
  }

  lemma WrittenKeys(n: Node, k: (Guid, Url), firstSeen: int, summary: Row, now: int)
    ensures UpsertCopy(n, k, firstSeen, summary).copies.Keys == n.copies.Keys + {k}
    ensures TouchCopy(n, k, now).copies.Keys == n.copies.Keys
  {
  }

  lemma CopyKeys(n: Node, k: (Guid, Url), summary: Row, now: int)
    ensures var n' := CommitCopy(n, k, summary, now).0;
            || n'.copies.Keys == n.copies.Keys
            || (|CopiesOf(n, k.0)| < MAX_COPIES_PER_GUID && n'.copies.Keys == n.copies.Keys + {k})
  {
    hide CopiesOf, UpsertCopy, TouchCopy;
    var firstSeen := if k in n.copies then n.copies[k].firstSeen else now;
    WrittenKeys(n, k, firstSeen, summary, now);
    WrittenKeys(TouchCopy(n, k, now), k, firstSeen, summary, now);
    WrittenKeys(UpsertCopy(n, k, firstSeen, summary), k, firstSeen, summary, now);
  }

  /** A new copy needs room among the copies of its GUID. */
  lemma CopyBounded(n: Node, k: (Guid, Url), summary: Row, now: int, g: Guid)
    requires |CopiesOf(n, g)| <= MAX_COPIES_PER_GUID
    ensures |CopiesOf(CommitCopy(n, k, summary, now).0, g)| <= MAX_COPIES_PER_GUID
  {
    hide CommitCopy, CopiesOf;
    var n' := CommitCopy(n, k, summary, now).0;
    CopyKeys(n, k, summary, now);
    if n'.copies.Keys == n.copies.Keys {
      FewerCopies(n, n', g);
    } else {
      OneMoreCopy(n, n', k, g);
    }
  }

  lemma OneMoreCopy(n: Node, n': Node, k: (Guid, Url), g: Guid)
    requires n'.copies.Keys == n.copies.Keys + {k}
    ensures |CopiesOf(n', g)| <= |CopiesOf(n, g)| + if g == k.0 then 1 else 0
  {
    var extra := if g == k.0 then {k} else {};
    assert CopiesOf(n', g) <= CopiesOf(n, g) + extra;
    Sequences.SubsetSize(CopiesOf(n', g), CopiesOf(n, g) + extra);
  }

  lemma CommitCopies(env: Env, n: Node, t: Transaction)
    requires CopiesBounded(n)
    ensures CopiesBounded(Commit(env, n, t).0)
  {
    hide CommitIngest, CommitRelocation, CommitObservations, CommitCopy, CommitBlocks, CommitNewBlock, CommitResolution,
         CommitRetirement, CopiesOf, SetFeed;
    forall g
      ensures |CopiesOf(Commit(env, n, t).0, g)| <= MAX_COPIES_PER_GUID
    {
      assert |CopiesOf(n, g)| <= MAX_COPIES_PER_GUID;
      if t.ObserveCopy? {
        CopyBounded(n, (t.guid, t.url), t.summary, t.now, g);
      } else {
        OthersAddNoCopy(env, n, t);
        FewerCopies(n, Commit(env, n, t).0, g);
      }
    }
  }

  // ── one row for each blocked value ─────────────────────────────────────

  lemma InsertUnique(env: Env, n: Node, id: string, block: Block)
    requires BlocksUnique(n)
    ensures BlocksUnique(InsertBlock(env, n, id, block))
  {
    BlockParts(env, n, id, block);
  }

  lemma {:induction false} BlocksStayUnique(env: Env, n: Node, blocks: seq<(string, Block)>)
    requires BlocksUnique(n)
    ensures BlocksUnique(CommitBlocks(env, n, blocks).0)
  {
    hide BlocksUnique, InsertBlock, BlockInserted;
    if blocks != [] {
      BlocksStayUnique(env, n, blocks[..|blocks| - 1]);
      var n1 := CommitBlocks(env, n, blocks[..|blocks| - 1]).0;
      InsertUnique(env, n1, blocks[|blocks| - 1].0, blocks[|blocks| - 1].1);
    }
  }

  /** Transactions that name no block leave the blocks. */
  lemma OthersKeepBlocks(env: Env, n: Node, t: Transaction)
    requires !t.Retire? && !t.SeedBlocks? && !t.CreateBlock? && !t.DeleteBlock?
    ensures Commit(env, n, t).0.blocks == n.blocks
  {
    hide CommitIngest, CommitObservation, CommitRelocation, CommitResolution, RemoveTracks, CommitCopy;
    match t
    case Ingest(g, b, tr, removed) => IngestParts(env, n, g, b, tr, removed);
    case Observe(g, canonicalUrl, sourceUrl, now) =>
      ObservationParts(n, canonicalUrl, g, now);
      ObservationParts(CommitObservation(n, canonicalUrl, g, now).0, sourceUrl, g, now);
    case ObserveCopy(g, u, summary, now) => CopyParts(n, (g, u), summary, now, (g, u));
    case Resolve(g, u, relocate, reason, now) => ResolutionParts(n, g, u, relocate, reason, now);
    case Relocate(g, u) => RelocationParts(n, g, u);
    case RemoveTrack(_, _) =>
  }

  lemma CommitBlocksUnique(env: Env, n: Node, t: Transaction)
    requires BlocksUnique(n)
    ensures BlocksUnique(Commit(env, n, t).0)
  {
    hide CommitIngest, CommitRelocation, CommitObservations, CommitCopy, CommitBlocks, CommitResolution, InsertBlock;
    match t
    case Retire(g, blocks) => BlocksStayUnique(env, DeleteFeedRows(n, g), blocks);
    case SeedBlocks(blocks) => BlocksStayUnique(env, n, blocks);
    case CreateBlock(id, b) => InsertUnique(env, n, id, b.(value := env.normalize(b.kind, b.value)));
    case DeleteBlock(id) =>
    case _ => OthersKeepBlocks(env, n, t);
  }

  // ── runs ───────────────────────────────────────────────────────────────

  /** The primary keeps the limits in each run, also where tracks do not settle. */
  lemma {:induction false} PrimaryKeepsLimits(env: Env, ts: seq<Transaction>)
    ensures Limits(After(env, ts).0)
  {
    hide Commit, UrlsUnique, CopiesBounded, BlocksUnique;
    if ts == [] {
      EmptyKeepsLimits();
    } else {
      PrimaryKeepsLimits(env, ts[..|ts| - 1]);
      var n := After(env, ts[..|ts| - 1]).0;
      CommitUrls(env, n, ts[|ts| - 1]);
      CommitCopies(env, n, ts[|ts| - 1]);
      CommitBlocksUnique(env, n, ts[|ts| - 1]);
    }
  }

  lemma EmptyKeepsLimits()
    ensures Limits(EMPTY_NODE)
  {
    forall g
      ensures CopiesOf(EMPTY_NODE, g) == {}
    {
    }
  }

  /** A replica that agrees with the primary keeps its limits. */
  lemma AgreementKeepsLimits(p: Node, r: Node)
    requires NodesAgree(p, r) && Limits(p)
    ensures Limits(r)
  {
    hide Agree;
    forall g
      ensures UrlOf(p, g) == UrlOf(r, g)
      ensures |CopiesOf(r, g)| <= MAX_COPIES_PER_GUID
    {
      AgreedUrl(p, r, g);
      forall k
        ensures k in r.copies <==> k in p.copies
      {
        assert ShownCopy(p, k) == ShownCopy(r, k);
      }
      assert CopiesOf(r, g) == CopiesOf(p, g);
    }
  }

  lemma AgreedUrl(p: Node, r: Node, g: Guid)
    requires NodesAgree(p, r)
    ensures UrlOf(p, g) == UrlOf(r, g)
  {
    assert Agree(Tables(p, g), Tables(r, g));
  }

  /** A node rebuilt from the log keeps the limits, though it never checks the one on copies. */
  lemma ReplicaKeepsLimits(env: Env, ts: seq<Transaction>)
    requires ReadsAll(env.order) && Admissible(env, ts)
    ensures var rebuilt := ApplyAll(env, EMPTY_NODE, After(env, ts).1);
            rebuilt.Some? && Limits(rebuilt.value)
  {
    hide NodesAgree, ApplyAll, ReadsAll, Admissible, Limits, After;
    LogRebuildsThePrimary(env, ts);
    PrimaryKeepsLimits(env, ts);
    AgreementKeepsLimits(After(env, ts).0, ApplyAll(env, EMPTY_NODE, After(env, ts).1).value);
  }

  // ── what a URL block clears ────────────────────────────────────────────

  /** A new URL block clears the copies of its URL, and no other; an ignored one clears none. */
  lemma BlockClearsItsCopies(env: Env, n: Node, id: string, block: Block, k: (Guid, Url))
    ensures var b := block.(value := env.normalize(block.kind, block.value));
            k in InsertBlock(env, n, id, block).copies <==>
            k in n.copies && !(BlockInserted(env, n, id, block) && b.kind == UrlBlock && k.1 == Url(b.value))
  {
    hide BlockIgnored;
    BlockParts(env, n, id, block);
  }

  // ── links of old GUIDs ─────────────────────────────────────────────────

  lemma IngestKeepsLinks(env: Env, n: Node, g: Guid, b: FeedBody, tr: Option<GuidTransition>, removed: seq<Guid>, gone: Guid)
    requires gone in n.supersessions
    ensures var n' := CommitIngest(env, n, g, b, tr, removed).0;
            gone in n'.supersessions && n'.supersessions[gone] == n.supersessions[gone]
  {
    hide UrlTaken, WriteBody, DiffEvents, ForFeed, StaleTracks;
  }

  lemma ResolutionKeepsLinks(n: Node, g: Guid, url: Url, relocate: bool, reason: string, now: int)
    ensures CommitRelocation(n, g, url).0.supersessions == n.supersessions
    ensures CommitResolution(n, g, url, relocate, reason, now).0.supersessions == n.supersessions
  {
    hide UrlTaken;
  }

  lemma {:induction false} BlocksKeepLinks(env: Env, n: Node, blocks: seq<(string, Block)>)
    ensures CommitBlocks(env, n, blocks).0.supersessions == n.supersessions
  {
    hide BlockIgnored, ClearCopiesOf;
    if blocks != [] {
      BlocksKeepLinks(env, n, blocks[..|blocks| - 1]);
      var n1 := CommitBlocks(env, n, blocks[..|blocks| - 1]).0;
      BlockParts(env, n1, blocks[|blocks| - 1].0, blocks[|blocks| - 1].1);
    }
  }

  /** The link of a superseded GUID never changes: the first transition of a GUID decides it. */
  lemma LinkStays(env: Env, n: Node, t: Transaction, g: Guid)
    requires g in n.supersessions
    ensures var n' := Commit(env, n, t).0;
            g in n'.supersessions && n'.supersessions[g] == n.supersessions[g]
  {
    hide CommitIngest, CommitRelocation, CommitResolution, CommitBlocks, InsertBlock, RemoveTracks, CommitCopy, ClearCopiesOf;
    match t
    case Ingest(h, b, tr, removed) => IngestKeepsLinks(env, n, h, b, tr, removed, g);
    case ObserveCopy(h, u, summary, now) => CopyParts(n, (h, u), summary, now, (h, u));
    case Resolve(h, u, relocate, reason, now) => ResolutionKeepsLinks(n, h, u, relocate, reason, now);
    case Relocate(h, u) => ResolutionKeepsLinks(n, h, u, true, "", 0);
    case Retire(h, blocks) => BlocksKeepLinks(env, DeleteFeedRows(n, h), blocks);
    case SeedBlocks(blocks) => BlocksKeepLinks(env, n, blocks);
    case CreateBlock(id, b) => BlockParts(env, n, id, b.(value := env.normalize(b.kind, b.value)));
    case _ =>
  }
}
