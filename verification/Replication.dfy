/**
 The replicated tables of a node, the transactions of the primary with the
 events that each one signs, and the effect of one event on a replica.
 */
module Replication {
  import opened Basics
  import opened FeedTables
  import opened TrackSimulation
  import opened Cooldown
  import O = Ownership

  // ── tables of no single feed ───────────────────────────────────────────

  datatype Observation = Observation(guid: Guid, observedAt: int)

  datatype BlockKind = GuidBlock | UrlBlock
  datatype Block = Block(kind: BlockKind, value: string, reason: string, blockedAt: int)

  datatype Resolution = Resolution(decision: string, reason: string, resolvedAt: int, digest: Value, listDigest: Value)

  /**
   A row of `feed_copies`. The compared columns of its summary begin with the
   summary digest and the digest of the remote items.
   */
  datatype Copy = Copy(firstSeen: int, lastSeen: Option<int>, summary: Row, resolution: Option<Resolution>)

  datatype Node = Node(
    feeds: map<Guid, FeedData>,
    observations: map<Url, Observation>,
    copies: map<(Guid, Url), Copy>,
    overflow: map<Guid, nat>,
    blocks: map<string, Block>,
    supersessions: map<Guid, O.Supersession>)

  const EMPTY_NODE := Node(map[], map[], map[], map[], map[], map[])

  const MAX_COPIES_PER_GUID: nat := 20

  /** The parts of the node that this model leaves open. */
  datatype Env = Env(order: ReadOrder, normalize: (BlockKind, string) -> string)

  function Tables(n: Node, g: Guid): FeedData {
    if g in n.feeds then n.feeds[g] else NO_TABLES
  }

  function UrlOf(n: Node, g: Guid): Option<Url> {
    if Tables(n, g).row.Some? then Some(Tables(n, g).row.value.fields.feedUrl) else None
  }

  /** The `UNIQUE` constraint refuses `url` for the feed `g`. */
  predicate UrlTaken(n: Node, g: Guid, url: Url) {
    exists h :: h in n.feeds && h != g && UrlOf(n, h) == Some(url)
  }

  // ── writers that both nodes use ────────────────────────────────────────

  /** `delete_feed_sql`. */
  function DeleteFeedRows(n: Node, g: Guid): Node {
    n.(feeds := n.feeds - {g},
       copies := map k | k in n.copies && k.0 != g :: n.copies[k],
       overflow := n.overflow - {g})
  }

  function SetFeed(n: Node, g: Guid, ft: FeedData): Node {
    n.(feeds := n.feeds[g := ft])
  }

  predicate BlockIgnored(blocks: map<string, Block>, id: string, b: Block) {
    id in blocks || exists k :: k in blocks && blocks[k].kind == b.kind && blocks[k].value == b.value
  }

  function ClearCopiesOf(copies: map<(Guid, Url), Copy>, u: Url): map<(Guid, Url), Copy> {
    map k | k in copies && k.1 != u :: copies[k]
  }

  /** `INSERT OR IGNORE`; a new URL block clears the copies of its URL. */
  function InsertBlock(env: Env, n: Node, id: string, block: Block): Node {
    var b := block.(value := env.normalize(block.kind, block.value));
    if BlockIgnored(n.blocks, id, b) then n
    else if b.kind == UrlBlock then n.(blocks := n.blocks[id := b], copies := ClearCopiesOf(n.copies, Url(b.value)))
    else n.(blocks := n.blocks[id := b])
  }

  predicate BlockInserted(env: Env, n: Node, id: string, block: Block) {
    !BlockIgnored(n.blocks, id, block.(value := env.normalize(block.kind, block.value)))
  }

  function InsertSupersession(n: Node, oldGuid: Guid, s: O.Supersession): Node {
    if oldGuid in n.supersessions then n else n.(supersessions := n.supersessions[oldGuid := s])
  }

  /** An existing copy keeps its first time, its last time and its resolution. */
  function UpsertCopy(n: Node, k: (Guid, Url), firstSeen: int, summary: Row): Node {
    var copy := if k in n.copies then n.copies[k].(summary := summary) else Copy(firstSeen, None, summary, None);
    n.(copies := n.copies[k := copy])
  }

  function ResolveCopy(n: Node, k: (Guid, Url), r: Resolution): Node {
    if k in n.copies then n.(copies := n.copies[k := n.copies[k].(resolution := Some(r))]) else n
  }

  // ── events ─────────────────────────────────────────────────────────────

  datatype Event =
    | OfFeed(guid: Guid, event: FeedEvent)
    | FeedRetired(guid: Guid)
    | UrlObserved(url: Url, observation: Observation)
    | Blocked(id: string, block: Block)
    | Unblocked(id: string)
    | CopyObserved(key: (Guid, Url), firstSeen: int, summary: Row)
    | CopyResolved(key: (Guid, Url), resolution: Resolution)
    | Superseded(oldGuid: Guid, supersession: O.Supersession)

  /** `apply_single_event_inner`; `None` when the `UNIQUE` constraint fails. */
  function Apply(env: Env, n: Node, e: Event): Option<Node> {
    match e
    case OfFeed(g, fe) =>
      if fe.FeedUpserted? && UrlTaken(n, g, fe.feed.fields.feedUrl) then None
      else Some(SetFeed(n, g, ApplyEvent(Tables(n, g), fe)))
    case FeedRetired(g) => Some(if Tables(n, g).row.Some? then DeleteFeedRows(n, g) else n)
    case UrlObserved(u, o) => Some(n.(observations := n.observations[u := o]))
    case Blocked(id, b) => Some(InsertBlock(env, n, id, b))
    case Unblocked(id) => Some(n.(blocks := n.blocks - {id}))
    case CopyObserved(k, firstSeen, summary) => Some(UpsertCopy(n, k, firstSeen, summary))
    case CopyResolved(k, r) => Some(ResolveCopy(n, k, r))
    case Superseded(g, s) => Some(InsertSupersession(n, g, s))
  }

  function ApplyAll(env: Env, n: Node, events: seq<Event>): Option<Node> {
    if events == [] then Some(n)
    else
      var n1 := ApplyAll(env, n, events[..|events| - 1]);
      if n1.None? then None else Apply(env, n1.value, events[|events| - 1])
  }

  function ForFeed(g: Guid, events: seq<FeedEvent>): (r: seq<Event>)
    ensures |r| == |events|
  {
    seq(|events|, i requires 0 <= i < |events| => OfFeed(g, events[i]))
  }

  // ── transactions of the primary ────────────────────────────────────────

  datatype GuidTransition = GuidTransition(oldGuid: Guid, sourceUrl: Url, now: I64)

  datatype Transaction =
    | Ingest(guid: Guid, body: FeedBody, transition: Option<GuidTransition>, removed: seq<Guid>)
    | Observe(guid: Guid, canonicalUrl: Url, sourceUrl: Url, now: int)
    | ObserveCopy(guid: Guid, url: Url, summary: Row, now: int)
    | Resolve(guid: Guid, url: Url, relocate: bool, reason: string, now: int)
    | Relocate(guid: Guid, url: Url)
    | Retire(guid: Guid, blocks: seq<(string, Block)>)
    | RemoveTrack(guid: Guid, track: Guid)
    | CreateBlock(id: string, block: Block)
    | SeedBlocks(blocks: seq<(string, Block)>)
    | DeleteBlock(id: string)

  /** `guid_change_transition`: the old GUID goes, and a link to the new one stays. */
  function CommitTransition(n: Node, g: Guid, tr: GuidTransition): (Node, seq<Event>) {
    var s := O.Supersession(g, tr.sourceUrl, tr.now);
    (InsertSupersession(DeleteFeedRows(n, tr.oldGuid), tr.oldGuid, s),
     [FeedRetired(tr.oldGuid), Superseded(tr.oldGuid, s)])
  }

  /** The diff reads the tables before the transition changes them. */
  function CommitIngest(env: Env, n: Node, g: Guid, b: FeedBody, tr: Option<GuidTransition>, removed: seq<Guid>): (Node, seq<Event>) {
    var diff := ForFeed(g, DiffEvents(env.order, Tables(n, g), b));
    var (n1, prefix) := if tr.Some? then CommitTransition(n, g, tr.value) else (n, []);
    if UrlTaken(n1, g, b.row.fields.feedUrl) then (n1, prefix)
    else (SetFeed(n1, g, WriteBody(Tables(n1, g), b)), prefix + (diff + ForFeed(g, RemovalEvents(removed))))
  }

  /** The record rule of ADR 0049 section 1. */
  function CommitObservation(n: Node, u: Url, g: Guid, now: int): (Node, seq<Event>) {
    if u in n.observations && n.observations[u].guid == g then (n, [])
    else
      var o := Observation(g, now);
      (n.(observations := n.observations[u := o]), [UrlObserved(u, o)])
  }

  function CommitObservations(n: Node, g: Guid, canonicalUrl: Url, sourceUrl: Url, now: int): (Node, seq<Event>) {
    var first := CommitObservation(n, canonicalUrl, g, now);
    if sourceUrl == canonicalUrl then first
    else
      var second := CommitObservation(first.0, sourceUrl, g, now);
      (second.0, first.1 + second.1)
  }

  function CopiesOf(n: Node, g: Guid): set<(Guid, Url)> {
    set k | k in n.copies && k.0 == g
  }

  function TouchCopy(n: Node, k: (Guid, Url), now: int): Node {
    if k in n.copies then n.(copies := n.copies[k := n.copies[k].(lastSeen := Some(now))]) else n
  }

  function CommitCopy(n: Node, k: (Guid, Url), summary: Row, now: int): (Node, seq<Event>) {
    if k in n.copies then
      var n1 := TouchCopy(n, k, now);
      var copy := n.copies[k];
      if copy.summary.fields == summary.fields then (n1, [])
      else (UpsertCopy(n1, k, copy.firstSeen, summary), [CopyObserved(k, copy.firstSeen, summary)])
    else if |CopiesOf(n, k.0)| >= MAX_COPIES_PER_GUID then
      var count := if k.0 in n.overflow then n.overflow[k.0] else 0;
      (n.(overflow := n.overflow[k.0 := count + 1]), [])
    else (TouchCopy(UpsertCopy(n, k, now, summary), k, now), [CopyObserved(k, now, summary)])
  }

  /** `relocate_feed`; no event when another feed holds the URL. */
  function CommitRelocation(n: Node, g: Guid, url: Url): (Node, seq<Event>) {
    if UrlTaken(n, g, url) || Tables(n, g).row.None? then (n, [])
    else
      var row := Tables(n, g).row.value;
      var moved := row.(fields := row.fields.(feedUrl := url), lastBuildDate := None);
      (SetFeed(n, g, Tables(n, g).(row := Some(moved))), [OfFeed(g, FeedUpserted(moved))])
  }

  function CommitResolution(n: Node, g: Guid, url: Url, relocate: bool, reason: string, now: int): (Node, seq<Event>) {
    if Tables(n, g).row.None? || (g, url) !in n.copies || (relocate && UrlTaken(n, g, url)) then (n, [])
    else
      var (n1, moved) := if relocate then CommitRelocation(n, g, url) else (n, []);
      var summary := n.copies[(g, url)].summary;
      var r := Resolution(if relocate then "relocate" else "keep_source", reason, now,
                          Column(summary.fields, 0), Column(summary.fields, 1));
      (ResolveCopy(n1, (g, url), r), moved + [CopyResolved((g, url), r)])
  }

  /** One event for each block that has no row yet. */
  function CommitBlocks(env: Env, n: Node, blocks: seq<(string, Block)>): (Node, seq<Event>) {
    if blocks == [] then (n, [])
    else
      var (n1, events) := CommitBlocks(env, n, blocks[..|blocks| - 1]);
      var (id, b) := blocks[|blocks| - 1];
      if BlockInserted(env, n1, id, b) then (InsertBlock(env, n1, id, b), events + [Blocked(id, b)])
      else (n1, events)
  }

  function CommitRetirement(env: Env, n: Node, g: Guid, blocks: seq<(string, Block)>): (Node, seq<Event>) {
    var (n1, events) := CommitBlocks(env, DeleteFeedRows(n, g), blocks);
    (n1, [FeedRetired(g)] + events)
  }

  function CommitNewBlock(env: Env, n: Node, id: string, block: Block): (Node, seq<Event>) {
    var b := block.(value := env.normalize(block.kind, block.value));
    var stored := env.normalize(b.kind, b.value);
    if exists k :: k in n.blocks && n.blocks[k].kind == b.kind && n.blocks[k].value == stored then (n, [])
    else (InsertBlock(env, n, id, b), [Blocked(id, b)])
  }

  /** The state after a transaction, and the events that it appends to the log. */
  function Commit(env: Env, n: Node, t: Transaction): (Node, seq<Event>) {
    match t
    case Ingest(g, b, tr, removed) => CommitIngest(env, n, g, b, tr, removed)
    case Observe(g, canonicalUrl, sourceUrl, now) => CommitObservations(n, g, canonicalUrl, sourceUrl, now)
    case ObserveCopy(g, u, summary, now) => CommitCopy(n, (g, u), summary, now)
    case Resolve(g, u, relocate, reason, now) => CommitResolution(n, g, u, relocate, reason, now)
    case Relocate(g, u) => CommitRelocation(n, g, u)
    case Retire(g, blocks) => CommitRetirement(env, n, g, blocks)
    case RemoveTrack(g, track) =>
      (SetFeed(n, g, RemoveTracks(Tables(n, g), {track})), [OfFeed(g, TrackRemoved(track))])
    case CreateBlock(id, b) => CommitNewBlock(env, n, id, b)
    case SeedBlocks(blocks) => CommitBlocks(env, n, blocks)
    case DeleteBlock(id) => if id in n.blocks then (n.(blocks := n.blocks - {id}), [Unblocked(id)]) else (n, [])
  }

  /**
   What the routes look up before they begin: a retired feed and a removed track
   exist, and a transition retires another record than the one it admits. An
   ingest removes the tracks that its body lacks, in any order.
   */
  predicate Permitted(n: Node, t: Transaction) {
    match t
    case Ingest(g, b, tr, removed) =>
      && (tr.Some? ==> tr.value.oldGuid != g && Tables(n, tr.value.oldGuid).row.Some?)
      && (set x | x in removed) == StaleTracks(Tables(n, g), b)
    case Retire(g, _) => Tables(n, g).row.Some?
    case RemoveTrack(g, track) => track in Tables(n, g).tracks
    case _ => true
  }

  /** The submitted tracks of an ingest settle, or its URL is refused. */
  predicate Settles(env: Env, n: Node, t: Transaction) {
    match t
    case Ingest(g, b, tr, _) =>
      var n1 := if tr.Some? then CommitTransition(n, g, tr.value).0 else n;
      UrlTaken(n1, g, b.row.fields.feedUrl) || TracksSettle(env.order, Tables(n, g), b.tracks)
    case _ => true
  }

  // ── agreement ──────────────────────────────────────────────────────────

  /** The columns of a copy that every node holds. */
  function ShownCopy(n: Node, k: (Guid, Url)): Option<Copy> {
    if k in n.copies then Some(n.copies[k].(lastSeen := None)) else None
  }

  ghost predicate NodesAgree(p: Node, r: Node) {
    && (forall g :: Agree(Tables(p, g), Tables(r, g)))
    && (forall k :: ShownCopy(p, k) == ShownCopy(r, k))
    && p.observations == r.observations
    && p.blocks == r.blocks
    && p.supersessions == r.supersessions
  }

  ghost predicate Sound(n: Node) {
    forall g :: WellFormed(Tables(n, g))
  }

  // ── runs ───────────────────────────────────────────────────────────────

  /** The state of the primary and its event log after `ts`, from an empty database. */
  function After(env: Env, ts: seq<Transaction>): (Node, seq<Event>) {
    if ts == [] then (EMPTY_NODE, [])
    else
      var (n, log) := After(env, ts[..|ts| - 1]);
      var (n', events) := Commit(env, n, ts[|ts| - 1]);
      (n', log + events)
  }
}
