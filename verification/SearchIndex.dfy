/**
 The full-text index and its companion table, as the writers of feeds and tracks
 keep them. A row has the hash of its entity as its rowid.
 */
module SearchIndex {
  import opened Basics

  // ── the catalog ────────────────────────────────────────────────────────

  datatype CatalogFeed = CatalogFeed(
    medium: Option<string>, releaseArtist: Option<string>, title: string, description: Option<string>)

  datatype CatalogTrack = CatalogTrack(artist: Option<string>, title: string, description: Option<string>)

  datatype Catalog = Catalog(feeds: map<Guid, CatalogFeed>, tracks: map<Guid, map<Guid, CatalogTrack>>)

  /** The tracks of one feed, by track GUID. */
  function TracksOf(c: Catalog, g: Guid): map<Guid, CatalogTrack> {
    if g in c.tracks then c.tracks[g] else map[]
  }

  // ── media ──────────────────────────────────────────────────────────────

  predicate IsMusic(medium: Option<string>) {
    medium.Some? && EqIgnoreAsciiCase(medium.value, "music")
  }

  predicate IsPublisher(medium: Option<string>) {
    medium.Some? && EqIgnoreAsciiCase(medium.value, "publisher")
  }

  // ── the index ──────────────────────────────────────────────────────────

  /** An entity type with its entity ID. */
  datatype Entity = FeedEntity(guid: Guid) | PublisherEntity(guid: Guid) | TrackEntity(guid: Guid, track: Guid)

  datatype Texts = Texts(name: string, title: string, description: string)

  /** `fts` is `search_index` and `entities` is `search_entities`. */
  datatype Index = Index(fts: map<int, Texts>, entities: map<int, Entity>)

  const EMPTY_INDEX := Index(map[], map[])

  type RowidFor = Entity -> int
  type Listing = map<Guid, CatalogTrack> -> seq<Guid>

  /** The hash, the truncation of a text, and the order of a query of tracks. */
  datatype Env = Env(rowidFor: RowidFor, truncate: string -> string, listing: Listing)

  /** The query of the tracks of a feed returns each of them. */
  ghost predicate ListsAll(env: Env) {
    forall m: map<Guid, CatalogTrack>, t: Guid :: t in env.listing(m) <==> t in m
  }

  function Truncated(env: Env, t: Texts): Texts {
    Texts(env.truncate(t.name), env.truncate(t.title), env.truncate(t.description))
  }

  /** `populate_search_index`: a rowid of another entity is left alone. */
  function Populate(env: Env, x: Index, e: Entity, t: Texts): Index {
    var rowid := env.rowidFor(e);
    if rowid in x.entities && x.entities[rowid] != e then x
    else Index(x.fts[rowid := Truncated(env, t)], x.entities[rowid := e])
  }

  /** `delete_from_search_index`: the rowid goes, whichever entity it holds. */
  function Remove(env: Env, x: Index, e: Entity): Index {
    var rowid := env.rowidFor(e);
    Index(if rowid in x.entities then x.fts - {rowid} else x.fts, x.entities - {rowid})
  }

  function SetEntity(env: Env, x: Index, e: Entity, text: Option<Texts>): Index {
    if text.Some? then Populate(env, x, e, text.value) else Remove(env, x, e)
  }

  // ── what a feed and a track give ───────────────────────────────────────

  function OrEmpty(s: Option<string>): string {
    if s.Some? then s.value else ""
  }

  function FeedTexts(f: CatalogFeed): Texts {
    Texts(OrEmpty(f.releaseArtist), f.title, OrEmpty(f.description))
  }

  function FeedText(f: CatalogFeed): Option<Texts> {
    if IsMusic(f.medium) then Some(FeedTexts(f)) else None
  }

  function PublisherText(f: CatalogFeed): Option<Texts> {
    if IsPublisher(f.medium) then Some(FeedTexts(f)) else None
  }

  function TrackText(f: CatalogFeed, t: CatalogTrack): Option<Texts> {
    if IsMusic(f.medium) then Some(Texts(OrEmpty(t.artist), t.title, OrEmpty(t.description))) else None
  }

  /** The simple function of the catalog that the index has to agree with. */
  function Expected(c: Catalog, e: Entity): Option<Texts> {
    if e.guid !in c.feeds then None
    else
      var f := c.feeds[e.guid];
      match e
      case FeedEntity(_) => FeedText(f)
      case PublisherEntity(_) => PublisherText(f)
      case TrackEntity(g, t) => if t in TracksOf(c, g) then TrackText(f, TracksOf(c, g)[t]) else None
  }

  // ── the writers ────────────────────────────────────────────────────────

  function SyncTracks(env: Env, x: Index, g: Guid, f: CatalogFeed, tracks: map<Guid, CatalogTrack>, listed: seq<Guid>): Index {
    if listed == [] then x
    else
      var n := |listed| - 1;
      var x1 := SyncTracks(env, x, g, f, tracks, listed[..n]);
      if listed[n] in tracks
      then SetEntity(env, x1, TrackEntity(g, listed[n]), TrackText(f, tracks[listed[n]]))
      else x1
  }

  /** `sync_source_read_models_for_feed`. */
  function SyncFeed(env: Env, c: Catalog, x: Index, g: Guid): Index {
    if g !in c.feeds then x
    else
      var f := c.feeds[g];
      var x1 := SetEntity(env, x, FeedEntity(g), FeedText(f));
      var x2 := SetEntity(env, x1, PublisherEntity(g), PublisherText(f));
      SyncTracks(env, x2, g, f, TracksOf(c, g), env.listing(TracksOf(c, g)))
  }

  function RemoveTracks(env: Env, x: Index, g: Guid, listed: seq<Guid>): Index {
    if listed == [] then x
    else Remove(env, RemoveTracks(env, x, g, listed[..|listed| - 1]), TrackEntity(g, listed[|listed| - 1]))
  }

  datatype Search = Search(catalog: Catalog, index: Index)

  const EMPTY_SEARCH := Search(Catalog(map[], map[]), EMPTY_INDEX)

  function PutFeed(c: Catalog, g: Guid, f: CatalogFeed): Catalog {
    c.(feeds := c.feeds[g := f])
  }

  function PutTracks(c: Catalog, g: Guid, tracks: map<Guid, CatalogTrack>): Catalog {
    c.(tracks := c.tracks[g := tracks])
  }

  function DropFeed(c: Catalog, g: Guid): Catalog {
    Catalog(c.feeds - {g}, c.tracks - {g})
  }

  datatype Action =
    | Ingest(guid: Guid, feed: CatalogFeed, tracks: map<Guid, CatalogTrack>, stale: seq<Guid>)
    | ApplyFeed(guid: Guid, feed: CatalogFeed)
    | ApplyTrack(guid: Guid, track: Guid, row: CatalogTrack)
    | DeleteTrack(guid: Guid, track: Guid)
    | DeleteFeed(guid: Guid)

  /** The stale tracks are those that the feed holds and the submission does not. */
  ghost predicate Permitted(s: Search, a: Action) {
    a.Ingest? ==> forall t :: t in a.stale <==> t in TracksOf(s.catalog, a.guid) && t !in a.tracks
  }

  /** One writer transaction: the tables, and the index beside them. */
  function Next(env: Env, s: Search, a: Action): Search {
    match a
    case Ingest(g, f, tracks, stale) =>
      var c := PutTracks(PutFeed(s.catalog, g, f), g, tracks);
      Search(c, SyncFeed(env, c, RemoveTracks(env, s.index, g, stale), g))
    case ApplyFeed(g, f) =>
      var c := PutFeed(s.catalog, g, f);
      Search(c, SyncFeed(env, c, s.index, g))
    case ApplyTrack(g, t, row) =>
      var c := PutTracks(s.catalog, g, TracksOf(s.catalog, g)[t := row]);
      Search(c, SyncFeed(env, c, s.index, g))
    case DeleteTrack(g, t) =>
      Search(PutTracks(s.catalog, g, TracksOf(s.catalog, g) - {t}), Remove(env, s.index, TrackEntity(g, t)))
    case DeleteFeed(g) =>
      var x := Remove(env, Remove(env, s.index, FeedEntity(g)), PublisherEntity(g));
      Search(DropFeed(s.catalog, g), RemoveTracks(env, x, g, env.listing(TracksOf(s.catalog, g))))
  }

  // ── at all times ───────────────────────────────────────────────────────

  /** Both tables hold the same rowids, and each row is at the hash of its entity. */
  ghost predicate Consistent(env: Env, x: Index) {
    && x.fts.Keys == x.entities.Keys
    && forall id :: id in x.entities ==> env.rowidFor(x.entities[id]) == id
  }

  lemma SetKeepsConsistent(env: Env, x: Index, e: Entity, text: Option<Texts>)
    requires Consistent(env, x)
    ensures Consistent(env, SetEntity(env, x, e, text))
  {
  }

  lemma {:induction false} SyncTracksConsistent(env: Env, x: Index, g: Guid, f: CatalogFeed, tracks: map<Guid, CatalogTrack>, listed: seq<Guid>)
    requires Consistent(env, x)
    ensures Consistent(env, SyncTracks(env, x, g, f, tracks, listed))
  {
    hide SetEntity, Consistent, TrackText;
    if listed != [] {
      var n := |listed| - 1;
      SyncTracksConsistent(env, x, g, f, tracks, listed[..n]);
      if listed[n] in tracks {
        SetKeepsConsistent(env, SyncTracks(env, x, g, f, tracks, listed[..n]), TrackEntity(g, listed[n]), TrackText(f, tracks[listed[n]]));
      }
    }
  }

  lemma {:induction false} RemoveTracksConsistent(env: Env, x: Index, g: Guid, listed: seq<Guid>)
    requires Consistent(env, x)
    ensures Consistent(env, RemoveTracks(env, x, g, listed))
  {
    if listed != [] {
      RemoveTracksConsistent(env, x, g, listed[..|listed| - 1]);
    }
  }

  lemma SyncFeedConsistent(env: Env, c: Catalog, x: Index, g: Guid)
    requires Consistent(env, x)
    ensures Consistent(env, SyncFeed(env, c, x, g))
  {
    hide SetEntity, Consistent, FeedText, PublisherText, SyncTracks;
    if g in c.feeds {
      var f := c.feeds[g];
      var x1 := SetEntity(env, x, FeedEntity(g), FeedText(f));
      var x2 := SetEntity(env, x1, PublisherEntity(g), PublisherText(f));
      SetKeepsConsistent(env, x, FeedEntity(g), FeedText(f));
      SetKeepsConsistent(env, x1, PublisherEntity(g), PublisherText(f));
      SyncTracksConsistent(env, x2, g, f, TracksOf(c, g), env.listing(TracksOf(c, g)));
    }
  }

  lemma NextConsistent(env: Env, s: Search, a: Action)
    requires Consistent(env, s.index)
    ensures Consistent(env, Next(env, s, a).index)
  {
    hide Consistent, SyncFeed, RemoveTracks;
    match a
    case Ingest(g, f, tracks, stale) =>
      RemoveTracksConsistent(env, s.index, g, stale);
      SyncFeedConsistent(env, PutTracks(PutFeed(s.catalog, g, f), g, tracks), RemoveTracks(env, s.index, g, stale), g);
    case ApplyFeed(g, f) => SyncFeedConsistent(env, PutFeed(s.catalog, g, f), s.index, g);
    case ApplyTrack(g, t, row) =>
      SyncFeedConsistent(env, PutTracks(s.catalog, g, TracksOf(s.catalog, g)[t := row]), s.index, g);
    case DeleteTrack(g, t) => SetKeepsConsistent(env, s.index, TrackEntity(g, t), None);
    case DeleteFeed(g) =>
      var x1 := Remove(env, s.index, FeedEntity(g));
      SetKeepsConsistent(env, s.index, FeedEntity(g), None);
      SetKeepsConsistent(env, x1, PublisherEntity(g), None);
      RemoveTracksConsistent(env, Remove(env, x1, PublisherEntity(g)), g, env.listing(TracksOf(s.catalog, g)));
  }

  // ── with no collision ──────────────────────────────────────────────────

  /** The feeds and the tracks that a run names. */
  datatype Names = Names(feeds: set<Guid>, tracks: set<Guid>)

  predicate Known(names: Names, e: Entity) {
    e.guid in names.feeds && (e.TrackEntity? ==> e.track in names.tracks)
  }

  ghost predicate Injective(env: Env, names: Names) {
    forall e, e' :: Known(names, e) && Known(names, e') && env.rowidFor(e) == env.rowidFor(e') ==> e == e'
  }

  /** The index holds known entities alone, each at its own hash. */
  ghost predicate Tidy(env: Env, names: Names, x: Index) {
    Consistent(env, x) && forall id :: id in x.entities ==> Known(names, x.entities[id])
  }

  /** The text that a search finds for an entity. */
  function Indexed(env: Env, x: Index, e: Entity): Option<Texts> {
    var rowid := env.rowidFor(e);
    if rowid in x.entities && x.entities[rowid] == e && rowid in x.fts then Some(x.fts[rowid]) else None
  }

  function ExpectedText(env: Env, text: Option<Texts>): Option<Texts> {
    if text.Some? then Some(Truncated(env, text.value)) else None
  }

  lemma SetIndexed(env: Env, names: Names, x: Index, e: Entity, text: Option<Texts>, e': Entity)
    requires Injective(env, names) && Tidy(env, names, x) && Known(names, e)
    ensures Tidy(env, names, SetEntity(env, x, e, text))
    ensures Known(names, e') ==>
              Indexed(env, SetEntity(env, x, e, text), e') == if e' == e then ExpectedText(env, text) else Indexed(env, x, e')
  {
    hide Truncated;
    var rowid := env.rowidFor(e);
    if rowid in x.entities {
      assert Known(names, x.entities[rowid]);
    }
  }

  lemma {:induction false} SyncTracksIndexed(env: Env, names: Names, x: Index, g: Guid, f: CatalogFeed,
                                             tracks: map<Guid, CatalogTrack>, listed: seq<Guid>, e: Entity)
    requires Injective(env, names) && Tidy(env, names, x) && Known(names, e)
    requires g in names.feeds && (forall t :: t in listed ==> t in names.tracks)
    ensures Tidy(env, names, SyncTracks(env, x, g, f, tracks, listed))
    ensures Indexed(env, SyncTracks(env, x, g, f, tracks, listed), e) ==
            if e.TrackEntity? && e.guid == g && e.track in listed && e.track in tracks
            then ExpectedText(env, TrackText(f, tracks[e.track])) else Indexed(env, x, e)
  {
    hide SetEntity, Tidy, Indexed, Injective, TrackText;
    if listed != [] {
      var n := |listed| - 1;
      assert listed == listed[..n] + [listed[n]];
      SyncTracksIndexed(env, names, x, g, f, tracks, listed[..n], e);
      if listed[n] in tracks {
        SetIndexed(env, names, SyncTracks(env, x, g, f, tracks, listed[..n]), TrackEntity(g, listed[n]), TrackText(f, tracks[listed[n]]), e);
      }
    }
  }

  lemma {:induction false} RemoveTracksIndexed(env: Env, names: Names, x: Index, g: Guid, listed: seq<Guid>, e: Entity)
    requires Injective(env, names) && Tidy(env, names, x) && Known(names, e)
    requires g in names.feeds && (forall t :: t in listed ==> t in names.tracks)
    ensures Tidy(env, names, RemoveTracks(env, x, g, listed))
    ensures Indexed(env, RemoveTracks(env, x, g, listed), e) ==
            if e.TrackEntity? && e.guid == g && e.track in listed then None else Indexed(env, x, e)
  {
    hide Remove, Tidy, Indexed, Injective;
    if listed != [] {
      var n := |listed| - 1;
      assert listed == listed[..n] + [listed[n]];
      RemoveTracksIndexed(env, names, x, g, listed[..n], e);
      SetIndexed(env, names, RemoveTracks(env, x, g, listed[..n]), TrackEntity(g, listed[n]), None, e);
    }
  }

  /** The entities of a feed that a rebuild writes: its two types and its tracks. */
  predicate Rebuilt(c: Catalog, g: Guid, e: Entity) {
    g in c.feeds && e.guid == g && (e.TrackEntity? ==> e.track in TracksOf(c, g))
  }

  lemma SyncFeedIndexed(env: Env, names: Names, c: Catalog, x: Index, g: Guid, e: Entity)
    requires Injective(env, names) && Tidy(env, names, x) && Known(names, e) && ListsAll(env)
    requires g in names.feeds && (forall t :: t in TracksOf(c, g) ==> t in names.tracks)
    ensures Tidy(env, names, SyncFeed(env, c, x, g))
    ensures Indexed(env, SyncFeed(env, c, x, g), e) ==
            if Rebuilt(c, g, e) then ExpectedText(env, Expected(c, e)) else Indexed(env, x, e)
  {
    hide SetEntity, Tidy, Indexed, Injective, FeedText, PublisherText, TrackText, SyncTracks;
    if g in c.feeds {
      var f := c.feeds[g];
      var x1 := SetEntity(env, x, FeedEntity(g), FeedText(f));
      var x2 := SetEntity(env, x1, PublisherEntity(g), PublisherText(f));
      SetIndexed(env, names, x, FeedEntity(g), FeedText(f), e);
      SetIndexed(env, names, x1, PublisherEntity(g), PublisherText(f), e);
      SyncTracksIndexed(env, names, x2, g, f, TracksOf(c, g), env.listing(TracksOf(c, g)), e);
    }
  }

  /** The entities of an action. */
  ghost predicate NamedBy(names: Names, s: Search, a: Action) {
    && a.guid in names.feeds
    && (a.Ingest? ==> forall t :: t in a.tracks ==> t in names.tracks)
    && (a.ApplyTrack? || a.DeleteTrack? ==> a.track in names.tracks)
  }

  ghost predicate CatalogKnown(names: Names, c: Catalog) {
    && (forall g :: g in c.feeds ==> g in names.feeds)
    && (forall g, t :: t in TracksOf(c, g) ==> t in names.tracks)
  }

  lemma TracksKnown(names: Names, c: Catalog, g: Guid, tracks: map<Guid, CatalogTrack>)
    requires CatalogKnown(names, c) && forall t :: t in tracks ==> t in names.tracks
    ensures CatalogKnown(names, PutTracks(c, g, tracks))
  {
    var c' := PutTracks(c, g, tracks);
    forall h, t | t in TracksOf(c', h)
      ensures t in names.tracks
    {
      assert h != g ==> t in TracksOf(c, h);
    }
  }

  lemma FeedKnown(names: Names, c: Catalog, g: Guid, f: CatalogFeed)
    requires CatalogKnown(names, c) && g in names.feeds
    ensures CatalogKnown(names, PutFeed(c, g, f))
  {
    assert forall h :: TracksOf(PutFeed(c, g, f), h) == TracksOf(c, h);
  }

  lemma DropKnown(names: Names, c: Catalog, g: Guid)
    requires CatalogKnown(names, c)
    ensures CatalogKnown(names, DropFeed(c, g))
  {
    var c' := DropFeed(c, g);
    forall h, t | t in TracksOf(c', h)
      ensures t in names.tracks
    {
      assert t in TracksOf(c, h);
    }
  }

  /** The index agrees with the catalog on each entity, and the catalog is known. */
  ghost predicate Refines(env: Env, names: Names, s: Search) {
    && Tidy(env, names, s.index)
    && CatalogKnown(names, s.catalog)
    && (forall e :: Known(names, e) ==> Indexed(env, s.index, e) == ExpectedText(env, Expected(s.catalog, e)))
  }

  /** A rebuild of the feed `g`, where each other entity agreed before. */
  lemma RebuildRefines(env: Env, names: Names, c: Catalog, x: Index, g: Guid)
    requires Injective(env, names) && Tidy(env, names, x) && ListsAll(env) && g in names.feeds
    requires CatalogKnown(names, c)
    requires forall e :: Known(names, e) && !Rebuilt(c, g, e) ==> Indexed(env, x, e) == ExpectedText(env, Expected(c, e))
    ensures Refines(env, names, Search(c, SyncFeed(env, c, x, g)))
  {
    hide Indexed, Expected, SyncFeed, Tidy, Injective;
    SyncFeedIndexed(env, names, c, x, g, FeedEntity(g));
    forall e | Known(names, e)
      ensures Indexed(env, SyncFeed(env, c, x, g), e) == ExpectedText(env, Expected(c, e))
    {
      SyncFeedIndexed(env, names, c, x, g, e);
    }
  }

  lemma IngestRefines(env: Env, names: Names, s: Search, a: Action)
    requires Injective(env, names) && ListsAll(env) && Refines(env, names, s)
    requires a.Ingest? && Permitted(s, a) && NamedBy(names, s, a)
    ensures Refines(env, names, Next(env, s, a))
  {
    hide Indexed, SyncFeed, Tidy, Injective, RemoveTracks, TrackText, FeedText, PublisherText;
    var c := PutTracks(PutFeed(s.catalog, a.guid, a.feed), a.guid, a.tracks);
    var x := RemoveTracks(env, s.index, a.guid, a.stale);
    FeedKnown(names, s.catalog, a.guid, a.feed);
    TracksKnown(names, PutFeed(s.catalog, a.guid, a.feed), a.guid, a.tracks);
    RemoveTracksIndexed(env, names, s.index, a.guid, a.stale, FeedEntity(a.guid));
    forall e | Known(names, e) && !Rebuilt(c, a.guid, e)
      ensures Indexed(env, x, e) == ExpectedText(env, Expected(c, e))
    {
      RemoveTracksIndexed(env, names, s.index, a.guid, a.stale, e);
    }
    RebuildRefines(env, names, c, x, a.guid);
  }

  lemma ApplyRefines(env: Env, names: Names, s: Search, a: Action)
    requires Injective(env, names) && ListsAll(env) && Refines(env, names, s)
    requires (a.ApplyFeed? || a.ApplyTrack?) && NamedBy(names, s, a)
    ensures Refines(env, names, Next(env, s, a))
  {
    hide Indexed, SyncFeed, Tidy, Injective, TrackText, FeedText, PublisherText;
    var c := if a.ApplyFeed? then PutFeed(s.catalog, a.guid, a.feed)
             else PutTracks(s.catalog, a.guid, TracksOf(s.catalog, a.guid)[a.track := a.row]);
    if a.ApplyFeed? {
      FeedKnown(names, s.catalog, a.guid, a.feed);
    } else {
      TracksKnown(names, s.catalog, a.guid, TracksOf(s.catalog, a.guid)[a.track := a.row]);
    }
    forall e | Known(names, e) && !Rebuilt(c, a.guid, e)
      ensures Indexed(env, s.index, e) == ExpectedText(env, Expected(c, e))
    {
      assert Expected(c, e) == Expected(s.catalog, e);
    }
    RebuildRefines(env, names, c, s.index, a.guid);
  }

  lemma DeleteRefines(env: Env, names: Names, s: Search, a: Action)
    requires Injective(env, names) && ListsAll(env) && Refines(env, names, s)
    requires (a.DeleteTrack? || a.DeleteFeed?) && NamedBy(names, s, a)
    ensures Refines(env, names, Next(env, s, a))
  {
    hide Indexed, Tidy, Injective, Remove, RemoveTracks, TrackText, FeedText, PublisherText, Consistent;
    var s' := Next(env, s, a);
    forall e | Known(names, e)
      ensures Tidy(env, names, s'.index)
      ensures Indexed(env, s'.index, e) == ExpectedText(env, Expected(s'.catalog, e))
    {
      if a.DeleteTrack? {
        SetIndexed(env, names, s.index, TrackEntity(a.guid, a.track), None, e);
      } else {
        var x1 := Remove(env, s.index, FeedEntity(a.guid));
        var x2 := Remove(env, x1, PublisherEntity(a.guid));
        SetIndexed(env, names, s.index, FeedEntity(a.guid), None, e);
        SetIndexed(env, names, x1, PublisherEntity(a.guid), None, e);
        RemoveTracksIndexed(env, names, x2, a.guid, env.listing(TracksOf(s.catalog, a.guid)), e);
      }
    }
    assert Known(names, FeedEntity(a.guid));
    if a.DeleteTrack? {
      TracksKnown(names, s.catalog, a.guid, TracksOf(s.catalog, a.guid) - {a.track});
    } else {
      DropKnown(names, s.catalog, a.guid);
    }
  }

  lemma NextRefines(env: Env, names: Names, s: Search, a: Action)
    requires Injective(env, names) && ListsAll(env) && Refines(env, names, s)
    requires Permitted(s, a) && NamedBy(names, s, a)
    ensures Refines(env, names, Next(env, s, a))
  {
    hide Refines, Injective, ListsAll, Next, Permitted, NamedBy;
    match a
    case Ingest(_, _, _, _) => IngestRefines(env, names, s, a);
    case ApplyFeed(_, _) => ApplyRefines(env, names, s, a);
    case ApplyTrack(_, _, _) => ApplyRefines(env, names, s, a);
    case DeleteTrack(_, _) => DeleteRefines(env, names, s, a);
    case DeleteFeed(_) => DeleteRefines(env, names, s, a);
  }

  // ── runs ───────────────────────────────────────────────────────────────

  function After(env: Env, actions: seq<Action>): Search {
    if actions == [] then EMPTY_SEARCH else Next(env, After(env, actions[..|actions| - 1]), actions[|actions| - 1])
  }

  ghost predicate Allowed(env: Env, names: Names, actions: seq<Action>) {
    forall i :: 0 <= i < |actions| ==>
      Permitted(After(env, actions[..i]), actions[i]) && NamedBy(names, After(env, actions[..i]), actions[i])
  }

  /** With collisions or without, the two tables hold the same rowids, each at its own hash. */
  lemma {:induction false} AlwaysConsistent(env: Env, actions: seq<Action>)
    ensures Consistent(env, After(env, actions).index)
  {
    hide Next;
    if actions != [] {
      AlwaysConsistent(env, actions[..|actions| - 1]);
      NextConsistent(env, After(env, actions[..|actions| - 1]), actions[|actions| - 1]);
    }
  }

  lemma EmptyRefines(env: Env, names: Names)
    ensures Refines(env, names, EMPTY_SEARCH)
  {
  }

  lemma {:induction false} AlwaysRefines(env: Env, names: Names, actions: seq<Action>)
    requires Injective(env, names) && ListsAll(env) && Allowed(env, names, actions)
    ensures Refines(env, names, After(env, actions))
  {
    hide Next, Injective, ListsAll, Permitted, NamedBy, Refines;
    if actions == [] {
      EmptyRefines(env, names);
    } else {
      var n := |actions| - 1;
      assert forall i :: 0 <= i < n ==> actions[..n][..i] == actions[..i] && actions[..n][i] == actions[i];
      AlwaysRefines(env, names, actions[..n]);
      NextRefines(env, names, After(env, actions[..n]), actions[n]);
    }
  }

  /**
   With no collision among the entities of the run, the index holds one row of
   truncated text for each music feed, each publisher feed and each track of a
   music feed, and no other row.
   */
  lemma IndexIsExpected(env: Env, names: Names, actions: seq<Action>)
    requires Injective(env, names) && ListsAll(env) && Allowed(env, names, actions)
    ensures var s := After(env, actions);
            && s.index.fts.Keys == s.index.entities.Keys
            && (forall e :: Indexed(env, s.index, e) == ExpectedText(env, Expected(s.catalog, e)))
            && (forall id :: id in s.index.entities ==>
                  env.rowidFor(s.index.entities[id]) == id && Expected(s.catalog, s.index.entities[id]).Some?)
  {
    AlwaysRefines(env, names, actions);
    var s := After(env, actions);
    forall e
      ensures Indexed(env, s.index, e) == ExpectedText(env, Expected(s.catalog, e))
    {
      if !Known(names, e) {
        assert Expected(s.catalog, e) == None;
      }
    }
    forall id | id in s.index.entities
      ensures Expected(s.catalog, s.index.entities[id]).Some?
    {
      assert Indexed(env, s.index, s.index.entities[id]).Some?;
    }
  }

  /**
   The three columns of each row, from the catalog: the artist, the title and the
   description, each truncated, where an absent text is empty. The medium is
   compared without letter case.
   */
  lemma IndexedColumns(env: Env, names: Names, actions: seq<Action>, g: Guid, t: Guid)
    requires Injective(env, names) && ListsAll(env) && Allowed(env, names, actions)
    requires g in After(env, actions).catalog.feeds
    ensures var s := After(env, actions);
            var f := s.catalog.feeds[g];
            var row := Texts(name := env.truncate(if f.releaseArtist.Some? then f.releaseArtist.value else ""),
                             title := env.truncate(f.title),
                             description := env.truncate(if f.description.Some? then f.description.value else ""));
            var isMusic := f.medium.Some? && EqIgnoreAsciiCase(f.medium.value, "music");
            var isPublisher := f.medium.Some? && EqIgnoreAsciiCase(f.medium.value, "publisher");
            && Indexed(env, s.index, FeedEntity(g)) == (if isMusic then Some(row) else None)
            && Indexed(env, s.index, PublisherEntity(g)) == (if isPublisher then Some(row) else None)
            && (g !in s.catalog.tracks || t !in s.catalog.tracks[g] ==> Indexed(env, s.index, TrackEntity(g, t)) == None)
            && (g in s.catalog.tracks && t in s.catalog.tracks[g] ==>
                  var track := s.catalog.tracks[g][t];
                  Indexed(env, s.index, TrackEntity(g, t)) ==
                  if !isMusic then None
                  else Some(Texts(name := env.truncate(if track.artist.Some? then track.artist.value else ""),
                                  title := env.truncate(track.title),
                                  description := env.truncate(if track.description.Some? then track.description.value else ""))))
  {
    hide After, Indexed, Allowed, Injective, ListsAll, EqIgnoreAsciiCase;
    IndexIsExpected(env, names, actions);
  }

  /** A feed that the catalog does not hold has no row of any kind. */
  lemma UnknownFeedHasNoRow(env: Env, names: Names, actions: seq<Action>, e: Entity)
    requires Injective(env, names) && ListsAll(env) && Allowed(env, names, actions)
    requires e.guid !in After(env, actions).catalog.feeds
    ensures Indexed(env, After(env, actions).index, e) == None
  {
    hide After, Indexed, Allowed, Injective, ListsAll;
    IndexIsExpected(env, names, actions);
  }

  /** A delete takes the row of another entity exactly when the two collide. */
  lemma RemoveKeepsOthersExactly(env: Env, x: Index, e: Entity, gone: Entity)
    requires Consistent(env, x) && Indexed(env, x, e).Some?
    ensures Indexed(env, Remove(env, x, gone), e) == Indexed(env, x, e) <==> env.rowidFor(e) != env.rowidFor(gone)
  {
  }

  /** A feed has a row as music or as publisher, never both. */
  lemma OneFeedType(c: Catalog, g: Guid)
    ensures Expected(c, FeedEntity(g)).None? || Expected(c, PublisherEntity(g)).None?
  {
    assert |"music"| != |"publisher"|;
  }

  // ── in place ───────────────────────────────────────────────────────────

  class SearchStore {
    var feeds: map<Guid, CatalogFeed>
    var tracks: map<Guid, map<Guid, CatalogTrack>>
    var fts: map<int, Texts>
    var entities: map<int, Entity>

    function Value(): Search
      reads this
    {
      Search(Catalog(feeds, tracks), Index(fts, entities))
    }

    constructor ()
      ensures Value() == EMPTY_SEARCH
    {
      feeds, tracks, fts, entities := map[], map[], map[], map[];
    }

    method PopulateSearchIndex(env: Env, e: Entity, t: Texts)
      modifies `fts, `entities
      ensures Value().index == Populate(env, old(Value()).index, e, t)
    {
      var rowid := env.rowidFor(e);
      if rowid in entities && entities[rowid] != e {
        return;
      }
      if rowid in entities {
        fts := fts - {rowid};
      }
      fts := fts[rowid := Truncated(env, t)];
      entities := entities[rowid := e];
    }

    method DeleteFromSearchIndex(env: Env, e: Entity)
      modifies `fts, `entities
      ensures Value().index == Remove(env, old(Value()).index, e)
    {
      var rowid := env.rowidFor(e);
      if rowid in entities {
        fts := fts - {rowid};
      }
      entities := entities - {rowid};
    }

    method SyncSourceReadModels(env: Env, g: Guid)
      modifies `fts, `entities
      ensures Value().index == SyncFeed(env, old(Value()).catalog, old(Value()).index, g)
    {
      if g !in feeds {
        return;
      }
      var f := feeds[g];
      var isMusic := IsMusic(f.medium);
      var isPublisher := IsPublisher(f.medium);
      if isMusic {
        PopulateSearchIndex(env, FeedEntity(g), FeedTexts(f));
      } else {
        DeleteFromSearchIndex(env, FeedEntity(g));
      }
      if isPublisher {
        PopulateSearchIndex(env, PublisherEntity(g), FeedTexts(f));
      } else {
        DeleteFromSearchIndex(env, PublisherEntity(g));
      }
      ghost var before := Value().index;
      var rows := if g in tracks then tracks[g] else map[];
      var listed := env.listing(rows);
      for i := 0 to |listed|
        invariant Value().index == SyncTracks(env, before, g, f, rows, listed[..i])
      {
        var t := listed[i];
        if t in rows {
          if isMusic {
            PopulateSearchIndex(env, TrackEntity(g, t), Texts(OrEmpty(rows[t].artist), rows[t].title, OrEmpty(rows[t].description)));
          } else {
            DeleteFromSearchIndex(env, TrackEntity(g, t));
          }
        }
        assert listed[..i + 1][..i] == listed[..i];
      }
      assert listed[..|listed|] == listed;
    }

    /** The tracks, the stale tracks and the rebuild of `ingest_transaction`. */
    method IngestFeed(env: Env, g: Guid, f: CatalogFeed, submitted: map<Guid, CatalogTrack>, stale: seq<Guid>)
      modifies this
      ensures Value() == Next(env, old(Value()), Ingest(g, f, submitted, stale))
    {
      feeds := feeds[g := f];
      tracks := tracks[g := submitted];
      ghost var before := Value();
      for i := 0 to |stale|
        invariant Value().catalog == before.catalog
        invariant Value().index == RemoveTracks(env, before.index, g, stale[..i])
      {
        DeleteFromSearchIndex(env, TrackEntity(g, stale[i]));
        assert stale[..i + 1][..i] == stale[..i];
      }
      assert stale[..|stale|] == stale;
      SyncSourceReadModels(env, g);
    }

    /** `delete_feed_sql`: the index rows go before the feed row. */
    method DeleteFeedRows(env: Env, g: Guid)
      modifies this
      ensures Value() == Next(env, old(Value()), DeleteFeed(g))
    {
      var rows := if g in tracks then tracks[g] else map[];
      var listed := env.listing(rows);
      DeleteFromSearchIndex(env, FeedEntity(g));
      DeleteFromSearchIndex(env, PublisherEntity(g));
      ghost var before := Value();
      for i := 0 to |listed|
        invariant Value().catalog == before.catalog
        invariant Value().index == RemoveTracks(env, before.index, g, listed[..i])
      {
        DeleteFromSearchIndex(env, TrackEntity(g, listed[i]));
        assert listed[..i + 1][..i] == listed[..i];
      }
      assert listed[..|listed|] == listed;
      tracks := tracks - {g};
      feeds := feeds - {g};
    }
  }
}
