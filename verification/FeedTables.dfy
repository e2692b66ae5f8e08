/**
 The tables that hold one feed: its row, its sections of child rows, its tracks
 and their remote items. This module defines the overwrite that an ingest makes,
 the events that it emits, and what one event does to the same tables.
 */
module FeedTables {
  import opened Basics

  // ── rows ───────────────────────────────────────────────────────────────

  datatype Value = Null | Text(text: string) | Number(n: int)

  /** `fields` are the columns that the diff compares; `rest` are the others. */
  datatype Row = Row(fields: seq<Value>, rest: seq<Value>)

  datatype SectionKind =
    | Routes | ListValues | RemoteItems | Contributors | EntityIds | EntityLinks
    | ReleaseClaims | Enclosures | Transcripts | Platform | Live | TrackItems

  /** The order in which the sections of a feed are compared. */
  const SECTION_ORDER: seq<SectionKind> :=
    [Routes, ListValues, RemoteItems, Contributors, EntityIds, EntityLinks,
     ReleaseClaims, Enclosures, Transcripts, Platform, Live]

  /**
   The columns of the key of which one row stays, as positions in `fields`. The
   claims compare feed GUID, entity type, entity ID and position first.
   */
  function KeyColumns(kind: SectionKind): seq<nat> {
    match kind
    case Contributors => [0, 1, 2, 3, 10]
    case EntityIds => [0, 1, 2, 4, 5]
    case EntityLinks => [0, 1, 2, 4, 5]
    case ReleaseClaims => [0, 1, 2, 4, 3]
    case Enclosures => [0, 1, 2, 3, 4]
    case Transcripts => [0, 1, 2, 3, 4]
    case Live => [0]
    case _ => []
  }

  function Column(fields: seq<Value>, i: nat): Value {
    if i < |fields| then fields[i] else Null
  }

  function KeyOf(kind: SectionKind, row: Row): seq<Value> {
    var columns := KeyColumns(kind);
    seq(|columns|, i requires 0 <= i < |columns| => Column(row.fields, columns[i]))
  }

  function Keys(kind: SectionKind, rows: seq<Row>): seq<seq<Value>> {
    seq(|rows|, i requires 0 <= i < |rows| => KeyOf(kind, rows[i]))
  }

  /** The first row of each key. A section with no key keeps each row. */
  function Dedupe(kind: SectionKind, rows: seq<Row>): (d: seq<Row>)
    ensures |d| <= |rows|
  {
    if KeyColumns(kind) == [] then rows
    else if rows == [] then []
    else
      var d := Dedupe(kind, rows[..|rows| - 1]);
      var last := rows[|rows| - 1];
      if KeyOf(kind, last) in Keys(kind, d) then d else d + [last]
  }

  /**
   A payment row stores an absent custom key or value as the empty string, and
   a read gives the empty string back as null.
   */
  function Stored(kind: SectionKind, row: Row): Row {
    if kind in {Routes, ListValues} then
      row.(fields := seq(|row.fields|, i requires 0 <= i < |row.fields| =>
                         if i in {3, 4} && row.fields[i] == Text("") then Null else row.fields[i]))
    else row
  }

  function Store(kind: SectionKind, rows: seq<Row>): (s: seq<Row>)
    ensures |s| == |rows|
  {
    seq(|rows|, i requires 0 <= i < |rows| => Stored(kind, rows[i]))
  }

  /** The order in which a query returns the rows of a section. */
  type ReadOrder = (SectionKind, seq<Row>) -> seq<Row>

  /**
   A query returns each row once. The scan of the routes follows the rowids,
   and the rowids follow the inserts.
   */
  ghost predicate ReadsAll(order: ReadOrder) {
    forall kind, rows ::
      multiset(order(kind, rows)) == multiset(rows) && (kind == Routes ==> order(kind, rows) == rows)
  }

  /** The comparison of stored rows with new rows, in step. */
  predicate Changed(existing: seq<Row>, newer: seq<Row>) {
    |existing| != |newer| || exists i :: 0 <= i < |existing| && existing[i].fields != newer[i].fields
  }

  // ── feed and tracks ────────────────────────────────────────────────────

  datatype FeedFields = FeedFields(
    title: string, description: Option<string>, imageUrl: Option<string>, publisher: Option<string>,
    language: Option<string>, explicit: bool, itunesType: Option<string>, releaseArtist: Option<string>,
    releaseArtistSort: Option<string>, releaseDate: Option<int>, releaseKind: Option<string>,
    rawMedium: Option<string>, feedUrl: Url)

  datatype TrackFields = TrackFields(
    title: string, pubDate: Option<int>, durationSecs: Option<int>, imageUrl: Option<string>,
    language: Option<string>, enclosureUrl: Option<string>, enclosureType: Option<string>,
    enclosureBytes: Option<int>, trackNumber: Option<int>, season: Option<int>, explicit: bool,
    description: Option<string>, publisher: Option<string>, trackArtist: Option<string>,
    trackArtistSort: Option<string>)

  datatype FeedRow = FeedRow(fields: FeedFields, lastBuildDate: Option<int>, rest: seq<Value>)
  datatype TrackRow = TrackRow(fields: TrackFields, rest: seq<Value>)

  predicate FeedFieldsChanged(existing: FeedFields, newer: FeedFields) {
    || existing.title != newer.title
    || existing.description != newer.description
    || existing.imageUrl != newer.imageUrl
    || existing.publisher != newer.publisher
    || existing.language != newer.language
    || existing.explicit != newer.explicit
    || existing.itunesType != newer.itunesType
    || existing.releaseArtist != newer.releaseArtist
    || existing.releaseArtistSort != newer.releaseArtistSort
    || existing.releaseDate != newer.releaseDate
    || existing.releaseKind != newer.releaseKind
    || existing.rawMedium != newer.rawMedium
    || existing.feedUrl != newer.feedUrl
  }

  predicate TrackFieldsChanged(existing: TrackFields, newer: TrackFields) {
    || existing.title != newer.title
    || existing.pubDate != newer.pubDate
    || existing.durationSecs != newer.durationSecs
    || existing.imageUrl != newer.imageUrl
    || existing.language != newer.language
    || existing.enclosureUrl != newer.enclosureUrl
    || existing.enclosureType != newer.enclosureType
    || existing.enclosureBytes != newer.enclosureBytes
    || existing.trackNumber != newer.trackNumber
    || existing.season != newer.season
    || existing.explicit != newer.explicit
    || existing.description != newer.description
    || existing.publisher != newer.publisher
    || existing.trackArtist != newer.trackArtist
    || existing.trackArtistSort != newer.trackArtistSort
  }

  /** The rows of one feed GUID in each table. */
  datatype FeedData = FeedData(
    row: Option<FeedRow>,
    sections: map<SectionKind, seq<Row>>,
    tracks: map<Guid, TrackRow>,
    items: map<Guid, seq<Row>>)

  const NO_TABLES := FeedData(None, map[], map[], map[])

  function Section(ft: FeedData, kind: SectionKind): seq<Row> {
    if kind in ft.sections then ft.sections[kind] else []
  }

  /** The remote items of a track. */
  function Items(ft: FeedData, t: Guid): seq<Row> {
    if t in ft.items then ft.items[t] else []
  }

  // ── the overwrite of an ingest ─────────────────────────────────────────

  datatype TrackBundle = TrackBundle(guid: Guid, row: TrackRow, items: seq<Row>)

  datatype FeedBody = FeedBody(row: FeedRow, sections: map<SectionKind, seq<Row>>, tracks: seq<TrackBundle>)

  function BodySection(b: FeedBody, kind: SectionKind): seq<Row> {
    if kind in b.sections then b.sections[kind] else []
  }

  function StoredSection(b: FeedBody, kind: SectionKind): seq<Row> {
    Store(kind, Dedupe(kind, BodySection(b, kind)))
  }

  function WriteSections(ft: FeedData, b: FeedBody): FeedData {
    ft.(sections := ft.sections + map kind | kind in SECTION_ORDER :: StoredSection(b, kind))
  }

  function WriteTrack(ft: FeedData, bundle: TrackBundle): FeedData {
    ft.(tracks := ft.tracks[bundle.guid := bundle.row], items := ft.items[bundle.guid := bundle.items])
  }

  function WriteTracks(ft: FeedData, bundles: seq<TrackBundle>): FeedData {
    if bundles == [] then ft
    else WriteTrack(WriteTracks(ft, bundles[..|bundles| - 1]), bundles[|bundles| - 1])
  }

  function TrackGuids(bundles: seq<TrackBundle>): set<Guid> {
    set i | 0 <= i < |bundles| :: bundles[i].guid
  }

  function RemoveTracks(ft: FeedData, stale: set<Guid>): FeedData {
    ft.(tracks := ft.tracks - stale, items := ft.items - stale)
  }

  /** The tracks that the feed holds and the body does not. */
  function StaleTracks(ft: FeedData, b: FeedBody): set<Guid> {
    ft.tracks.Keys - TrackGuids(b.tracks)
  }

  /** The tables of the feed after `ingest_transaction`. */
  function WriteBody(ft: FeedData, b: FeedBody): FeedData {
    RemoveTracks(WriteTracks(WriteSections(ft.(row := Some(b.row)), b), b.tracks), StaleTracks(ft, b))
  }

  // ── the events of an ingest ────────────────────────────────────────────

  datatype FeedEvent =
    | FeedUpserted(feed: FeedRow)
    | SectionReplaced(kind: SectionKind, rows: seq<Row>)
    | TrackUpserted(guid: Guid, track: TrackRow)
    | TrackItemsReplaced(guid: Guid, rows: seq<Row>)
    | TrackRemoved(guid: Guid)

  /** The rows that an event carries. The live rows are sorted. */
  function NewerRows(order: ReadOrder, b: FeedBody, kind: SectionKind): seq<Row> {
    var d := Dedupe(kind, BodySection(b, kind));
    if kind == Live then order(Live, d) else d
  }

  function FeedEvents(ft: FeedData, b: FeedBody): seq<FeedEvent> {
    if ft.row.None? || FeedFieldsChanged(ft.row.value.fields, b.row.fields) then [FeedUpserted(b.row)] else []
  }

  /** A first ingest omits an empty section; a later one compares it. */
  predicate EmitsSection(order: ReadOrder, ft: FeedData, b: FeedBody, kind: SectionKind) {
    if ft.row.None? then NewerRows(order, b, kind) != []
    else Changed(order(kind, Section(ft, kind)), NewerRows(order, b, kind))
  }

  function SectionEvent(order: ReadOrder, ft: FeedData, b: FeedBody, kind: SectionKind): seq<FeedEvent> {
    if EmitsSection(order, ft, b, kind) then [SectionReplaced(kind, NewerRows(order, b, kind))] else []
  }

  function SectionEvents(order: ReadOrder, ft: FeedData, b: FeedBody, kinds: seq<SectionKind>): seq<FeedEvent> {
    if kinds == [] then []
    else
      SectionEvents(order, ft, b, kinds[..|kinds| - 1]) + SectionEvent(order, ft, b, kinds[|kinds| - 1])
  }

  predicate EmitsTrack(ft: FeedData, bundle: TrackBundle) {
    || ft.row.None?
    || bundle.guid !in ft.tracks
    || TrackFieldsChanged(ft.tracks[bundle.guid].fields, bundle.row.fields)
  }

  /**
   A new or changed track tells of its remote items when it has some, or when it
   loses those it had. An unchanged track compares them.
   */
  predicate EmitsItems(order: ReadOrder, ft: FeedData, bundle: TrackBundle) {
    if ft.row.None? then bundle.items != []
    else if EmitsTrack(ft, bundle) then
      bundle.items != [] || (bundle.guid in ft.tracks && order(TrackItems, Items(ft, bundle.guid)) != [])
    else Changed(order(TrackItems, Items(ft, bundle.guid)), bundle.items)
  }

  function BundleEvents(order: ReadOrder, ft: FeedData, bundle: TrackBundle): seq<FeedEvent> {
    (if EmitsTrack(ft, bundle) then [TrackUpserted(bundle.guid, bundle.row)] else []) +
    (if EmitsItems(order, ft, bundle) then [TrackItemsReplaced(bundle.guid, bundle.items)] else [])
  }

  function TrackEvents(order: ReadOrder, ft: FeedData, bundles: seq<TrackBundle>): seq<FeedEvent> {
    if bundles == [] then []
    else
      TrackEvents(order, ft, bundles[..|bundles| - 1]) + BundleEvents(order, ft, bundles[|bundles| - 1])
  }

  /** `build_diff_events`. */
  function DiffEvents(order: ReadOrder, ft: FeedData, b: FeedBody): seq<FeedEvent> {
    FeedEvents(ft, b) + SectionEvents(order, ft, b, SECTION_ORDER) + TrackEvents(order, ft, b.tracks)
  }

  /** The events of the tracks that the ingest removes, in the order of the removal. */
  function RemovalEvents(removed: seq<Guid>): seq<FeedEvent> {
    seq(|removed|, i requires 0 <= i < |removed| => TrackRemoved(removed[i]))
  }

  // ── the effect of an event ─────────────────────────────────────────────

  function ApplyEvent(ft: FeedData, e: FeedEvent): FeedData {
    match e
    case FeedUpserted(row) => ft.(row := Some(row))
    case SectionReplaced(kind, rows) => ft.(sections := ft.sections[kind := Store(kind, Dedupe(kind, rows))])
    case TrackUpserted(t, row) => ft.(tracks := ft.tracks[t := row])
    case TrackItemsReplaced(t, rows) => ft.(items := ft.items[t := rows])
    case TrackRemoved(t) => if t in ft.tracks then RemoveTracks(ft, {t}) else ft
  }

  function ApplyEvents(ft: FeedData, events: seq<FeedEvent>): FeedData {
    if events == [] then ft
    else ApplyEvent(ApplyEvents(ft, events[..|events| - 1]), events[|events| - 1])
  }

  // ── what is replicated ─────────────────────────────────────────────────

  datatype Projected = InOrder(list: seq<seq<Value>>) | AnyOrder(bag: multiset<seq<Value>>)

  function FieldsOf(rows: seq<Row>): (f: seq<seq<Value>>)
    ensures |f| == |rows|
  {
    seq(|rows|, i requires 0 <= i < |rows| => rows[i].fields)
  }

  /** The routes keep their order. The order of each other section is free. */
  function Project(kind: SectionKind, rows: seq<Row>): Projected {
    if kind == Routes then InOrder(FieldsOf(rows)) else AnyOrder(multiset(FieldsOf(rows)))
  }

  function FeedFieldsOf(ft: FeedData): Option<FeedFields> {
    if ft.row.Some? then Some(ft.row.value.fields) else None
  }

  function TrackFieldsOf(ft: FeedData, t: Guid): Option<TrackFields> {
    if t in ft.tracks then Some(ft.tracks[t].fields) else None
  }

  predicate AgreeOnTrack(p: FeedData, r: FeedData, t: Guid) {
    && TrackFieldsOf(p, t) == TrackFieldsOf(r, t)
    && Project(TrackItems, Items(p, t)) == Project(TrackItems, Items(r, t))
  }

  /** Two nodes hold the same replicated columns of a feed. */
  ghost predicate Agree(p: FeedData, r: FeedData) {
    && FeedFieldsOf(p) == FeedFieldsOf(r)
    && (forall kind :: Project(kind, Section(p, kind)) == Project(kind, Section(r, kind)))
    && (forall t :: AgreeOnTrack(p, r, t))
  }

  /** Stored rows read back as they are, and no child row is without its parent. */
  ghost predicate WellFormed(ft: FeedData) {
    && (forall kind, row :: row in Section(ft, kind) ==> Stored(kind, row) == row)
    && (forall t :: t !in ft.tracks ==> Items(ft, t) == [])
    && (ft.row.None? ==> ft == NO_TABLES)
  }
}
