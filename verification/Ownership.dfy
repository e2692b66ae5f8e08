/**
 The tables of the primary that decide which URL a record owns, and one
 function for each writer-lock section that changes them. The class in
 `RecordStore.dfy` performs the same sections statement by statement.
 */
module Ownership {
  import opened Basics
  import opened Cooldown

  // ── values ─────────────────────────────────────────────────────────────

  datatype Link = Link(linkType: string, url: Url)

  /** The facts of a feed body that the ownership rules read, and its content. */
  datatype Body = Body(
    content: string,
    newFeedUrl: Option<Url>,
    links: seq<Link>,
    lastBuildDate: Option<I64>,
    blocksThisIndex: bool,
    musicL: bool,
    trackCount: nat)

  /** One submission of the crawler. `redirects` holds the status of each hop. */
  datatype Submission = Submission(
    guid: Guid,
    sourceUrl: Url,
    canonicalUrl: Url,
    redirects: seq<nat>,
    body: Body)

  /** A row of `feeds`. */
  datatype FeedRow = FeedRow(
    url: Url,
    body: Body,
    lastBuildDate: Option<I64>,
    declaredNew: Option<Url>,
    declaredSelf: Option<Url>)

  /** A row of `feed_move_state`. */
  datatype MoveState = MoveState(arrivalTag: Option<Url>, pending: bool, clock: ReturnClock)

  /** A row of `source_gone_answers`. */
  datatype GoneAnswer = GoneAnswer(sourceUrl: Url, firstGoneAt: I64, lastGoneAt: I64, lastStatus: nat)

  datatype RetireReason = PodcastBlock | SourceGone | AdminRetired

  /** A row of `retired_source_holds`. */
  datatype Hold = Hold(sourceUrl: Url, reason: RetireReason, retiredAt: I64, releasedAt: Option<I64>)

  datatype Decision = Approve | Reject

  /** A row of `feed_guid_changes`. */
  datatype GuidChange = GuidChange(
    oldGuid: Guid,
    newGuid: Guid,
    firstSeen: I64,
    lastSeen: Option<I64>,
    decision: Option<Decision>)

  /** A row of `feed_guid_supersessions`. */
  datatype Supersession = Supersession(newGuid: Guid, sourceUrl: Url, supersededAt: I64)

  /** The tables, keyed as in the schema. `leftUrls` groups its rows by GUID. */
  datatype Tables = Tables(
    feeds: map<Guid, FeedRow>,
    leftUrls: map<Guid, set<Url>>,
    moveStates: map<Guid, MoveState>,
    goneAnswers: map<Guid, GoneAnswer>,
    holds: map<Guid, Hold>,
    guidChanges: map<Url, GuidChange>,
    supersessions: map<Guid, Supersession>)

  const EMPTY_TABLES := Tables(map[], map[], map[], map[], map[], map[], map[])

  const MAX_TRACKS_PER_INGEST: nat := 500
  const SOURCE_GONE_RETIRE_AFTER_SECS: int := 24 * 60 * 60

  // ── reads ──────────────────────────────────────────────────────────────

  /** The URL of the first link of type `self_feed`. */
  function SelfLink(links: seq<Link>): Option<Url> {
    if links == [] then None
    else if links[0].linkType == "self_feed" then Some(links[0].url)
    else SelfLink(links[1..])
  }

  function LeftUrls(t: Tables, g: Guid): set<Url> {
    if g in t.leftUrls then t.leftUrls[g] else {}
  }

  /** A record with no row has the default state. */
  function GetMoveState(t: Tables, g: Guid): MoveState {
    if g in t.moveStates then t.moveStates[g] else MoveState(None, false, ReturnClock(0, None))
  }

  /** The records of another GUID that hold one of the two submitted URLs. */
  function Conflicts(t: Tables, s: Submission): set<Guid> {
    set g | g in t.feeds && g != s.guid && t.feeds[g].url in {s.sourceUrl, s.canonicalUrl}
  }

  // ── classify_submission (ADR 0051 section 2) ───────────────────────────

  datatype SubmissionClass =
    | RecordConflict
    | GuidChanged(heldGuid: Guid)
    | Update
    | Mirror(storedUrl: Url)
    | NewFeed

  /**
   `c` is an answer of `classify_submission`. The query of a conflicting record
   takes one row of its result, so two conflicting records permit two answers.
   */
  predicate Classifies(t: Tables, s: Submission, c: SubmissionClass) {
    if Conflicts(t, s) != {} then
      if s.guid in t.feeds then c == RecordConflict
      else c.GuidChanged? && c.heldGuid in Conflicts(t, s)
    else if s.guid in t.feeds then
      if t.feeds[s.guid].url in {s.sourceUrl, s.canonicalUrl} then c == Update
      else c == Mirror(t.feeds[s.guid].url)
    else c == NewFeed
  }

  // ── move_target (ADR 0052 sections 1 and 2, ADR 0083) ──────────────────

  datatype MoveTrigger = NewFeedUrlTag | SelfLinkMatch | PermanentRedirect

  datatype MoveDecision =
    | NoTrigger
    | Move(newUrl: Url, trigger: MoveTrigger, returnValues: Option<ReturnClock>)
    | Refused(targetUrl: Url)
    | WaitingRedirect(redirectUrl: Url)

  function MirrorTrigger(row: FeedRow, s: Submission): Option<(Url, MoveTrigger)> {
    if row.declaredNew.Some? && row.declaredNew.value in {s.sourceUrl, s.canonicalUrl} then
      Some((row.declaredNew.value, NewFeedUrlTag))
    else if row.declaredSelf.Some? && row.declaredSelf.value in {s.sourceUrl, s.canonicalUrl} then
      Some((row.declaredSelf.value, SelfLinkMatch))
    else None
  }

  predicate PermanentRedirectOf(row: FeedRow, s: Submission) {
    && s.sourceUrl == row.url
    && s.redirects != []
    && s.canonicalUrl != row.url
    && forall i :: 0 <= i < |s.redirects| ==> s.redirects[i] in {301, 308}
  }

  function MoveTarget(t: Tables, s: Submission, c: SubmissionClass, now: I64): MoveDecision {
    if s.guid !in t.feeds then NoTrigger
    else
      var row := t.feeds[s.guid];
      var state := GetMoveState(t, s.guid);
      match c
      case Mirror(_) => (
        match MirrorTrigger(row, s)
        case None => NoTrigger
        case Some((target, trigger)) =>
          if target !in LeftUrls(t, s.guid) then Move(target, trigger, None)
          else if && trigger == NewFeedUrlTag
                  && s.body.newFeedUrl == Some(target)
                  && state.arrivalTag != Some(target)
                  && !Waiting(state.clock, now)
          then Move(target, trigger, Some(NextReturnValues(state.clock, now)))
          else Refused(target))
      case Update =>
        if !PermanentRedirectOf(row, s) then NoTrigger
        else if s.canonicalUrl !in LeftUrls(t, s.guid) then Move(s.canonicalUrl, PermanentRedirect, None)
        else if Waiting(state.clock, now) then WaitingRedirect(s.canonicalUrl)
        else Move(s.canonicalUrl, PermanentRedirect, Some(NextReturnValues(state.clock, now)))
      case _ => NoTrigger
  }

  // ── table writers ──────────────────────────────────────────────────────

  function AddLeftUrl(t: Tables, g: Guid, u: Url): Tables {
    t.(leftUrls := t.leftUrls[g := LeftUrls(t, g) + {u}])
  }

  function RemoveLeftUrl(t: Tables, g: Guid, u: Url): Tables {
    if g in t.leftUrls then t.(leftUrls := t.leftUrls[g := t.leftUrls[g] - {u}]) else t
  }

  /** A move that the ingest transaction stores. */
  datatype FeedMoveWrite = FeedMoveWrite(
    oldUrl: Url, newUrl: Url, arrivalTag: Option<Url>, returnValues: Option<ReturnClock>)

  function WriteFeedMove(t: Tables, g: Guid, mv: FeedMoveWrite): Tables {
    var t1 := RemoveLeftUrl(AddLeftUrl(t, g, mv.oldUrl), g, mv.newUrl);
    var clock := if mv.returnValues.Some? then mv.returnValues.value else GetMoveState(t, g).clock;
    t1.(moveStates := t1.moveStates[g := MoveState(mv.arrivalTag, false, clock)])
  }

  function WriteRelocationState(t: Tables, g: Guid, oldUrl: Url, newUrl: Url): Tables {
    var t1 := RemoveLeftUrl(AddLeftUrl(t, g, oldUrl), g, newUrl);
    var last := GetMoveState(t, g).clock.last;
    t1.(moveStates := t1.moveStates[g := MoveState(None, true, ReturnClock(0, last))])
  }

  function ClearArrivalTagUnless(t: Tables, g: Guid, tag: Option<Url>): Tables {
    if g !in t.moveStates then t
    else
      var state := t.moveStates[g];
      var arrivalTag := if state.pending then tag
                        else if state.arrivalTag == tag then state.arrivalTag
                        else None;
      t.(moveStates := t.moveStates[g := state.(arrivalTag := arrivalTag, pending := false)])
  }

  /** `delete_feed_sql`, with the cascade of `source_gone_answers`. */
  function DeleteFeed(t: Tables, g: Guid): Tables {
    t.(feeds := t.feeds - {g},
       leftUrls := t.leftUrls - {g},
       moveStates := t.moveStates - {g},
       goneAnswers := t.goneAnswers - {g})
  }

  /** `delete_feed_with_event`: a retire with no block keeps a hold. */
  function RetireFeed(t: Tables, g: Guid, reason: RetireReason, withBlocks: bool, now: I64): Tables {
    var t1 := DeleteFeed(t, g);
    if !withBlocks && g in t.feeds
    then t1.(holds := t1.holds[g := Hold(t.feeds[g].url, reason, now, None)])
    else t1
  }

  /** The upsert of the feed row, and the two deletes that follow it. */
  function UpsertFeedRow(t: Tables, g: Guid, url: Url, body: Body): Tables {
    var row := if g in t.feeds
               then t.feeds[g].(url := url, body := body, lastBuildDate := body.lastBuildDate)
               else FeedRow(url, body, body.lastBuildDate, None, None);
    t.(feeds := t.feeds[g := row], goneAnswers := t.goneAnswers - {g}, holds := t.holds - {g})
  }

  /** Another record holds `url`, so the `UNIQUE` constraint on `feed_url` refuses it. */
  predicate HeldByAnother(t: Tables, g: Guid, url: Url) {
    exists h :: h in t.feeds && h != g && t.feeds[h].url == url
  }

  /**
   `ingest_transaction`: the feed row and the history of a move. `None` when
   the `UNIQUE` constraint fails, which rolls the transaction back.
   */
  function IngestTransaction(t: Tables, g: Guid, url: Url, body: Body, mv: Option<FeedMoveWrite>): Option<Tables> {
    if HeldByAnother(t, g, url) then None
    else
      var t1 := UpsertFeedRow(t, g, url, body);
      Some(if mv.Some? then WriteFeedMove(t1, g, mv.value) else t1)
  }

  /** The declaration writes of step 11a, and the clear of the arrival tag. */
  function WriteDeclarations(t: Tables, g: Guid, body: Body, moved: bool): Tables {
    if g !in t.feeds then t
    else
      var row := t.feeds[g].(declaredSelf := SelfLink(body.links), declaredNew := body.newFeedUrl);
      var t1 := t.(feeds := t.feeds[g := row]);
      if moved then t1 else ClearArrivalTagUnless(t1, g, body.newFeedUrl)
  }

  /** `guid_change_transition`: retires the old GUID with no hold. */
  function GuidChangeTransition(t: Tables, oldGuid: Guid, newGuid: Guid, sourceUrl: Url, now: I64): Tables {
    var t1 := DeleteFeed(t, oldGuid);
    t1.(supersessions := if oldGuid in t1.supersessions then t1.supersessions
                         else t1.supersessions[oldGuid := Supersession(newGuid, sourceUrl, now)],
        guidChanges := t1.guidChanges - {sourceUrl})
  }

  /** `record_guid_change_pending_for_ingest` when no rejection holds. */
  function WritePendingGuidChange(t: Tables, s: Submission, held: Guid, now: I64): Tables {
    var same := s.sourceUrl in t.guidChanges && t.guidChanges[s.sourceUrl].newGuid == s.guid;
    var row := if same
               then t.guidChanges[s.sourceUrl].(oldGuid := held, lastSeen := Some(now))
               else GuidChange(held, s.guid, now, Some(now), None);
    t.(guidChanges := t.guidChanges[s.sourceUrl := row])
  }

  // ── the write phase of handle_ingest_feed ──────────────────────────────

  datatype Outcome =
    | Accepted
    | StaleSubmission
    | SourceBlocked
    | RetiredSourceConflict
    | SourceConflict
    | RecordConflicted
    | GuidChangePending
    | GuidChangeRejected
    | TooManyTracks
    | UniqueViolation

  function TracksOf(body: Body): nat {
    if body.musicL then 0 else body.trackCount
  }

  /** Steps 3b to 11a: what every accepted submission runs. */
  function Admit(t: Tables, s: Submission, mv: Option<FeedMoveWrite>, transition: Option<Guid>, now: I64): (Tables, Outcome) {
    if TracksOf(s.body) > MAX_TRACKS_PER_INGEST then (t, TooManyTracks)
    else
      var url := if mv.Some? then mv.value.newUrl
                 else if s.guid in t.feeds then t.feeds[s.guid].url
                 else s.canonicalUrl;
      var t1 := if transition.Some? then GuidChangeTransition(t, transition.value, s.guid, s.sourceUrl, now) else t;
      var written := IngestTransaction(t1, s.guid, url, s.body, mv);
      if written.None? then (t1, UniqueViolation)
      else (WriteDeclarations(written.value, s.guid, s.body, mv.Some?), Accepted)
  }

  function MoveWriteOf(t: Tables, s: Submission, d: MoveDecision): Option<FeedMoveWrite>
    requires d.Move? ==> s.guid in t.feeds
  {
    if d.Move? then Some(FeedMoveWrite(t.feeds[s.guid].url, d.newUrl, s.body.newFeedUrl, d.returnValues)) else None
  }

  predicate IsStale(row: FeedRow, body: Body) {
    row.lastBuildDate.Some? && body.lastBuildDate.Some? && body.lastBuildDate.value < row.lastBuildDate.value
  }

  predicate HoldRejects(t: Tables, s: Submission) {
    && s.guid in t.holds
    && t.holds[s.guid].releasedAt.None?
    && t.holds[s.guid].sourceUrl !in {s.sourceUrl, s.canonicalUrl}
  }

  predicate Approved(t: Tables, s: Submission) {
    && s.sourceUrl in t.guidChanges
    && t.guidChanges[s.sourceUrl].newGuid == s.guid
    && t.guidChanges[s.sourceUrl].decision == Some(Approve)
  }

  predicate Rejected(t: Tables, s: Submission) {
    && s.sourceUrl in t.guidChanges
    && t.guidChanges[s.sourceUrl].newGuid == s.guid
    && t.guidChanges[s.sourceUrl].decision == Some(Reject)
  }

  /**
   The writer-lock section of one submission. `originMatches` says whether the
   declared GUID is the UUIDv5 of the source URL (section 5.5 of RFC 9562).
   */
  function IngestWrite(t: Tables, s: Submission, c: SubmissionClass, originMatches: bool, now: I64): (Tables, Outcome)
    requires Classifies(t, s, c)
  {
    match c
    case Update =>
      if IsStale(t.feeds[s.guid], s.body) then (t, StaleSubmission)
      else if s.body.blocksThisIndex then (RetireFeed(t, s.guid, PodcastBlock, false, now), SourceBlocked)
      else
        var t1 := t.(guidChanges := t.guidChanges - {s.sourceUrl});
        Admit(t1, s, MoveWriteOf(t1, s, MoveTarget(t1, s, c, now)), None, now)
    case NewFeed =>
      if HoldRejects(t, s) then (t, RetiredSourceConflict)
      else if s.body.blocksThisIndex then (t, SourceBlocked)
      else Admit(t, s, None, None, now)
    case Mirror(_) =>
      var d := MoveTarget(t, s, c, now);
      if d.Move? then Admit(t, s, MoveWriteOf(t, s, d), None, now)
      else (t, SourceConflict)
    case RecordConflict => (t, RecordConflicted)
    case GuidChanged(held) =>
      if originMatches || Approved(t, s) then Admit(t, s, None, Some(held), now)
      else if Rejected(t, s) then (t, GuidChangeRejected)
      else (WritePendingGuidChange(t, s, held, now), GuidChangePending)
  }

  // ── handle_source_gone_report (ADR 0067) ───────────────────────────────

  /** A report of a gone source. `hostListed` is the test of the 404 hosts. */
  datatype GoneReport = GoneReport(
    sourceUrl: Url, canonicalUrl: Url, redirects: seq<nat>, status: nat, hostListed: bool, urlBlocked: bool)

  predicate ReportCounts(r: GoneReport) {
    r.sourceUrl == r.canonicalUrl && r.redirects == [] && (r.status == 410 || (r.status == 404 && r.hostListed))
  }

  function Holders(t: Tables, u: Url): set<Guid> {
    set g | g in t.feeds && t.feeds[g].url == u
  }

  /** `target` is the record whose stored source URL the report names. */
  predicate NamesTarget(t: Tables, r: GoneReport, target: Option<Guid>) {
    if r.urlBlocked || !ReportCounts(r) || Holders(t, r.sourceUrl) == {} then target == None
    else target.Some? && target.value in Holders(t, r.sourceUrl)
  }

  /** The difference of the two times is a 64-bit number. */
  predicate GoneRetires(t: Tables, g: Guid, now: I64) {
    g in t.goneAnswers && Wrap(now - t.goneAnswers[g].firstGoneAt) >= SOURCE_GONE_RETIRE_AFTER_SECS
  }

  function RecordGoneAnswer(t: Tables, g: Guid, u: Url, now: I64, status: nat): Tables {
    var row := if g in t.goneAnswers
               then t.goneAnswers[g].(lastGoneAt := now, lastStatus := status)
               else GoneAnswer(u, now, now, status);
    t.(goneAnswers := t.goneAnswers[g := row])
  }

  function HandleGone(t: Tables, r: GoneReport, target: Option<Guid>, now: I64): Tables {
    match target
    case None => t
    case Some(g) =>
      if GoneRetires(t, g, now) then RetireFeed(t, g, SourceGone, false, now)
      else RecordGoneAnswer(t, g, r.sourceUrl, now, r.status)
  }

  // ── operator routes ────────────────────────────────────────────────────

  function RelocateFeed(t: Tables, g: Guid, newUrl: Url): Tables {
    if g !in t.feeds || HeldByAnother(t, g, newUrl) then t
    else
      var row := t.feeds[g];
      var t1 := t.(feeds := t.feeds[g := row.(url := newUrl, lastBuildDate := None, declaredSelf := None, declaredNew := None)]);
      WriteRelocationState(t1, g, row.url, newUrl)
  }

  function ReleaseHold(t: Tables, g: Guid, now: I64): Tables {
    if g in t.holds && t.holds[g].releasedAt.None?
    then t.(holds := t.holds[g := t.holds[g].(releasedAt := Some(now))])
    else t
  }

  function DecideGuidChange(t: Tables, sourceUrl: Url, d: Decision): Tables {
    if sourceUrl in t.guidChanges
    then t.(guidChanges := t.guidChanges[sourceUrl := t.guidChanges[sourceUrl].(decision := Some(d))])
    else t
  }

  // ── steps and runs ─────────────────────────────────────────────────────

  datatype Action =
    | Ingest(s: Submission, c: SubmissionClass, originMatches: bool, now: I64)
    | Gone(r: GoneReport, target: Option<Guid>, now: I64)
    | Relocate(guid: Guid, url: Url)
    | Retire(guid: Guid, withBlocks: bool, now: I64)
    | Release(guid: Guid, now: I64)
    | Decide(url: Url, decision: Decision)

  predicate Enabled(t: Tables, a: Action) {
    match a
    case Ingest(s, c, _, _) => Classifies(t, s, c)
    case Gone(r, target, _) => NamesTarget(t, r, target)
    case _ => true
  }

  function Next(t: Tables, a: Action): Tables
    requires Enabled(t, a)
  {
    match a
    case Ingest(s, c, originMatches, now) => IngestWrite(t, s, c, originMatches, now).0
    case Gone(r, target, now) => HandleGone(t, r, target, now)
    case Relocate(g, u) => RelocateFeed(t, g, u)
    case Retire(g, withBlocks, now) => if g in t.feeds then RetireFeed(t, g, AdminRetired, withBlocks, now) else t
    case Release(g, now) => ReleaseHold(t, g, now)
    case Decide(u, d) => DecideGuidChange(t, u, d)
  }

  /** A run of the primary from empty tables. */
  predicate IsRun(states: seq<Tables>, actions: seq<Action>) {
    && |states| == |actions| + 1
    && states[0] == EMPTY_TABLES
    && forall i :: 0 <= i < |actions| ==> Enabled(states[i], actions[i]) && states[i + 1] == Next(states[i], actions[i])
  }
}
