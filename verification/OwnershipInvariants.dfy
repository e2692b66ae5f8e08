/**
 The ownership tables seen one record at a time: what each writer does to the
 rows of one GUID, and what every step keeps.
 */
module OwnershipInvariants {
  import opened Basics
  import opened Cooldown
  import opened Ownership

  /** All rows of one GUID. */
  datatype Record = Record(
    feed: Option<FeedRow>,
    left: set<Url>,
    state: Option<MoveState>,
    gone: Option<GoneAnswer>,
    hold: Option<Hold>)

  function Lookup<K, V>(m: map<K, V>, k: K): Option<V> {
    if k in m then Some(m[k]) else None
  }

  function RecordOf(t: Tables, g: Guid): Record {
    Record(Lookup(t.feeds, g), LeftUrls(t, g), Lookup(t.moveStates, g), Lookup(t.goneAnswers, g), Lookup(t.holds, g))
  }

  /** A record that a delete leaves: only its hold can stay. */
  function Deleted(hold: Option<Hold>): Record {
    Record(None, {}, None, None, hold)
  }

  function ClockOf(r: Record): ReturnClock {
    if r.state.Some? then r.state.value.clock else ReturnClock(0, None)
  }

  // ── the writers, one record at a time ──────────────────────────────────

  lemma DeleteFeedRecord(t: Tables, g: Guid, h: Guid)
    ensures RecordOf(DeleteFeed(t, g), h) == if h == g then Deleted(RecordOf(t, g).hold) else RecordOf(t, h)
  {}

  lemma RetireFeedRecord(t: Tables, g: Guid, reason: RetireReason, withBlocks: bool, now: I64, h: Guid)
    ensures RecordOf(RetireFeed(t, g, reason, withBlocks, now), h) ==
            if h != g then RecordOf(t, h)
            else if !withBlocks && g in t.feeds then Deleted(Some(Hold(t.feeds[g].url, reason, now, None)))
            else Deleted(RecordOf(t, g).hold)
  {
    DeleteFeedRecord(t, g, h);
  }

  lemma TransitionRecord(t: Tables, oldGuid: Guid, newGuid: Guid, u: Url, now: I64, h: Guid)
    ensures RecordOf(GuidChangeTransition(t, oldGuid, newGuid, u, now), h) ==
            if h == oldGuid then Deleted(RecordOf(t, oldGuid).hold) else RecordOf(t, h)
  {
    DeleteFeedRecord(t, oldGuid, h);
  }

  /** The move state after `write_feed_move`. */
  function MovedState(r: Record, mv: FeedMoveWrite): MoveState {
    MoveState(mv.arrivalTag, false, if mv.returnValues.Some? then mv.returnValues.value else ClockOf(r))
  }

  lemma WriteFeedMoveRecord(t: Tables, g: Guid, mv: FeedMoveWrite, h: Guid)
    ensures RecordOf(WriteFeedMove(t, g, mv), h) ==
            if h != g then RecordOf(t, h)
            else RecordOf(t, g).(left := LeftUrls(t, g) + {mv.oldUrl} - {mv.newUrl},
                                 state := Some(MovedState(RecordOf(t, g), mv)))
  {}

  lemma RelocationRecord(t: Tables, g: Guid, oldUrl: Url, newUrl: Url, h: Guid)
    ensures RecordOf(WriteRelocationState(t, g, oldUrl, newUrl), h) ==
            if h != g then RecordOf(t, h)
            else RecordOf(t, g).(left := LeftUrls(t, g) + {oldUrl} - {newUrl},
                                 state := Some(MoveState(None, true, ReturnClock(0, ClockOf(RecordOf(t, g)).last))))
  {}

  /** The move state after `clear_arrival_tag_unless`. */
  function ClearedState(state: Option<MoveState>, tag: Option<Url>): Option<MoveState> {
    match state
    case None => None
    case Some(m) => Some(m.(arrivalTag := if m.pending || m.arrivalTag == tag then tag else None, pending := false))
  }

  lemma ClearArrivalTagRecord(t: Tables, g: Guid, tag: Option<Url>, h: Guid)
    ensures RecordOf(ClearArrivalTagUnless(t, g, tag), h) ==
            if h != g then RecordOf(t, h)
            else RecordOf(t, g).(state := ClearedState(RecordOf(t, g).state, tag))
  {}

  /** The rows of the declared GUID after an accepted submission. */
  function AdmittedRecord(r: Record, url: Url, body: Body, mv: Option<FeedMoveWrite>): Record {
    Record(
      Some(FeedRow(url, body, body.lastBuildDate, body.newFeedUrl, SelfLink(body.links))),
      if mv.Some? then r.left + {mv.value.oldUrl} - {mv.value.newUrl} else r.left,
      if mv.Some? then Some(MovedState(r, mv.value)) else ClearedState(r.state, body.newFeedUrl),
      None,
      None)
  }

  lemma UpsertFeedRecord(t: Tables, g: Guid, url: Url, body: Body, h: Guid)
    ensures var r, r' := RecordOf(t, g), RecordOf(UpsertFeedRow(t, g, url, body), h);
            if h != g then r' == RecordOf(t, h)
            else
              && r'.feed.Some? && r'.feed.value.url == url && r'.feed.value.body == body
              && r'.feed.value.lastBuildDate == body.lastBuildDate
              && r' == Record(r'.feed, r.left, r.state, None, None)
  {}

  lemma IngestTransactionRecord(t: Tables, g: Guid, url: Url, body: Body, mv: Option<FeedMoveWrite>, h: Guid)
    requires IngestTransaction(t, g, url, body, mv).Some?
    ensures var r, r' := RecordOf(t, g), RecordOf(IngestTransaction(t, g, url, body, mv).value, h);
            if h != g then r' == RecordOf(t, h)
            else
              && r'.feed.Some? && r'.feed.value.url == url && r'.feed.value.body == body
              && r'.feed.value.lastBuildDate == body.lastBuildDate
              && r' == Record(r'.feed,
                              if mv.Some? then r.left + {mv.value.oldUrl} - {mv.value.newUrl} else r.left,
                              if mv.Some? then Some(MovedState(r, mv.value)) else r.state,
                              None, None)
  {
    UpsertFeedRecord(t, g, url, body, g);
    UpsertFeedRecord(t, g, url, body, h);
    if mv.Some? { WriteFeedMoveRecord(UpsertFeedRow(t, g, url, body), g, mv.value, h); }
  }

  lemma DeclarationsRecord(t: Tables, g: Guid, body: Body, moved: bool, h: Guid)
    requires g in t.feeds
    ensures RecordOf(WriteDeclarations(t, g, body, moved), h) ==
            if h != g then RecordOf(t, h)
            else
              var r := RecordOf(t, g);
              r.(feed := Some(t.feeds[g].(declaredSelf := SelfLink(body.links), declaredNew := body.newFeedUrl)),
                 state := if moved then r.state else ClearedState(r.state, body.newFeedUrl))
  {
    var row := t.feeds[g].(declaredSelf := SelfLink(body.links), declaredNew := body.newFeedUrl);
    ClearArrivalTagRecord(t.(feeds := t.feeds[g := row]), g, body.newFeedUrl, h);
  }

  // ── the invariant ──────────────────────────────────────────────────────

  ghost predicate UrlsUnique(t: Tables) {
    forall g, h :: g in t.feeds && h in t.feeds && t.feeds[g].url == t.feeds[h].url ==> g == h
  }

  /**
   A GUID with no record has no row but its hold; a record has no hold, its
   source URL is not a left URL, and its arrival tag is absent or equals the
   declared `itunes:new-feed-url`.
   */
  predicate RecordInv(r: Record) {
    && (r.feed.None? ==> r.left == {} && r.state == None && r.gone == None)
    && (r.feed.Some? ==>
          && r.hold == None
          && r.feed.value.url !in r.left
          && (r.state.Some? && r.state.value.arrivalTag.Some? ==> r.state.value.arrivalTag == r.feed.value.declaredNew))
    && (r.state.Some? ==>
          && (r.state.value.pending ==> r.state.value.arrivalTag == None)
          && r.state.value.clock.count >= 0
          && (r.state.value.clock.count >= 1 ==> r.state.value.clock.last.Some?))
  }

  ghost predicate Inv(t: Tables) {
    UrlsUnique(t) && forall g :: RecordInv(RecordOf(t, g))
  }

  /** What the arguments of `Admit` satisfy at each call. */
  predicate AdmitArguments(t: Tables, s: Submission, mv: Option<FeedMoveWrite>, transition: Option<Guid>) {
    && (mv.Some? ==>
          && s.guid in t.feeds && transition.None?
          && mv.value.oldUrl == t.feeds[s.guid].url
          && mv.value.newUrl in {s.sourceUrl, s.canonicalUrl}
          && mv.value.arrivalTag == s.body.newFeedUrl
          && (mv.value.returnValues.Some? ==>
                mv.value.returnValues.value.count >= 1 && mv.value.returnValues.value.last.Some?))
    && (transition.Some? ==> s.guid !in t.feeds && transition.value in Conflicts(t, s))
    && (transition.None? ==> Conflicts(t, s) == {})
  }

  /** The URL that an accepted submission stores. */
  function AdmittedUrl(t: Tables, s: Submission, mv: Option<FeedMoveWrite>): Url {
    if mv.Some? then mv.value.newUrl
    else if s.guid in t.feeds then t.feeds[s.guid].url
    else s.canonicalUrl
  }

  /** No other record holds the URL that an accepted submission stores. */
  ghost predicate UrlFree(t: Tables, g: Guid, url: Url) {
    forall h :: h in t.feeds && h != g ==> t.feeds[h].url != url
  }

  /**
   The `UNIQUE` constraint refuses a submission exactly when its transition
   retired one record and a third record still holds the canonical URL.
   */
  lemma AdmitUniqueExactly(t: Tables, s: Submission, mv: Option<FeedMoveWrite>, transition: Option<Guid>)
    requires Inv(t) && AdmitArguments(t, s, mv, transition)
    ensures var t1 := if transition.Some? then DeleteFeed(t, transition.value) else t;
            UrlFree(t1, s.guid, AdmittedUrl(t, s, mv)) <==>
            !(transition.Some? && exists h :: h in Conflicts(t, s) && h != transition.value && t.feeds[h].url == s.canonicalUrl)
  {
    var url := AdmittedUrl(t, s, mv);
    if transition.None? {
      forall h | h in t.feeds && h != s.guid
        ensures t.feeds[h].url != url
      {
        assert h !in Conflicts(t, s);
      }
    } else {
      var t1 := DeleteFeed(t, transition.value);
      forall h | h in t1.feeds && h != s.guid && t1.feeds[h].url == url
        ensures h in Conflicts(t, s) && h != transition.value
      {}
    }
  }

  /** An accepted submission, one record at a time. */
  lemma AdmitRecord(t: Tables, s: Submission, mv: Option<FeedMoveWrite>, transition: Option<Guid>, now: I64, h: Guid)
    requires Inv(t) && AdmitArguments(t, s, mv, transition)
    ensures var (t', out) := Admit(t, s, mv, transition, now);
            RecordOf(t', h) ==
            if out == Accepted && h == s.guid then AdmittedRecord(RecordOf(t, h), AdmittedUrl(t, s, mv), s.body, mv)
            else if out != TooManyTracks && transition == Some(h) then Deleted(RecordOf(t, h).hold)
            else RecordOf(t, h)
  {
    if TracksOf(s.body) <= MAX_TRACKS_PER_INGEST {
      var t1 := t;
      if transition.Some? {
        t1 := GuidChangeTransition(t, transition.value, s.guid, s.sourceUrl, now);
        TransitionRecord(t, transition.value, s.guid, s.sourceUrl, now, h);
        TransitionRecord(t, transition.value, s.guid, s.sourceUrl, now, s.guid);
      }
      var url := AdmittedUrl(t, s, mv);
      if IngestTransaction(t1, s.guid, url, s.body, mv).Some? {
        var t2 := IngestTransaction(t1, s.guid, url, s.body, mv).value;
        IngestTransactionRecord(t1, s.guid, url, s.body, mv, h);
        IngestTransactionRecord(t1, s.guid, url, s.body, mv, s.guid);
        assert s.guid in t2.feeds by { assert RecordOf(t2, s.guid).feed.Some?; }
        DeclarationsRecord(t2, s.guid, s.body, mv.Some?, h);
      }
    }
  }

  lemma AdmitOutcome(t: Tables, s: Submission, mv: Option<FeedMoveWrite>, transition: Option<Guid>, now: I64)
    requires Inv(t) && AdmitArguments(t, s, mv, transition)
    ensures var out := Admit(t, s, mv, transition, now).1;
            && out in {TooManyTracks, UniqueViolation, Accepted}
            && (out == TooManyTracks <==> TracksOf(s.body) > MAX_TRACKS_PER_INGEST)
            && (out == UniqueViolation <==>
                  && TracksOf(s.body) <= MAX_TRACKS_PER_INGEST
                  && transition.Some?
                  && exists h :: h in Conflicts(t, s) && h != transition.value && t.feeds[h].url == s.canonicalUrl)
            && (out == Accepted ==>
                  UrlFree(if transition.Some? then DeleteFeed(t, transition.value) else t, s.guid, AdmittedUrl(t, s, mv)))
  {
    AdmitUniqueExactly(t, s, mv, transition);
  }

  lemma AdmittedRecordInv(r: Record, url: Url, body: Body, mv: Option<FeedMoveWrite>)
    requires RecordInv(r)
    requires mv.Some? ==>
               && r.feed.Some? && mv.value.newUrl == url && mv.value.arrivalTag == body.newFeedUrl
               && (mv.value.returnValues.Some? ==>
                     mv.value.returnValues.value.count >= 1 && mv.value.returnValues.value.last.Some?)
    requires mv.None? && r.feed.Some? ==> url == r.feed.value.url
    ensures RecordInv(AdmittedRecord(r, url, body, mv))
  {}

  /**
   Two states whose records agree, except that some are gone and one has a URL
   that no remaining record holds, keep unique URLs.
   */
  lemma UniqueAfterChange(t: Tables, t': Tables, g: Guid)
    requires UrlsUnique(t)
    requires forall h :: h != g && h in t'.feeds ==> h in t.feeds && t'.feeds[h].url == t.feeds[h].url
    requires g in t'.feeds ==> UrlFree(t', g, t'.feeds[g].url)
    ensures UrlsUnique(t')
  {}

  lemma AdmitKeepsRecordInv(t: Tables, s: Submission, mv: Option<FeedMoveWrite>, transition: Option<Guid>, now: I64, h: Guid)
    requires Inv(t) && AdmitArguments(t, s, mv, transition)
    ensures RecordInv(RecordOf(Admit(t, s, mv, transition, now).0, h))
  {
    assert RecordInv(RecordOf(t, h));
    AdmitRecord(t, s, mv, transition, now, h);
    if h == s.guid {
      AdmittedRecordInv(RecordOf(t, h), AdmittedUrl(t, s, mv), s.body, mv);
    }
  }

  lemma AdmitKeepsUrlsUnique(t: Tables, s: Submission, mv: Option<FeedMoveWrite>, transition: Option<Guid>, now: I64)
    requires Inv(t) && AdmitArguments(t, s, mv, transition)
    ensures UrlsUnique(Admit(t, s, mv, transition, now).0)
  {
    var (t', out) := Admit(t, s, mv, transition, now);
    AdmitOutcome(t, s, mv, transition, now);
    forall h | h in t'.feeds && (h != s.guid || out != Accepted)
      ensures h in t.feeds && t'.feeds[h].url == t.feeds[h].url && (out == Accepted ==> Some(h) != transition)
    {
      FeedAfterAdmit(t, s, mv, transition, now, h);
    }
    if out == Accepted {
      FeedAfterAdmit(t, s, mv, transition, now, s.guid);
      assert UrlFree(t', s.guid, AdmittedUrl(t, s, mv));
      UniqueAfterChange(t, t', s.guid);
    }
  }

  lemma FeedAfterAdmit(t: Tables, s: Submission, mv: Option<FeedMoveWrite>, transition: Option<Guid>, now: I64, h: Guid)
    requires Inv(t) && AdmitArguments(t, s, mv, transition)
    ensures var (t', out) := Admit(t, s, mv, transition, now);
            if out == Accepted && h == s.guid then h in t'.feeds && t'.feeds[h].url == AdmittedUrl(t, s, mv)
            else h in t'.feeds ==>
                   h in t.feeds && t'.feeds[h].url == t.feeds[h].url && (out == Accepted ==> Some(h) != transition)
  {
    var (t', out) := Admit(t, s, mv, transition, now);
    AdmitRecord(t, s, mv, transition, now, h);
    AdmitOutcome(t, s, mv, transition, now);
    assert RecordOf(t', h).feed == Lookup(t'.feeds, h);
    assert RecordOf(t, h).feed == Lookup(t.feeds, h);
  }

  lemma AdmitKeepsInv(t: Tables, s: Submission, mv: Option<FeedMoveWrite>, transition: Option<Guid>, now: I64)
    requires Inv(t) && AdmitArguments(t, s, mv, transition)
    ensures Inv(Admit(t, s, mv, transition, now).0)
  {
    forall h ensures RecordInv(RecordOf(Admit(t, s, mv, transition, now).0, h)) {
      AdmitKeepsRecordInv(t, s, mv, transition, now, h);
    }
    AdmitKeepsUrlsUnique(t, s, mv, transition, now);
  }
}
