/**
 The writer-lock sections of the primary, statement by statement, over tables
 that are updated in place. `State` gives the value of the tables, and each
 method is proved to make exactly the step that `Ownership` defines.
 */
module RecordStore {
  import opened Basics
  import opened Cooldown
  import opened Ownership

  class RecordStore {
    var feeds: map<Guid, FeedRow>
    var leftUrls: map<Guid, set<Url>>
    var moveStates: map<Guid, MoveState>
    var goneAnswers: map<Guid, GoneAnswer>
    var holds: map<Guid, Hold>
    var guidChanges: map<Url, GuidChange>
    var supersessions: map<Guid, Supersession>

    function State(): Tables
      reads this
    {
      Tables(feeds, leftUrls, moveStates, goneAnswers, holds, guidChanges, supersessions)
    }

    constructor ()
      ensures State() == EMPTY_TABLES
    {
      feeds, leftUrls, moveStates, goneAnswers := map[], map[], map[], map[];
      holds, guidChanges, supersessions := map[], map[], map[];
    }

    // ── reads ────────────────────────────────────────────────────────────

    /** The two queries of `classify_submission`, in its order. */
    method ClassifySubmission(s: Submission) returns (c: SubmissionClass)
      ensures Classifies(State(), s, c)
    {
      if h :| h in feeds && h != s.guid && (feeds[h].url == s.sourceUrl || feeds[h].url == s.canonicalUrl) {
        assert h in Conflicts(State(), s);
        c := if s.guid in feeds then RecordConflict else GuidChanged(h);
      } else {
        assert Conflicts(State(), s) == {};
        if s.guid !in feeds {
          c := NewFeed;
        } else if feeds[s.guid].url == s.sourceUrl || feeds[s.guid].url == s.canonicalUrl {
          c := Update;
        } else {
          c := Mirror(feeds[s.guid].url);
        }
      }
    }

    /** The scan of a body's links for its self link. */
    method FindSelfLink(links: seq<Link>) returns (url: Option<Url>)
      ensures url == SelfLink(links)
    {
      var i := 0;
      while i < |links|
        invariant 0 <= i <= |links|
        invariant SelfLink(links) == SelfLink(links[i..])
      {
        if links[i].linkType == "self_feed" {
          return Some(links[i].url);
        }
        i := i + 1;
      }
      url := None;
    }

    /** The test of each redirect status. */
    method AllPermanent(redirects: seq<nat>) returns (all: bool)
      ensures all <==> forall i :: 0 <= i < |redirects| ==> redirects[i] in {301, 308}
    {
      for i := 0 to |redirects|
        invariant forall k :: 0 <= k < i ==> redirects[k] in {301, 308}
      {
        if redirects[i] != 301 && redirects[i] != 308 {
          return false;
        }
      }
      all := true;
    }

    method FindMove(s: Submission, c: SubmissionClass, now: I64) returns (d: MoveDecision)
      requires Classifies(State(), s, c)
      ensures d == MoveTarget(State(), s, c, now)
    {
      d := NoTrigger;
      match c {
        case Mirror(_) =>
          var row := feeds[s.guid];
          var target := row.declaredNew;
          var trigger := NewFeedUrlTag;
          if target.None? || (target.value != s.sourceUrl && target.value != s.canonicalUrl) {
            target, trigger := row.declaredSelf, SelfLinkMatch;
          }
          if target.None? || (target.value != s.sourceUrl && target.value != s.canonicalUrl) {
            return;
          }
          if target.value !in LeftUrls(State(), s.guid) {
            return Move(target.value, trigger, None);
          }
          var state := GetMoveState(State(), s.guid);
          var tagAtNewUrl := s.body.newFeedUrl == target;
          var declaredIsArrival := state.arrivalTag == target;
          if trigger == NewFeedUrlTag && tagAtNewUrl && !declaredIsArrival && !Waiting(state.clock, now) {
            return Move(target.value, trigger, Some(NextReturnValues(state.clock, now)));
          }
          d := Refused(target.value);
        case Update =>
          var stored := feeds[s.guid].url;
          var permanent := AllPermanent(s.redirects);
          if s.sourceUrl != stored || s.redirects == [] || s.canonicalUrl == stored || !permanent {
            return;
          }
          var returnValues := None;
          if s.canonicalUrl in LeftUrls(State(), s.guid) {
            var state := GetMoveState(State(), s.guid);
            if Waiting(state.clock, now) {
              return WaitingRedirect(s.canonicalUrl);
            }
            returnValues := Some(NextReturnValues(state.clock, now));
          }
          d := Move(s.canonicalUrl, PermanentRedirect, returnValues);
        case _ =>
      }
    }

    // ── table writers ────────────────────────────────────────────────────

    method AddLeftUrl(g: Guid, u: Url)
      modifies `leftUrls
      ensures State() == Ownership.AddLeftUrl(old(State()), g, u)
    {
      var held := if g in leftUrls then leftUrls[g] else {};
      leftUrls := leftUrls[g := held + {u}];
    }

    method RemoveLeftUrl(g: Guid, u: Url)
      modifies `leftUrls
      ensures State() == Ownership.RemoveLeftUrl(old(State()), g, u)
    {
      if g in leftUrls {
        leftUrls := leftUrls[g := leftUrls[g] - {u}];
      }
    }

    method WriteFeedMove(g: Guid, mv: FeedMoveWrite)
      modifies `leftUrls, `moveStates
      ensures State() == Ownership.WriteFeedMove(old(State()), g, mv)
    {
      AddLeftUrl(g, mv.oldUrl);
      RemoveLeftUrl(g, mv.newUrl);
      if g in moveStates {
        moveStates := moveStates[g := moveStates[g].(arrivalTag := mv.arrivalTag, pending := false)];
      } else {
        moveStates := moveStates[g := MoveState(mv.arrivalTag, false, ReturnClock(0, None))];
      }
      if mv.returnValues.Some? {
        moveStates := moveStates[g := moveStates[g].(clock := mv.returnValues.value)];
      }
    }

    method WriteRelocationState(g: Guid, oldUrl: Url, newUrl: Url)
      modifies `leftUrls, `moveStates
      ensures State() == Ownership.WriteRelocationState(old(State()), g, oldUrl, newUrl)
    {
      AddLeftUrl(g, oldUrl);
      RemoveLeftUrl(g, newUrl);
      if g in moveStates {
        var state := moveStates[g];
        moveStates := moveStates[g := state.(arrivalTag := None, pending := true,
                                             clock := state.clock.(count := 0))];
      } else {
        moveStates := moveStates[g := MoveState(None, true, ReturnClock(0, None))];
      }
    }

    method ClearArrivalTagUnless(g: Guid, tag: Option<Url>)
      modifies `moveStates
      ensures State() == Ownership.ClearArrivalTagUnless(old(State()), g, tag)
    {
      if g in moveStates {
        var state := moveStates[g];
        if state.pending {
          state := state.(arrivalTag := tag);
        } else if state.arrivalTag != tag {
          state := state.(arrivalTag := None);
        }
        moveStates := moveStates[g := state.(pending := false)];
      }
    }

    method DeleteFeed(g: Guid)
      modifies `feeds, `leftUrls, `moveStates, `goneAnswers
      ensures State() == Ownership.DeleteFeed(old(State()), g)
    {
      leftUrls := leftUrls - {g};
      moveStates := moveStates - {g};
      feeds := feeds - {g};
      goneAnswers := goneAnswers - {g};
    }

    /** The hold is read before the row goes, and written after. */
    method RetireFeed(g: Guid, reason: RetireReason, withBlocks: bool, now: I64)
      modifies this
      ensures State() == Ownership.RetireFeed(old(State()), g, reason, withBlocks, now)
    {
      var heldUrl := if !withBlocks && g in feeds then Some(feeds[g].url) else None;
      DeleteFeed(g);
      if heldUrl.Some? {
        holds := holds[g := Hold(heldUrl.value, reason, now, None)];
      }
    }

    /** `ok` is false when the `UNIQUE` constraint of `feed_url` refuses the row. */
    method IngestTransaction(g: Guid, url: Url, body: Body, mv: Option<FeedMoveWrite>) returns (ok: bool)
      modifies this
      ensures var written := Ownership.IngestTransaction(old(State()), g, url, body, mv);
              ok == written.Some? && State() == if ok then written.value else old(State())
    {
      if h :| h in feeds && h != g && feeds[h].url == url {
        assert HeldByAnother(State(), g, url);
        return false;
      }
      assert !HeldByAnother(State(), g, url);
      if g in feeds {
        feeds := feeds[g := feeds[g].(url := url, body := body, lastBuildDate := body.lastBuildDate)];
      } else {
        feeds := feeds[g := FeedRow(url, body, body.lastBuildDate, None, None)];
      }
      goneAnswers := goneAnswers - {g};
      holds := holds - {g};
      if mv.Some? {
        WriteFeedMove(g, mv.value);
      }
      ok := true;
    }

    method WriteDeclarations(g: Guid, body: Body, moved: bool)
      modifies this
      ensures State() == Ownership.WriteDeclarations(old(State()), g, body, moved)
    {
      hide SelfLink, Ownership.ClearArrivalTagUnless;
      if g !in feeds {
        return;
      }
      var self := FindSelfLink(body.links);
      feeds := feeds[g := feeds[g].(declaredSelf := self)];
      feeds := feeds[g := feeds[g].(declaredNew := body.newFeedUrl)];
      assert feeds == old(feeds)[g := old(feeds)[g].(declaredSelf := self, declaredNew := body.newFeedUrl)];
      if !moved {
        ClearArrivalTagUnless(g, body.newFeedUrl);
      }
    }

    method GuidChangeTransition(oldGuid: Guid, newGuid: Guid, sourceUrl: Url, now: I64)
      modifies this
      ensures State() == Ownership.GuidChangeTransition(old(State()), oldGuid, newGuid, sourceUrl, now)
    {
      DeleteFeed(oldGuid);
      if oldGuid !in supersessions {
        supersessions := supersessions[oldGuid := Supersession(newGuid, sourceUrl, now)];
      }
      guidChanges := guidChanges - {sourceUrl};
    }

    /** Writes or updates the pending row, unless the operator rejected it. */
    method RecordPendingGuidChange(s: Submission, held: Guid, now: I64) returns (rejected: bool)
      modifies `guidChanges
      ensures rejected == Rejected(old(State()), s)
      ensures State() == if rejected then old(State()) else WritePendingGuidChange(old(State()), s, held, now)
    {
      var u := s.sourceUrl;
      if u in guidChanges && guidChanges[u].newGuid == s.guid && guidChanges[u].decision == Some(Reject) {
        return true;
      }
      var isNewOrChanged := u !in guidChanges || guidChanges[u].newGuid != s.guid;
      var firstSeen := if isNewOrChanged then now else guidChanges[u].firstSeen;
      var decision := if isNewOrChanged then None else guidChanges[u].decision;
      guidChanges := guidChanges[u := GuidChange(held, s.guid, firstSeen, Some(now), decision)];
      rejected := false;
    }

    // ── handlers ─────────────────────────────────────────────────────────

    /**
     The write phase of `handle_ingest_feed`. The match decides the locals
     `recordMove`, `moveReturn` and `pendingTransition`, or answers at once;
     what follows it runs for each submission that passes the match.
     */
    method HandleIngest(s: Submission, originMatches: bool, now: I64) returns (c: SubmissionClass, outcome: Outcome)
      modifies this
      ensures Classifies(old(State()), s, c)
      ensures (State(), outcome) == IngestWrite(old(State()), s, c, originMatches, now)
    {
      var recordMove: Option<(Url, Url)> := None;
      var moveReturn: Option<ReturnClock> := None;
      var pendingTransition: Option<Guid> := None;

      c := ClassifySubmission(s);
      match c {
        case Update =>
          if IsStale(feeds[s.guid], s.body) {
            return c, StaleSubmission;
          }
          if s.body.blocksThisIndex {
            RetireFeed(s.guid, PodcastBlock, false, now);
            return c, SourceBlocked;
          }
          guidChanges := guidChanges - {s.sourceUrl};
          var d := FindMove(s, c, now);
          if d.Move? {
            moveReturn := d.returnValues;
            recordMove := Some((s.sourceUrl, d.newUrl));
          }
        case NewFeed =>
          if HoldRejects(State(), s) {
            return c, RetiredSourceConflict;
          }
          if s.body.blocksThisIndex {
            return c, SourceBlocked;
          }
        case Mirror(storedUrl) =>
          var d := FindMove(s, c, now);
          if !d.Move? {
            return c, SourceConflict;
          }
          moveReturn := d.returnValues;
          recordMove := Some((storedUrl, d.newUrl));
        case RecordConflict =>
          return c, RecordConflicted;
        case GuidChanged(held) =>
          if originMatches || Approved(State(), s) {
            pendingTransition := Some(held);
          } else {
            var rejected := RecordPendingGuidChange(s, held, now);
            return c, if rejected then GuidChangeRejected else GuidChangePending;
          }
      }
      outcome := AdmitSubmission(s, recordMove, moveReturn, pendingTransition, now);
    }

    /** Steps 3b to 11a of `handle_ingest_feed`. */
    method AdmitSubmission(s: Submission, recordMove: Option<(Url, Url)>, moveReturn: Option<ReturnClock>,
                           pendingTransition: Option<Guid>, now: I64) returns (outcome: Outcome)
      modifies this
      ensures var mv := if recordMove.None? then None
                        else Some(FeedMoveWrite(recordMove.value.0, recordMove.value.1, s.body.newFeedUrl, moveReturn));
              (State(), outcome) == Admit(old(State()), s, mv, pendingTransition, now)
    {
      var tracks := if s.body.musicL then 0 else s.body.trackCount;
      if tracks > MAX_TRACKS_PER_INGEST {
        return TooManyTracks;
      }
      var url := s.canonicalUrl;
      if recordMove.Some? {
        url := recordMove.value.1;
      } else if s.guid in feeds {
        url := feeds[s.guid].url;
      }
      if pendingTransition.Some? {
        GuidChangeTransition(pendingTransition.value, s.guid, s.sourceUrl, now);
      }
      var mv := None;
      if recordMove.Some? {
        mv := Some(FeedMoveWrite(recordMove.value.0, recordMove.value.1, s.body.newFeedUrl, moveReturn));
      }
      var ok := IngestTransaction(s.guid, url, s.body, mv);
      if !ok {
        return UniqueViolation;
      }
      WriteDeclarations(s.guid, s.body, recordMove.Some?);
      outcome := Accepted;
    }

    method HandleSourceGoneReport(r: GoneReport, now: I64) returns (target: Option<Guid>)
      modifies this
      ensures NamesTarget(old(State()), r, target)
      ensures State() == HandleGone(old(State()), r, target, now)
    {
      target := None;
      if r.urlBlocked || !ReportCounts(r) {
        return;
      }
      if h :| h in feeds && feeds[h].url == r.sourceUrl {
        assert h in Holders(State(), r.sourceUrl);
        target := Some(h);
        if h in goneAnswers && Wrap(now - goneAnswers[h].firstGoneAt) >= SOURCE_GONE_RETIRE_AFTER_SECS {
          RetireFeed(h, SourceGone, false, now);
        } else if h in goneAnswers {
          goneAnswers := goneAnswers[h := goneAnswers[h].(lastGoneAt := now, lastStatus := r.status)];
        } else {
          goneAnswers := goneAnswers[h := GoneAnswer(r.sourceUrl, now, now, r.status)];
        }
      } else {
        assert Holders(State(), r.sourceUrl) == {};
      }
    }

    method RelocateFeed(g: Guid, newUrl: Url) returns (relocated: bool)
      modifies this
      ensures State() == Ownership.RelocateFeed(old(State()), g, newUrl)
      ensures relocated == (g in old(feeds) && !HeldByAnother(old(State()), g, newUrl))
    {
      hide Ownership.WriteRelocationState;
      if h :| h in feeds && h != g && feeds[h].url == newUrl {
        assert HeldByAnother(State(), g, newUrl);
        return false;
      }
      assert !HeldByAnother(State(), g, newUrl);
      if g !in feeds {
        return false;
      }
      var oldUrl := feeds[g].url;
      feeds := feeds[g := feeds[g].(url := newUrl, lastBuildDate := None)];
      feeds := feeds[g := feeds[g].(declaredSelf := None)];
      feeds := feeds[g := feeds[g].(declaredNew := None)];
      assert feeds == old(feeds)[g := old(feeds)[g].(url := newUrl, lastBuildDate := None, declaredSelf := None, declaredNew := None)];
      WriteRelocationState(g, oldUrl, newUrl);
      relocated := true;
    }
  }
}
