/**
 The rules of ADR 0051 to ADR 0083 with each condition written out on the
 submission and the stored rows: when a submission moves a record, which answer
 it gets, and what the decisions of an operator allow.
 */
module OwnershipLaws {
  import opened Basics
  import opened Cooldown
  import opened Ownership
  import opened OwnershipInvariants
  import opened OwnershipSteps
  import opened OwnershipRuns

  // ── the self link ──────────────────────────────────────────────────────

  /** The self link of a body is the URL of the first link of type `self_feed`, and absent when there is none. */
  lemma {:induction false} SelfLinkIsFirst(links: seq<Link>)
    ensures SelfLink(links) == None <==> forall i :: 0 <= i < |links| ==> links[i].linkType != "self_feed"
    ensures SelfLink(links) != None ==>
              exists i :: 0 <= i < |links| && links[i].linkType == "self_feed" && SelfLink(links) == Some(links[i].url) &&
                          forall j :: 0 <= j < i ==> links[j].linkType != "self_feed"
  {
    if links != [] && links[0].linkType != "self_feed" {
      SelfLinkIsFirst(links[1..]);
      assert links == [links[0]] + links[1..];
      if SelfLink(links) != None {
        var i :| 0 <= i < |links[1..]| && links[1..][i].linkType == "self_feed" && SelfLink(links[1..]) == Some(links[1..][i].url) &&
                 forall j :: 0 <= j < i ==> links[1..][j].linkType != "self_feed";
        assert links[i + 1] == links[1..][i];
        forall j | 0 <= j < i + 1
          ensures links[j].linkType != "self_feed"
        {
          assert j > 0 ==> links[j] == links[1..][j - 1];
        }
      }
    }
  }

  // ── moves ──────────────────────────────────────────────────────────────

  /** ADR 0052 section 2 and ADR 0083 section 6: an update moves its record by a permanent redirect alone. */
  lemma RedirectMovesExactly(t: Tables, s: Submission, now: I64)
    requires Classifies(t, s, Update)
    ensures var held, d := t.feeds[s.guid].url, MoveTarget(t, s, Update, now);
            d != NoTrigger <==>
            && s.sourceUrl == held
            && s.canonicalUrl != held
            && s.redirects != []
            && forall i :: 0 <= i < |s.redirects| ==> s.redirects[i] == 301 || s.redirects[i] == 308
    ensures var clock, d := GetMoveState(t, s.guid).clock, MoveTarget(t, s, Update, now);
            d != NoTrigger ==>
              d == if s.canonicalUrl !in LeftUrls(t, s.guid) then Move(s.canonicalUrl, PermanentRedirect, None)
                   else if Waiting(clock, now) then WaitingRedirect(s.canonicalUrl)
                   else Move(s.canonicalUrl, PermanentRedirect, Some(NextReturnValues(clock, now)))
  {
    var held := t.feeds[s.guid].url;
    if MoveTarget(t, s, Update, now) != NoTrigger {
      assert PermanentRedirectOf(t.feeds[s.guid], s);
      forall i | 0 <= i < |s.redirects|
        ensures s.redirects[i] == 301 || s.redirects[i] == 308
      {
        assert s.redirects[i] in {301, 308};
      }
    }
    if && s.sourceUrl == held && s.canonicalUrl != held && s.redirects != []
       && forall i :: 0 <= i < |s.redirects| ==> s.redirects[i] == 301 || s.redirects[i] == 308 {
      assert PermanentRedirectOf(t.feeds[s.guid], s);
    }
  }

  predicate IsOwn(s: Submission, url: Option<Url>) {
    url == Some(s.sourceUrl) || url == Some(s.canonicalUrl)
  }

  /**
   ADR 0052 section 1 and ADR 0083 section 2: the declared tag comes before the
   declared self link. A declared URL that was not left moves the record; a left
   one does so for a tag alone, with the tag in the body, another arrival tag
   and no wait.
   */
  lemma DeclaredMovesExactly(t: Tables, s: Submission, stored: Url, now: I64)
    requires Classifies(t, s, Mirror(stored))
    ensures var tag, self := t.feeds[s.guid].declaredNew, t.feeds[s.guid].declaredSelf;
            var d := MoveTarget(t, s, Mirror(stored), now);
            && (d == NoTrigger <==> !IsOwn(s, tag) && !IsOwn(s, self))
            && (IsOwn(s, tag) && tag.value !in LeftUrls(t, s.guid) ==> d == Move(tag.value, NewFeedUrlTag, None))
            && (!IsOwn(s, tag) && IsOwn(s, self) ==>
                  d == if self.value in LeftUrls(t, s.guid) then Refused(self.value) else Move(self.value, SelfLinkMatch, None))
    ensures var tag, state := t.feeds[s.guid].declaredNew, GetMoveState(t, s.guid);
            IsOwn(s, tag) && tag.value in LeftUrls(t, s.guid) ==>
              MoveTarget(t, s, Mirror(stored), now) ==
              if s.body.newFeedUrl == tag && state.arrivalTag != tag && !Waiting(state.clock, now)
              then Move(tag.value, NewFeedUrlTag, Some(NextReturnValues(state.clock, now)))
              else Refused(tag.value)
  {
  }

  /** In every run, each source move of an update followed permanent redirects from the stored URL. */
  lemma UpdateMovesFollowedRedirects(states: seq<Tables>, actions: seq<Action>, i: nat, g: Guid)
    requires IsRun(states, actions) && i < |actions|
    requires MovesBySource(states[i], actions[i], g) && actions[i].c == Update
    ensures g in states[i].feeds && g in states[i + 1].feeds
    ensures actions[i].s.sourceUrl == states[i].feeds[g].url
    ensures states[i + 1].feeds[g].url == actions[i].s.canonicalUrl != states[i].feeds[g].url
    ensures var hops := actions[i].s.redirects;
            hops != [] && forall k :: 0 <= k < |hops| ==> hops[k] == 301 || hops[k] == 308
  {
    hide Next, IngestWrite, MoveTarget;
    RunStep(states, actions, i);
    InvAlways(states, actions, i);
    NextFeed(states[i], actions[i], g);
    RedirectMovesExactly(states[i], actions[i].s, actions[i].now);
  }

  /** In every run, each source move of a mirror went to a URL that the source had declared. */
  lemma MirrorMovesWereDeclared(states: seq<Tables>, actions: seq<Action>, i: nat, g: Guid)
    requires IsRun(states, actions) && i < |actions|
    requires MovesBySource(states[i], actions[i], g) && actions[i].c.Mirror?
    ensures g in states[i].feeds && g in states[i + 1].feeds
    ensures var row, url := states[i].feeds[g], states[i + 1].feeds[g].url;
            row.declaredNew == Some(url) || row.declaredSelf == Some(url)
  {
    hide Next, IngestWrite, MoveTarget;
    RunStep(states, actions, i);
    InvAlways(states, actions, i);
    NextFeed(states[i], actions[i], g);
    DeclaredMovesExactly(states[i], actions[i].s, actions[i].c.storedUrl, actions[i].now);
  }

  // ── answers ────────────────────────────────────────────────────────────

  /** ADR 0053 section 3: the submission is older than what is stored. */
  predicate Older(submitted: Option<I64>, stored: Option<I64>) {
    submitted.Some? && stored.Some? && submitted.value < stored.value
  }

  lemma UpdateAnswers(t: Tables, a: Action)
    requires Inv(t) && a.Ingest? && a.c == Update && Enabled(t, a)
    ensures var older := Older(a.s.body.lastBuildDate, t.feeds[a.s.guid].lastBuildDate);
            var body := a.s.body;
            && (OutcomeOf(t, a) == StaleSubmission <==> older)
            && (OutcomeOf(t, a) == SourceBlocked <==> !older && body.blocksThisIndex)
            && (OutcomeOf(t, a) == TooManyTracks <==>
                  !older && !body.blocksThisIndex && !body.musicL && body.trackCount > 500)
            && (OutcomeOf(t, a) == Accepted <==>
                  !older && !body.blocksThisIndex && (body.musicL || body.trackCount <= 500))
  {
    hide Admit, MoveTarget;
    UniqueViolationExactly(t, a);
    if PassesMatch(t, a.s, a.c, a.originMatches, a.now) {
      AdmittedAnswers(t, a);
    }
  }

  /** What follows the match refuses a submission for its tracks or for the UNIQUE constraint. */
  lemma AdmittedAnswers(t: Tables, a: Action)
    requires Inv(t) && a.Ingest? && Enabled(t, a) && PassesMatch(t, a.s, a.c, a.originMatches, a.now)
    ensures OutcomeOf(t, a) in {Accepted, TooManyTracks, UniqueViolation}
    ensures OutcomeOf(t, a) == TooManyTracks <==> !a.s.body.musicL && a.s.body.trackCount > 500
  {
    hide IngestWrite, MoveTarget, PassesMatch, IngestTransaction, WriteDeclarations, GuidChangeTransition;
    IngestCases(t, a.s, a.c, a.originMatches, a.now);
  }

  /** ADR 0079 section 2: an active hold admits its GUID from the held URL alone. */
  lemma NewFeedAnswers(t: Tables, a: Action)
    requires Inv(t) && a.Ingest? && a.c == NewFeed && Enabled(t, a)
    ensures var held := a.s.guid in t.holds && t.holds[a.s.guid].releasedAt == None &&
                        t.holds[a.s.guid].sourceUrl != a.s.sourceUrl && t.holds[a.s.guid].sourceUrl != a.s.canonicalUrl;
            var body := a.s.body;
            && (OutcomeOf(t, a) == RetiredSourceConflict <==> held)
            && (OutcomeOf(t, a) == SourceBlocked <==> !held && body.blocksThisIndex)
            && (OutcomeOf(t, a) == TooManyTracks <==>
                  !held && !body.blocksThisIndex && !body.musicL && body.trackCount > 500)
            && (OutcomeOf(t, a) == Accepted <==>
                  !held && !body.blocksThisIndex && (body.musicL || body.trackCount <= 500))
  {
    hide Admit;
    UniqueViolationExactly(t, a);
    if PassesMatch(t, a.s, a.c, a.originMatches, a.now) {
      AdmittedAnswers(t, a);
    }
  }

  /** ADR 0052 section 4: a changed GUID needs its origin or an approval. */
  lemma GuidChangeAnswers(t: Tables, a: Action)
    requires Inv(t) && a.Ingest? && a.c.GuidChanged? && Enabled(t, a)
    ensures var decided := a.s.sourceUrl in t.guidChanges && t.guidChanges[a.s.sourceUrl].newGuid == a.s.guid;
            var approved := decided && t.guidChanges[a.s.sourceUrl].decision == Some(Approve);
            var rejected := decided && t.guidChanges[a.s.sourceUrl].decision == Some(Reject);
            && (OutcomeOf(t, a) in {Accepted, TooManyTracks, UniqueViolation} <==> a.originMatches || approved)
            && (OutcomeOf(t, a) == GuidChangeRejected <==> !a.originMatches && rejected)
            && (OutcomeOf(t, a) == GuidChangePending <==> !a.originMatches && !approved && !rejected)
  {
    hide Admit;
    if PassesMatch(t, a.s, a.c, a.originMatches, a.now) {
      AdmittedAnswers(t, a);
    }
  }

  /** A mirror is refused exactly when it moves nothing. */
  lemma MirrorAnswers(t: Tables, a: Action)
    requires Inv(t) && a.Ingest? && a.c.Mirror? && Enabled(t, a)
    ensures OutcomeOf(t, a) == SourceConflict <==> !MoveTarget(t, a.s, a.c, a.now).Move?
    ensures OutcomeOf(t, a) in {SourceConflict, Accepted, TooManyTracks}
  {
    hide Admit, MoveTarget;
    UniqueViolationExactly(t, a);
    if PassesMatch(t, a.s, a.c, a.originMatches, a.now) {
      AdmittedAnswers(t, a);
    }
  }

  /** An accepted submission stores its body, its date and its declarations. */
  lemma AcceptedStoresItsBody(t: Tables, a: Action)
    requires Inv(t) && a.Ingest? && Enabled(t, a) && OutcomeOf(t, a) == Accepted
    ensures a.s.guid in Next(t, a).feeds
    ensures var row, body := Next(t, a).feeds[a.s.guid], a.s.body;
            && row.body == body
            && row.lastBuildDate == body.lastBuildDate
            && row.declaredNew == body.newFeedUrl
            && row.declaredSelf == SelfLink(body.links)
  {
    hide IngestWrite, Next, MoveTarget, MoveOf;
    NextFeed(t, a, a.s.guid);
  }

  /** An accepted transition retires the held record, links its GUID once, and leaves no change to decide. */
  lemma AcceptedTransition(t: Tables, a: Action)
    requires Inv(t) && a.Ingest? && a.c.GuidChanged? && Enabled(t, a) && OutcomeOf(t, a) == Accepted
    ensures a.c.heldGuid !in Next(t, a).feeds && a.s.guid in Next(t, a).feeds
    ensures Next(t, a).feeds[a.s.guid].url == a.s.canonicalUrl
    ensures a.s.sourceUrl !in Next(t, a).guidChanges
    ensures a.c.heldGuid in Next(t, a).supersessions
    ensures Next(t, a).supersessions[a.c.heldGuid] ==
            if a.c.heldGuid in t.supersessions then t.supersessions[a.c.heldGuid]
            else Supersession(a.s.guid, a.s.sourceUrl, a.now)
  {
    hide HeldByAnother, SelfLink, LeftUrls, GetMoveState, Approved, Rejected, Inv;
    assert a.s.guid !in t.feeds && a.c.heldGuid != a.s.guid;
  }

  /** A pending change names the last held record and the declared GUID; a new GUID starts undecided. */
  lemma PendingChange(t: Tables, a: Action)
    requires Inv(t) && a.Ingest? && a.c.GuidChanged? && Enabled(t, a) && OutcomeOf(t, a) == GuidChangePending
    ensures a.s.sourceUrl in Next(t, a).guidChanges
    ensures var known := a.s.sourceUrl in t.guidChanges && t.guidChanges[a.s.sourceUrl].newGuid == a.s.guid;
            Next(t, a).guidChanges[a.s.sourceUrl] ==
            GuidChange(a.c.heldGuid, a.s.guid,
                       if known then t.guidChanges[a.s.sourceUrl].firstSeen else a.now, Some(a.now),
                       if known then t.guidChanges[a.s.sourceUrl].decision else None)
    ensures Next(t, a) == t.(guidChanges := t.guidChanges[a.s.sourceUrl := Next(t, a).guidChanges[a.s.sourceUrl]])
  {
    hide Admit, Approved, Rejected, Inv;
    if a.originMatches || Approved(t, a.s) {
      AdmitOutcome(t, a.s, None, Some(a.c.heldGuid), a.now) by {
        MoveArguments(t, a.s, a.c, a.now);
      }
    }
  }

  // ── dates over runs ────────────────────────────────────────────────────

  /** An accepted update never lowers a date, when it has one and one is stored. */
  lemma AcceptedUpdateKeepsDates(t: Tables, a: Action)
    requires Inv(t) && a.Ingest? && a.c == Update && Enabled(t, a) && OutcomeOf(t, a) == Accepted
    ensures a.s.guid in Next(t, a).feeds
    ensures var before, after := t.feeds[a.s.guid].lastBuildDate, Next(t, a).feeds[a.s.guid].lastBuildDate;
            before.Some? && after.Some? ==> before.value <= after.value
  {
    hide IngestWrite, Next;
    UpdateAnswers(t, a);
    AcceptedStoresItsBody(t, a);
  }

  /** From `i` to `j` the record stays, dated, and only updates write it. */
  predicate OnlyUpdated(states: seq<Tables>, actions: seq<Action>, i: nat, j: nat, g: Guid)
    requires IsRun(states, actions) && i <= j < |states|
  {
    && (forall k :: i <= k <= j ==> g in states[k].feeds && states[k].feeds[g].lastBuildDate.Some?)
    && (forall k :: i <= k < j && WritesBody(states[k], actions[k], g) ==> actions[k].c == Update)
    && (forall k :: i <= k < j ==> !Relocates(states[k], actions[k], g))
  }

  lemma DateStep(t: Tables, a: Action, g: Guid)
    requires Inv(t) && Enabled(t, a) && g in t.feeds && g in Next(t, a).feeds
    requires !Relocates(t, a, g) && (WritesBody(t, a, g) ==> a.c == Update)
    ensures var before, after := t.feeds[g].lastBuildDate, Next(t, a).feeds[g].lastBuildDate;
            before.Some? && after.Some? ==> before.value <= after.value
  {
    hide IngestWrite, Next, MoveTarget, MoveOf, AdmittedRecord;
    if WritesBody(t, a, g) {
      AcceptedUpdateKeepsDates(t, a);
    } else {
      NextFeed(t, a, g);
    }
  }

  /** In every run, the date of a record that only updates write never falls. */
  lemma {:induction false} DatesNeverFall(states: seq<Tables>, actions: seq<Action>, i: nat, j: nat, g: Guid)
    requires IsRun(states, actions) && i <= j < |states| && OnlyUpdated(states, actions, i, j, g)
    ensures states[i].feeds[g].lastBuildDate.value <= states[j].feeds[g].lastBuildDate.value
    decreases j
  {
    hide Next, WritesBody, Relocates, Inv, Enabled;
    if i < j {
      DatesNeverFall(states, actions, i, j - 1, g);
      RunStep(states, actions, j - 1);
      InvAlways(states, actions, j - 1);
      DateStep(states[j - 1], actions[j - 1], g);
    }
  }

  // ── gone reports ───────────────────────────────────────────────────────

  /** ADR 0067 section 2: which reports count, and for which record. */
  lemma CountedReportsExactly(t: Tables, r: GoneReport, target: Option<Guid>)
    requires NamesTarget(t, r, target)
    ensures target.Some? <==>
            && !r.urlBlocked
            && r.sourceUrl == r.canonicalUrl
            && r.redirects == []
            && (r.status == 410 || (r.status == 404 && r.hostListed))
            && exists g :: g in t.feeds && t.feeds[g].url == r.sourceUrl
    ensures target.Some? ==> target.value in t.feeds && t.feeds[target.value].url == r.sourceUrl
  {
    assert forall g :: g in Holders(t, r.sourceUrl) <==> g in t.feeds && t.feeds[g].url == r.sourceUrl;
    if Holders(t, r.sourceUrl) != {} {
      var g :| g in Holders(t, r.sourceUrl);
      assert g in t.feeds && t.feeds[g].url == r.sourceUrl;
    }
  }

  /**
   With times after the epoch, a counted report retires its record exactly when
   the first counted one since the last body came a day before it or earlier.
   Any other one only updates the stored answer.
   */
  lemma GoneRetiresExactly(states: seq<Tables>, actions: seq<Action>, n: nat, g: Guid)
    requires IsRun(states, actions) && n < |actions| && actions[n].Gone? && actions[n].target == Some(g)
    ensures var now, first := actions[n].now, FirstCounted(states, actions, n, g);
            now >= 0 && (first.Some? ==> first.value >= 0) ==>
              (g !in states[n + 1].feeds <==> first.Some? && now - first.value >= 86_400)
    ensures g in states[n + 1].feeds ==>
              && g in states[n + 1].goneAnswers
              && states[n + 1].goneAnswers[g].lastGoneAt == actions[n].now
              && states[n + 1].goneAnswers[g].lastStatus == actions[n].r.status
  {
    hide Next;
    RunStep(states, actions, n);
    InvAlways(states, actions, n);
    FirstGoneAtIsFirstCounted(states, actions, n, g);
    var first := FirstCounted(states, actions, n, g);
    if first.Some? {
      var elapsed: int := actions[n].now - first.value;
      WrapFits(elapsed);
    }
    assert g in states[n].feeds;
    NextRecord(states[n], actions[n], g);
    assert RecordOf(states[n + 1], g).feed == Lookup(states[n + 1].feeds, g);
    assert RecordOf(states[n + 1], g).gone == Lookup(states[n + 1].goneAnswers, g);
  }

  // ── decisions ──────────────────────────────────────────────────────────

  lemma WritersKeepChanges(t: Tables, g: Guid, url: Url, body: Body, mv: Option<FeedMoveWrite>)
    ensures var written := IngestTransaction(t, g, url, body, mv);
            written.Some? ==> written.value.guidChanges == t.guidChanges
    ensures WriteDeclarations(t, g, body, mv.Some?).guidChanges == t.guidChanges
  {
    hide HeldByAnother, SelfLink, LeftUrls, GetMoveState;
  }

  /** An admission changes no decision, and a transition removes one. */
  lemma AdmitKeepsChanges(t: Tables, s: Submission, mv: Option<FeedMoveWrite>, transition: Option<Guid>, now: I64)
    ensures var after := Admit(t, s, mv, transition, now).0.guidChanges;
            after == t.guidChanges || after == t.guidChanges - {s.sourceUrl}
  {
    hide IngestTransaction, WriteDeclarations;
    var url := AdmittedUrl(t, s, mv);
    var t1 := if transition.Some? then GuidChangeTransition(t, transition.value, s.guid, s.sourceUrl, now) else t;
    WritersKeepChanges(t1, s.guid, url, s.body, mv);
    var written := IngestTransaction(t1, s.guid, url, s.body, mv);
    if written.Some? {
      WritersKeepChanges(written.value, s.guid, url, s.body, mv);
    }
  }

  /** What a pending change keeps: a row of another GUID starts with no decision. */
  lemma PendingDecision(t: Tables, s: Submission, held: Guid, now: I64, u: Url)
    ensures var after := WritePendingGuidChange(t, s, held, now).guidChanges;
            u in after && after[u].decision.Some? ==>
              u in t.guidChanges && t.guidChanges[u].newGuid == after[u].newGuid && t.guidChanges[u].decision == after[u].decision
  {
  }

  /** What a submission leaves of the changes. */
  lemma IngestChanges(t: Tables, a: Action)
    requires Inv(t) && a.Ingest? && Enabled(t, a)
    ensures var after := Next(t, a).guidChanges;
            if PassesMatch(t, a.s, a.c, a.originMatches, a.now) then after == t.guidChanges || after == t.guidChanges - {a.s.sourceUrl}
            else if a.c.GuidChanged? && !Rejected(t, a.s) then
              after == WritePendingGuidChange(t, a.s, a.c.heldGuid, a.now).guidChanges
            else after == t.guidChanges
  {
    hide Admit, MoveTarget, WritePendingGuidChange, MoveOf, HoldRejects, Rejected, IsStale, RetireFeed, Inv, AdmitArguments;
    RetireKeepsChanges(t, a.s.guid, PodcastBlock, false, a.now);
    if PassesMatch(t, a.s, a.c, a.originMatches, a.now) {
      AdmittedChanges(t, a);
    }
  }

  lemma AdmittedChanges(t: Tables, a: Action)
    requires Inv(t) && a.Ingest? && Enabled(t, a) && PassesMatch(t, a.s, a.c, a.originMatches, a.now)
    ensures Next(t, a).guidChanges == t.guidChanges || Next(t, a).guidChanges == t.guidChanges - {a.s.sourceUrl}
  {
    hide Admit, IngestWrite, PassesMatch, MoveOf, Inv, AdmitArguments, Classifies;
    IngestCases(t, a.s, a.c, a.originMatches, a.now);
    AdmitKeepsChanges(AdmitBase(t, a.s, a.c), a.s, MoveOf(t, a.s, a.c, a.now), TransitionOf(a.c), a.now);
    var rest := t.guidChanges - {a.s.sourceUrl};
    assert rest - {a.s.sourceUrl} == rest;
  }

  /** A submission never makes a decision. */
  lemma IngestDecisions(t: Tables, a: Action, u: Url)
    requires Inv(t) && a.Ingest? && Enabled(t, a)
    ensures var after := Next(t, a).guidChanges;
            u in after && after[u].decision.Some? ==>
              u in t.guidChanges && t.guidChanges[u].newGuid == after[u].newGuid && t.guidChanges[u].decision == after[u].decision
  {
    hide Next, PassesMatch, WritePendingGuidChange, Rejected, Inv, Classifies;
    IngestChanges(t, a);
    if a.c.GuidChanged? {
      PendingDecision(t, a.s, a.c.heldGuid, a.now, u);
    }
  }

  lemma RetireKeepsChanges(t: Tables, g: Guid, reason: RetireReason, withBlocks: bool, now: I64)
    ensures RetireFeed(t, g, reason, withBlocks, now).guidChanges == t.guidChanges
  {
  }

  lemma OtherDecisions(t: Tables, a: Action)
    requires !a.Ingest? && !a.Decide? && Enabled(t, a)
    ensures Next(t, a).guidChanges == t.guidChanges
  {
    hide IngestWrite, HeldByAnother, Holders, LeftUrls, GetMoveState, GoneRetires, NamesTarget, RetireFeed, Classifies;
    match a
    case Gone(_, target, now) =>
      if target.Some? {
        RetireKeepsChanges(t, target.value, SourceGone, false, now);
      }
    case Retire(g, withBlocks, now) => RetireKeepsChanges(t, g, AdminRetired, withBlocks, now);
    case _ =>
  }

  /** What one action leaves of the decision at a source URL. */
  lemma DecisionStep(t: Tables, a: Action, u: Url, d: Decision)
    requires Inv(t) && Enabled(t, a)
    requires u in Next(t, a).guidChanges && Next(t, a).guidChanges[u].decision == Some(d)
    ensures u in t.guidChanges && t.guidChanges[u].newGuid == Next(t, a).guidChanges[u].newGuid
    ensures t.guidChanges[u].decision == Some(d) || a == Decide(u, d)
  {
    hide IngestWrite, HandleGone, RelocateFeed, RetireFeed, ReleaseHold, Inv, Classifies, NamesTarget;
    if a.Ingest? {
      IngestDecisions(t, a, u);
    } else if !a.Decide? {
      OtherDecisions(t, a);
    }
  }

  /** A decision is written to the row of its URL, which keeps its GUIDs and its times; with no row nothing changes. */
  lemma DecideLeaves(t: Tables, u: Url, d: Decision)
    ensures var t' := Next(t, Decide(u, d));
            if u !in t.guidChanges then t' == t
            else
              var row := t.guidChanges[u];
              t' == t.(guidChanges := t.guidChanges[u := GuidChange(row.oldGuid, row.newGuid, row.firstSeen, row.lastSeen, Some(d))])
  {
  }

  /**
   In every run, a decision at a source URL was made by the operator, about the
   GUID that the row names now, and that GUID has not changed since.
   */
  lemma {:induction false} DecisionsWereMade(states: seq<Tables>, actions: seq<Action>, n: nat, u: Url, d: Decision) returns (k: nat)
    requires IsRun(states, actions) && n < |states|
    requires u in states[n].guidChanges && states[n].guidChanges[u].decision == Some(d)
    ensures k < n && actions[k] == Decide(u, d)
    ensures forall m :: k <= m <= n ==> u in states[m].guidChanges && states[m].guidChanges[u].newGuid == states[n].guidChanges[u].newGuid
    ensures forall m :: k < m <= n ==> states[m].guidChanges[u].decision == Some(d)
    decreases n
  {
    hide Next, Enabled;
    assert n > 0;
    RunStep(states, actions, n - 1);
    InvAlways(states, actions, n - 1);
    DecisionStep(states[n - 1], actions[n - 1], u, d);
    if actions[n - 1] == Decide(u, d) {
      k := n - 1;
    } else {
      k := DecisionsWereMade(states, actions, n - 1, u, d);
    }
  }

  /** In every run, an approved transition has an operator's approval of its GUID, or the origin of the GUID. */
  lemma TransitionsWereAllowed(states: seq<Tables>, actions: seq<Action>, n: nat) returns (k: nat)
    requires IsRun(states, actions) && n < |actions| && actions[n].Ingest? && actions[n].c.GuidChanged?
    requires OutcomeOf(states[n], actions[n]) == Accepted && !actions[n].originMatches
    ensures k < n && actions[k] == Decide(actions[n].s.sourceUrl, Approve)
    ensures forall m :: k <= m <= n ==>
              && actions[n].s.sourceUrl in states[m].guidChanges
              && states[m].guidChanges[actions[n].s.sourceUrl].newGuid == actions[n].s.guid
  {
    hide IngestWrite, Next;
    RunStep(states, actions, n);
    InvAlways(states, actions, n);
    GuidChangeAnswers(states[n], actions[n]);
    k := DecisionsWereMade(states, actions, n, actions[n].s.sourceUrl, Approve);
  }
}
