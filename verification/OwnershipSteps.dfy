/** Each action of the primary, one record at a time, and what one action cannot do. */
module OwnershipSteps {
  import opened Basics
  import opened Cooldown
  import opened Ownership
  import opened OwnershipInvariants

  // ── the branches of the write phase ────────────────────────────────────

  /** The submission passes the classification match of the write phase. */
  predicate PassesMatch(t: Tables, s: Submission, c: SubmissionClass, originMatches: bool, now: I64)
    requires Classifies(t, s, c)
  {
    match c
    case Update => !IsStale(t.feeds[s.guid], s.body) && !s.body.blocksThisIndex
    case NewFeed => !HoldRejects(t, s) && !s.body.blocksThisIndex
    case Mirror(_) => MoveTarget(t, s, c, now).Move?
    case RecordConflict => false
    case GuidChanged(_) => originMatches || Approved(t, s)
  }

  /** The body at the source URL blocks the index, which retires the record. */
  predicate RetiresByBlock(t: Tables, s: Submission, c: SubmissionClass)
    requires Classifies(t, s, c)
  {
    c.Update? && !IsStale(t.feeds[s.guid], s.body) && s.body.blocksThisIndex
  }

  /** The move that a submission passes to the ingest transaction. */
  function MoveOf(t: Tables, s: Submission, c: SubmissionClass, now: I64): Option<FeedMoveWrite>
    requires Classifies(t, s, c)
  {
    if c.Update? || c.Mirror? then MoveWriteOf(t, s, MoveTarget(t, s, c, now)) else None
  }

  function TransitionOf(c: SubmissionClass): Option<Guid> {
    if c.GuidChanged? then Some(c.heldGuid) else None
  }

  lemma RecordsIgnoreGuidChanges(t: Tables, changes: map<Url, GuidChange>, h: Guid)
    ensures RecordOf(t.(guidChanges := changes), h) == RecordOf(t, h)
  {}

  lemma InvIgnoresGuidChanges(t: Tables, changes: map<Url, GuidChange>)
    requires Inv(t)
    ensures Inv(t.(guidChanges := changes))
  {
    forall h ensures RecordInv(RecordOf(t.(guidChanges := changes), h)) {
      RecordsIgnoreGuidChanges(t, changes, h);
      assert RecordInv(RecordOf(t, h));
    }
  }

  lemma MoveArguments(t: Tables, s: Submission, c: SubmissionClass, now: I64)
    requires Inv(t) && Classifies(t, s, c)
    ensures AdmitArguments(t, s, MoveOf(t, s, c, now), TransitionOf(c)) || c.RecordConflict?
  {
    assert RecordInv(RecordOf(t, s.guid));
    var state := GetMoveState(t, s.guid);
    assert state.clock == ClockOf(RecordOf(t, s.guid));
    NextReturnSane(state.clock, now);
  }

  lemma NextReturnSane(c: ReturnClock, now: I64)
    requires c.count >= 0
    ensures NextReturnValues(c, now).count >= 1 && NextReturnValues(c, now).last == Some(now)
  {}

  /** The tables that an admitted submission starts from. */
  function AdmitBase(t: Tables, s: Submission, c: SubmissionClass): Tables {
    if c.Update? then t.(guidChanges := t.guidChanges - {s.sourceUrl}) else t
  }

  lemma IngestCases(t: Tables, s: Submission, c: SubmissionClass, originMatches: bool, now: I64)
    requires Inv(t) && Classifies(t, s, c)
    ensures var r := IngestWrite(t, s, c, originMatches, now);
            if PassesMatch(t, s, c, originMatches, now) then
              var base := AdmitBase(t, s, c);
              && Inv(base)
              && AdmitArguments(base, s, MoveOf(t, s, c, now), TransitionOf(c))
              && r == Admit(base, s, MoveOf(t, s, c, now), TransitionOf(c), now)
            else if RetiresByBlock(t, s, c) then
              r == (RetireFeed(t, s.guid, PodcastBlock, false, now), SourceBlocked)
            else
              r.0 == t.(guidChanges := r.0.guidChanges) && r.1 !in {Accepted, TooManyTracks, UniqueViolation}
  {
    hide Admit;
    hide MoveTarget;
    hide MoveWriteOf;
    MoveArguments(t, s, c, now);
    InvIgnoresGuidChanges(t, t.guidChanges - {s.sourceUrl});
    AdmitBaseMove(t, s, c, now);
  }

  lemma AdmitBaseMove(t: Tables, s: Submission, c: SubmissionClass, now: I64)
    requires Classifies(t, s, c)
    ensures var base := AdmitBase(t, s, c);
            && Classifies(base, s, c)
            && Conflicts(base, s) == Conflicts(t, s)
            && MoveTarget(base, s, c, now) == MoveTarget(t, s, c, now)
            && (c.Update? || c.Mirror? ==>
                  MoveWriteOf(base, s, MoveTarget(base, s, c, now)) == MoveWriteOf(t, s, MoveTarget(t, s, c, now)))
  {
    assert Conflicts(AdmitBase(t, s, c), s) == Conflicts(t, s);
  }

  // ── every action, one record at a time ─────────────────────────────────

  function OutcomeOf(t: Tables, a: Action): Outcome
    requires a.Ingest? && Enabled(t, a)
  {
    IngestWrite(t, a.s, a.c, a.originMatches, a.now).1
  }

  /** The action writes a body to the record of `g`. */
  predicate WritesBody(t: Tables, a: Action, g: Guid)
    requires Enabled(t, a)
  {
    a.Ingest? && a.s.guid == g && OutcomeOf(t, a) == Accepted
  }

  /** A transition retires the record of `g`. */
  predicate Supersedes(t: Tables, a: Action, g: Guid)
    requires Enabled(t, a)
  {
    a.Ingest? && a.c == GuidChanged(g) && OutcomeOf(t, a) in {Accepted, UniqueViolation}
  }

  /** The action retires the record of `g` by `delete_feed_with_event`. */
  predicate Retires(t: Tables, a: Action, g: Guid)
    requires Enabled(t, a)
  {
    && g in t.feeds
    && match a
       case Ingest(s, c, _, _) => s.guid == g && RetiresByBlock(t, s, c)
       case Gone(_, target, now) => target == Some(g) && GoneRetires(t, g, now)
       case Retire(guid, _, _) => guid == g
       case _ => false
  }

  predicate Relocates(t: Tables, a: Action, g: Guid) {
    a.Relocate? && a.guid == g && g in t.feeds && !HeldByAnother(t, g, a.url)
  }

  function RelocatedRecord(r: Record, newUrl: Url): Record
    requires r.feed.Some?
  {
    r.(feed := Some(r.feed.value.(url := newUrl, lastBuildDate := None, declaredSelf := None, declaredNew := None)),
       left := r.left + {r.feed.value.url} - {newUrl},
       state := Some(MoveState(None, true, ReturnClock(0, ClockOf(r).last))))
  }

  /** A counted report that does not retire the record. */
  predicate CountsGone(t: Tables, a: Action, g: Guid)
    requires Enabled(t, a)
  {
    a.Gone? && a.target == Some(g) && !GoneRetires(t, g, a.now)
  }

  function RetireHold(t: Tables, a: Action, g: Guid): Option<Hold>
    requires Enabled(t, a) && Retires(t, a, g)
  {
    match a
    case Ingest(_, _, _, now) => Some(Hold(t.feeds[g].url, PodcastBlock, now, None))
    case Gone(_, _, now) => Some(Hold(t.feeds[g].url, SourceGone, now, None))
    case Retire(_, withBlocks, now) =>
      if withBlocks then Lookup(t.holds, g) else Some(Hold(t.feeds[g].url, AdminRetired, now, None))
    case _ => None
  }

  /** The rows of `g` after the action. */
  function StepRecord(t: Tables, a: Action, g: Guid): Record
    requires Enabled(t, a)
  {
    var r := RecordOf(t, g);
    if WritesBody(t, a, g) then
      var mv := MoveOf(t, a.s, a.c, a.now);
      AdmittedRecord(r, AdmittedUrl(t, a.s, mv), a.s.body, mv)
    else if Supersedes(t, a, g) then Deleted(r.hold)
    else if Retires(t, a, g) then Deleted(RetireHold(t, a, g))
    else if Relocates(t, a, g) then RelocatedRecord(r, a.url)
    else if CountsGone(t, a, g) then
      r.(gone := Some(if r.gone.Some? then r.gone.value.(lastGoneAt := a.now, lastStatus := a.r.status)
                      else GoneAnswer(a.r.sourceUrl, a.now, a.now, a.r.status)))
    else if a.Release? && a.guid == g && r.hold.Some? && r.hold.value.releasedAt.None? then
      r.(hold := Some(r.hold.value.(releasedAt := Some(a.now))))
    else r
  }

  lemma AdmitBaseRecords(t: Tables, s: Submission, c: SubmissionClass, mv: Option<FeedMoveWrite>, g: Guid)
    ensures RecordOf(AdmitBase(t, s, c), g) == RecordOf(t, g)
    ensures AdmittedUrl(AdmitBase(t, s, c), s, mv) == AdmittedUrl(t, s, mv)
    ensures Conflicts(AdmitBase(t, s, c), s) == Conflicts(t, s)
  {
    RecordsIgnoreGuidChanges(t, t.guidChanges - {s.sourceUrl}, g);
  }

  /** Which of the named effects an admitted submission has. */
  lemma AdmittedEffects(t: Tables, a: Action, g: Guid)
    requires Inv(t) && a.Ingest? && Enabled(t, a) && PassesMatch(t, a.s, a.c, a.originMatches, a.now)
    ensures OutcomeOf(t, a) in {Accepted, TooManyTracks, UniqueViolation}
    ensures StepRecord(t, a, g) ==
            if OutcomeOf(t, a) == Accepted && g == a.s.guid then
              AdmittedRecord(RecordOf(t, g), AdmittedUrl(t, a.s, MoveOf(t, a.s, a.c, a.now)), a.s.body, MoveOf(t, a.s, a.c, a.now))
            else if OutcomeOf(t, a) != TooManyTracks && TransitionOf(a.c) == Some(g) then Deleted(RecordOf(t, g).hold)
            else RecordOf(t, g)
  {
    hide IngestWrite;
    hide Admit;
    hide MoveTarget;
    hide MoveOf;
    hide AdmittedRecord;
    hide Deleted;
    hide RecordOf;
    IngestCases(t, a.s, a.c, a.originMatches, a.now);
    AdmitOutcome(AdmitBase(t, a.s, a.c), a.s, MoveOf(t, a.s, a.c, a.now), TransitionOf(a.c), a.now);
  }

  lemma AdmittedIngestRecord(t: Tables, a: Action, g: Guid)
    requires Inv(t) && a.Ingest? && Enabled(t, a) && PassesMatch(t, a.s, a.c, a.originMatches, a.now)
    ensures RecordOf(Next(t, a), g) == StepRecord(t, a, g)
  {
    hide IngestWrite;
    hide Admit;
    hide PassesMatch;
    hide MoveOf;
    hide StepRecord;
    hide AdmittedRecord;
    hide Deleted;
    hide Inv;
    hide AdmitArguments;
    IngestCases(t, a.s, a.c, a.originMatches, a.now);
    AdmittedEffects(t, a, g);
    var mv := MoveOf(t, a.s, a.c, a.now);
    AdmitRecord(AdmitBase(t, a.s, a.c), a.s, mv, TransitionOf(a.c), a.now, g);
    AdmitBaseRecords(t, a.s, a.c, mv, g);
  }

  lemma RejectedIngestRecord(t: Tables, a: Action, g: Guid)
    requires Inv(t) && a.Ingest? && Enabled(t, a) && !PassesMatch(t, a.s, a.c, a.originMatches, a.now)
    ensures RecordOf(Next(t, a), g) == StepRecord(t, a, g)
  {
    hide IngestWrite, PassesMatch, Inv, MoveOf, AdmittedRecord, RetireFeed, Admit;
    IngestCases(t, a.s, a.c, a.originMatches, a.now);
    if RetiresByBlock(t, a.s, a.c) {
      RetireFeedRecord(t, a.s.guid, PodcastBlock, false, a.now, g);
    } else {
      RecordsIgnoreGuidChanges(t, Next(t, a).guidChanges, g);
    }
  }

  lemma IngestRecord(t: Tables, a: Action, g: Guid)
    requires Inv(t) && a.Ingest? && Enabled(t, a)
    ensures RecordOf(Next(t, a), g) == StepRecord(t, a, g)
  {
    hide Next, StepRecord, PassesMatch, Inv, RecordOf;
    if PassesMatch(t, a.s, a.c, a.originMatches, a.now) {
      AdmittedIngestRecord(t, a, g);
    } else {
      RejectedIngestRecord(t, a, g);
    }
  }

  lemma GoneRecord(t: Tables, a: Action, g: Guid)
    requires a.Gone? && Enabled(t, a)
    ensures RecordOf(Next(t, a), g) == StepRecord(t, a, g)
  {
    hide IngestWrite, RelocateFeed, RetireFeed, ReleaseHold, DecideGuidChange, MoveOf, PassesMatch, OutcomeOf, AdmittedRecord,
         RelocatedRecord;
    if a.target.Some? && GoneRetires(t, a.target.value, a.now) {
      RetireFeedRecord(t, a.target.value, SourceGone, false, a.now, g);
    }
  }

  lemma RelocateRecord(t: Tables, a: Action, g: Guid)
    requires a.Relocate?
    ensures RecordOf(Next(t, a), g) == StepRecord(t, a, g)
  {
    if Relocates(t, a, a.guid) {
      var row := t.feeds[a.guid];
      var t1 := t.(feeds := t.feeds[a.guid := row.(url := a.url, lastBuildDate := None, declaredSelf := None, declaredNew := None)]);
      RelocationRecord(t1, a.guid, row.url, a.url, g);
    }
  }

  lemma RetireRecord(t: Tables, a: Action, g: Guid)
    requires a.Retire?
    ensures RecordOf(Next(t, a), g) == StepRecord(t, a, g)
  {
    if a.guid in t.feeds { RetireFeedRecord(t, a.guid, AdminRetired, a.withBlocks, a.now, g); }
  }

  lemma HoldsSetRecord(t: Tables, holds: map<Guid, Hold>, g: Guid)
    ensures RecordOf(t.(holds := holds), g) == RecordOf(t, g).(hold := Lookup(holds, g))
  {}

  lemma ReleasedRecord(t: Tables, a: Action, g: Guid)
    requires a.Release?
    ensures StepRecord(t, a, g) ==
            if a.guid == g && RecordOf(t, g).hold.Some? && RecordOf(t, g).hold.value.releasedAt.None?
            then RecordOf(t, g).(hold := Some(RecordOf(t, g).hold.value.(releasedAt := Some(a.now))))
            else RecordOf(t, g)
  {
    hide RecordOf, IngestWrite, MoveOf, PassesMatch, OutcomeOf, AdmittedRecord, RelocatedRecord, RetireHold, Next;
  }

  lemma ReleaseRecord(t: Tables, a: Action, g: Guid)
    requires a.Release?
    ensures RecordOf(Next(t, a), g) == StepRecord(t, a, g)
  {
    hide RecordOf, StepRecord, IngestWrite, HandleGone, RelocateFeed, RetireFeed, DecideGuidChange;
    ReleasedRecord(t, a, g);
    HoldsSetRecord(t, t.holds, g);
    HoldsSetRecord(t, Next(t, a).holds, g);
    assert Next(t, a) == t.(holds := Next(t, a).holds) && t == t.(holds := t.holds);
  }

  lemma DecideRecord(t: Tables, a: Action, g: Guid)
    requires a.Decide?
    ensures RecordOf(Next(t, a), g) == StepRecord(t, a, g)
  {
    RecordsIgnoreGuidChanges(t, Next(t, a).guidChanges, g);
  }

  lemma NextRecord(t: Tables, a: Action, g: Guid)
    requires Inv(t) && Enabled(t, a)
    ensures RecordOf(Next(t, a), g) == StepRecord(t, a, g)
  {
    hide Next;
    hide StepRecord;
    match a
    case Ingest(_, _, _, _) => IngestRecord(t, a, g);
    case Gone(_, _, _) => GoneRecord(t, a, g);
    case Relocate(_, _) => RelocateRecord(t, a, g);
    case Retire(_, _, _) => RetireRecord(t, a, g);
    case Release(_, _) => ReleaseRecord(t, a, g);
    case Decide(_, _) => DecideRecord(t, a, g);
  }

  // ── the invariant of every reachable state ─────────────────────────────

  /** The feed row of `g` after the action. */
  lemma NextFeed(t: Tables, a: Action, g: Guid)
    requires Inv(t) && Enabled(t, a)
    ensures Lookup(Next(t, a).feeds, g) == StepRecord(t, a, g).feed
  {
    hide Next;
    hide StepRecord;
    NextRecord(t, a, g);
    assert RecordOf(Next(t, a), g).feed == Lookup(Next(t, a).feeds, g);
  }

  /** A record that an action neither writes nor relocates keeps its URL or goes. */
  lemma UrlKept(t: Tables, a: Action, g: Guid)
    requires Inv(t) && Enabled(t, a)
    requires !WritesBody(t, a, g) && !Relocates(t, a, g)
    requires g in Next(t, a).feeds
    ensures g in t.feeds && Next(t, a).feeds[g].url == t.feeds[g].url
  {
    hide Next;
    hide WritesBody;
    hide Supersedes;
    hide Retires;
    NextFeed(t, a, g);
  }

  lemma RelocationUrls(t: Tables, a: Action)
    requires Inv(t) && a.Relocate?
    ensures UrlsUnique(Next(t, a))
  {
    var t' := Next(t, a);
    if Relocates(t, a, a.guid) {
      forall h | h in t'.feeds && h != a.guid
        ensures h in t.feeds && t'.feeds[h].url == t.feeds[h].url != a.url
      {
        UrlKept(t, a, h);
      }
      UniqueAfterChange(t, t', a.guid);
    }
  }

  /** A step writes at most one URL, and no other record holds it afterwards. */
  lemma StepUrls(t: Tables, a: Action)
    requires Inv(t) && Enabled(t, a)
    ensures UrlsUnique(Next(t, a))
  {
    if a.Relocate? {
      RelocationUrls(t, a);
    } else if a.Ingest? && PassesMatch(t, a.s, a.c, a.originMatches, a.now) {
      hide IngestWrite;
      hide Admit;
      hide MoveTarget;
      IngestCases(t, a.s, a.c, a.originMatches, a.now);
      AdmitKeepsUrlsUnique(AdmitBase(t, a.s, a.c), a.s, MoveOf(t, a.s, a.c, a.now), TransitionOf(a.c), a.now);
    } else {
      WritesNothing(t, a);
      forall g | g in Next(t, a).feeds
        ensures g in t.feeds && Next(t, a).feeds[g].url == t.feeds[g].url
      {
        hide Next;
        hide WritesBody;
        UrlKept(t, a, g);
      }
    }
  }

  lemma WritesNothing(t: Tables, a: Action)
    requires Inv(t) && Enabled(t, a)
    requires a.Ingest? ==> !PassesMatch(t, a.s, a.c, a.originMatches, a.now)
    ensures forall g :: !WritesBody(t, a, g)
  {
    if a.Ingest? {
      hide IngestWrite;
      hide MoveTarget;
      IngestCases(t, a.s, a.c, a.originMatches, a.now);
    }
  }

  lemma WrittenClass(t: Tables, a: Action, g: Guid)
    requires Inv(t) && Enabled(t, a) && WritesBody(t, a, g)
    ensures PassesMatch(t, a.s, a.c, a.originMatches, a.now)
  {
    hide IngestWrite;
    hide MoveTarget;
    IngestCases(t, a.s, a.c, a.originMatches, a.now);
  }

  lemma StepRecordInv(t: Tables, a: Action, g: Guid)
    requires Inv(t) && Enabled(t, a)
    ensures RecordInv(StepRecord(t, a, g))
  {
    assert RecordInv(RecordOf(t, g));
    if WritesBody(t, a, g) {
      hide IngestWrite;
      hide MoveTarget;
      MoveArguments(t, a.s, a.c, a.now);
      var mv := MoveOf(t, a.s, a.c, a.now);
      WrittenClass(t, a, g);
      AdmittedRecordInv(RecordOf(t, g), AdmittedUrl(t, a.s, mv), a.s.body, mv);
    }
  }

  lemma NextKeepsInv(t: Tables, a: Action)
    requires Inv(t) && Enabled(t, a)
    ensures Inv(Next(t, a))
  {
    StepUrls(t, a);
    forall g ensures RecordInv(RecordOf(Next(t, a), g)) {
      hide Next;
      hide StepRecord;
      NextRecord(t, a, g);
      StepRecordInv(t, a, g);
    }
  }

  lemma {:induction false} InvAlways(states: seq<Tables>, actions: seq<Action>, n: nat)
    requires IsRun(states, actions) && n < |states|
    ensures Inv(states[n])
    decreases n
  {
    if n > 0 {
      InvAlways(states, actions, n - 1);
      NextKeepsInv(states[n - 1], actions[n - 1]);
    } else {
      assert forall g :: RecordInv(RecordOf(EMPTY_TABLES, g));
    }
  }
}
