/** Properties of every run of the ownership tables. */
module OwnershipRuns {
  import opened Basics
  import opened Cooldown
  import opened Ownership
  import opened OwnershipInvariants
  import opened OwnershipSteps

  // ── URL ownership ──────────────────────────────────────────────────────

  /** In every reachable state two records hold two URLs. */
  lemma OwnershipInjective(states: seq<Tables>, actions: seq<Action>, n: nat, g: Guid, h: Guid)
    requires IsRun(states, actions) && n < |states|
    requires g in states[n].feeds && h in states[n].feeds && g != h
    ensures states[n].feeds[g].url != states[n].feeds[h].url
  {
    InvAlways(states, actions, n);
  }

  /**
   The database refuses a submission exactly in one case: a transition retired
   the held record, and a third record holds the canonical URL.
   */
  lemma UniqueViolationExactly(t: Tables, a: Action)
    requires Inv(t) && a.Ingest? && Enabled(t, a)
    ensures OutcomeOf(t, a) == UniqueViolation <==>
            && a.c.GuidChanged?
            && (a.originMatches || Approved(t, a.s))
            && TracksOf(a.s.body) <= MAX_TRACKS_PER_INGEST
            && exists h :: h in Conflicts(t, a.s) && h != a.c.heldGuid && t.feeds[h].url == a.s.canonicalUrl
  {
    hide IngestWrite;
    hide Admit;
    hide MoveTarget;
    IngestCases(t, a.s, a.c, a.originMatches, a.now);
    if PassesMatch(t, a.s, a.c, a.originMatches, a.now) {
      var base, mv := AdmitBase(t, a.s, a.c), MoveOf(t, a.s, a.c, a.now);
      AdmitOutcome(base, a.s, mv, TransitionOf(a.c), a.now);
      AdmitBaseRecords(t, a.s, a.c, mv, a.s.guid);
    }
  }

  /**
   In that case the transition has already committed: the held record is gone
   and the declared GUID has no record either.
   */
  lemma UniqueViolationLosesTheRecord(t: Tables, a: Action)
    requires Inv(t) && a.Ingest? && Enabled(t, a)
    requires OutcomeOf(t, a) == UniqueViolation
    ensures a.c.GuidChanged? && a.c.heldGuid in t.feeds
    ensures a.c.heldGuid !in Next(t, a).feeds && a.s.guid !in Next(t, a).feeds
  {
    UniqueViolationExactly(t, a);
    hide IngestWrite;
    NextFeed(t, a, a.c.heldGuid);
    NextFeed(t, a, a.s.guid);
  }

  lemma FreshAdmission(t: Tables, a: Action)
    requires a.Ingest? && a.c == NewFeed && Enabled(t, a)
    requires t.holds == map[] && t.goneAnswers == map[] && a.s.guid !in t.moveStates
    requires !a.s.body.blocksThisIndex && TracksOf(a.s.body) <= MAX_TRACKS_PER_INGEST
    ensures Next(t, a) == t.(feeds := t.feeds[a.s.guid := FeedRow(a.s.canonicalUrl, a.s.body, a.s.body.lastBuildDate,
                                                                  a.s.body.newFeedUrl, SelfLink(a.s.body.links))])
  {
    forall h | h in t.feeds && h != a.s.guid
      ensures t.feeds[h].url != a.s.canonicalUrl
    {
      assert h !in Conflicts(t, a.s);
    }
    assert t.goneAnswers - {a.s.guid} == map[] && t.holds - {a.s.guid} == map[];
  }

  /** A run of three submissions that reaches it. */
  lemma TransitionCanLoseARecord() returns (states: seq<Tables>, actions: seq<Action>, held: Guid)
    ensures IsRun(states, actions) && |actions| == 3
    ensures actions[2].Ingest? && Enabled(states[2], actions[2])
    ensures OutcomeOf(states[2], actions[2]) == UniqueViolation
    ensures held in states[2].feeds && held !in states[3].feeds && actions[2].s.guid !in states[3].feeds
  {
    hide Next;
    hide IngestWrite;
    var x, y, z := Guid("x"), Guid("y"), Guid("z");
    var u, v := Url("u"), Url("v");
    var body := Body("", None, [], None, false, false, 0);
    var row := (url: Url) => FeedRow(url, body, None, None, None);
    var a0 := Ingest(Submission(x, u, u, [], body), NewFeed, false, 0);
    var a1 := Ingest(Submission(y, v, v, [], body), NewFeed, false, 1);
    var a2 := Ingest(Submission(z, u, v, [302], body), GuidChanged(x), true, 2);
    var t0 := EMPTY_TABLES;
    assert Conflicts(t0, a0.s) == {};
    FreshAdmission(t0, a0);
    var t1 := t0.(feeds := map[x := row(u)]);
    assert Next(t0, a0) == t1;
    assert Conflicts(t1, a1.s) == {};
    FreshAdmission(t1, a1);
    var t2 := t1.(feeds := map[x := row(u), y := row(v)]);
    assert Next(t1, a1) == t2;
    assert x in Conflicts(t2, a2.s) && y in Conflicts(t2, a2.s);
    var t3 := Next(t2, a2);
    states, actions, held := [t0, t1, t2, t3], [a0, a1, a2], x;
    assert IsRun(states, actions);
    InvAlways(states, actions, 2);
    UniqueViolationExactly(t2, a2);
    UniqueViolationLosesTheRecord(t2, a2);
  }

  lemma RunStep(states: seq<Tables>, actions: seq<Action>, i: nat)
    requires IsRun(states, actions) && i < |actions|
    ensures Enabled(states[i], actions[i]) && states[i + 1] == Next(states[i], actions[i])
  {}

  // ── frame ──────────────────────────────────────────────────────────────

  /**
   A submission changes the record of its declared GUID and, in a transition,
   the held record; a rejected one changes none but a record that its own
   source blocks.
   */
  lemma SubmissionFrame(t: Tables, a: Action, h: Guid)
    requires Inv(t) && a.Ingest? && Enabled(t, a)
    ensures h != a.s.guid && a.c != GuidChanged(h) ==> RecordOf(Next(t, a), h) == RecordOf(t, h)
    ensures OutcomeOf(t, a) !in {Accepted, UniqueViolation, SourceBlocked} ==> RecordOf(Next(t, a), h) == RecordOf(t, h)
    ensures OutcomeOf(t, a) == SourceBlocked && RecordOf(Next(t, a), h) != RecordOf(t, h) ==>
              h == a.s.guid && a.c == Update && RetiresByBlock(t, a.s, a.c)
  {
    hide IngestWrite, Next, MoveTarget, MoveOf, AdmittedRecord, Admit, Inv, AdmitArguments, Classifies, RetireHold,
         RelocatedRecord, Conflicts, UrlFree;
    NextRecord(t, a, h);
    IngestCases(t, a.s, a.c, a.originMatches, a.now);
    if PassesMatch(t, a.s, a.c, a.originMatches, a.now) {
      AdmitOutcome(AdmitBase(t, a.s, a.c), a.s, MoveOf(t, a.s, a.c, a.now), TransitionOf(a.c), a.now);
    }
  }

  // ── history of the left URLs ───────────────────────────────────────────

  /** Every source URL that the record of `g` held since its admission. */
  function Held(states: seq<Tables>, n: nat, g: Guid): set<Url>
    requires n < |states|
    decreases n
  {
    if g !in states[n].feeds then {}
    else {states[n].feeds[g].url} + (if n == 0 then {} else Held(states, n - 1, g))
  }

  lemma WrittenLeftUrls(t: Tables, a: Action, g: Guid)
    requires Inv(t) && Enabled(t, a) && WritesBody(t, a, g)
    ensures StepRecord(t, a, g).feed.Some?
    ensures StepRecord(t, a, g).left ==
            if g in t.feeds then LeftUrls(t, g) + {t.feeds[g].url} - {StepRecord(t, a, g).feed.value.url}
            else LeftUrls(t, g)
  {
    hide IngestWrite;
    hide MoveTarget;
    assert RecordInv(RecordOf(t, g));
    assert RecordOf(t, g).feed == Lookup(t.feeds, g);
    WrittenClass(t, a, g);
    MoveArguments(t, a.s, a.c, a.now);
  }

  lemma LeftUrlsStep(t: Tables, a: Action, g: Guid)
    requires Inv(t) && Enabled(t, a)
    ensures var t' := Next(t, a);
            LeftUrls(t', g) ==
            if g !in t'.feeds || g !in t.feeds then {}
            else LeftUrls(t, g) + {t.feeds[g].url} - {t'.feeds[g].url}
  {
    hide Next;
    hide IngestWrite;
    hide MoveOf;
    hide AdmittedRecord;
    NextRecord(t, a, g);
    NextFeed(t, a, g);
    assert RecordInv(RecordOf(t, g));
    assert RecordOf(t, g).feed == Lookup(t.feeds, g);
    assert RecordOf(Next(t, a), g).left == LeftUrls(Next(t, a), g);
    if WritesBody(t, a, g) {
      WrittenLeftUrls(t, a, g);
    }
  }

  /**
   The left URLs of a record are the source URLs it ever held, without its
   current one: over moves, returns and relocations, also to the same URL.
   */
  lemma {:induction false} LeftUrlsAreHistory(states: seq<Tables>, actions: seq<Action>, n: nat, g: Guid)
    requires IsRun(states, actions) && n < |states|
    ensures LeftUrls(states[n], g) ==
            if g in states[n].feeds then Held(states, n, g) - {states[n].feeds[g].url} else {}
    decreases n
  {
    hide Next, Enabled, Inv;
    if n > 0 {
      LeftUrlsAreHistory(states, actions, n - 1, g);
      InvAlways(states, actions, n - 1);
      RunStep(states, actions, n - 1);
      LeftUrlsStep(states[n - 1], actions[n - 1], g);
    }
  }

  /** The action moves the record of `g` by a source trigger. */
  predicate MovesBySource(t: Tables, a: Action, g: Guid)
    requires Enabled(t, a)
  {
    WritesBody(t, a, g) && MoveOf(t, a.s, a.c, a.now).Some?
  }

  predicate ReturnsBySource(t: Tables, a: Action, g: Guid)
    requires Enabled(t, a)
  {
    MovesBySource(t, a, g) && MoveOf(t, a.s, a.c, a.now).value.returnValues.Some?
  }

  /** The two kinds of a source move. */
  lemma MoveKinds(t: Tables, a: Action, g: Guid)
    requires Inv(t) && Enabled(t, a) && MovesBySource(t, a, g)
    ensures g in t.feeds && g in Next(t, a).feeds
    ensures Next(t, a).feeds[g].url != t.feeds[g].url
    ensures ReturnsBySource(t, a, g) <==> Next(t, a).feeds[g].url in LeftUrls(t, g)
    ensures ReturnsBySource(t, a, g) ==>
              && !Waiting(ClockOf(RecordOf(t, g)), a.now)
              && MoveOf(t, a.s, a.c, a.now).value.returnValues == Some(NextReturnValues(ClockOf(RecordOf(t, g)), a.now))
    ensures Next(t, a).feeds[g].url in {a.s.sourceUrl, a.s.canonicalUrl}
  {
    hide IngestWrite;
    NextFeed(t, a, g);
  }

  /** A source move that is not a return goes to a URL the record never held. */
  lemma NonReturnMoveIsNew(states: seq<Tables>, actions: seq<Action>, i: nat, g: Guid)
    requires IsRun(states, actions) && i < |actions|
    requires MovesBySource(states[i], actions[i], g)
    ensures g in states[i + 1].feeds
    ensures ReturnsBySource(states[i], actions[i], g) <==> states[i + 1].feeds[g].url in Held(states, i, g)
  {
    InvAlways(states, actions, i);
    hide Next;
    hide IngestWrite;
    hide MoveTarget;
    MoveKinds(states[i], actions[i], g);
    LeftUrlsAreHistory(states, actions, i, g);
  }

  // ── arrival tags ───────────────────────────────────────────────────────

  /** The arrival tag is absent or the declared tag, in every reachable state. */
  lemma ArrivalTagDeclared(states: seq<Tables>, actions: seq<Action>, n: nat, g: Guid)
    requires IsRun(states, actions) && n < |states|
    ensures var tag := GetMoveState(states[n], g).arrivalTag;
            tag.Some? ==> g in states[n].feeds && states[n].feeds[g].declaredNew == tag
  {
    InvAlways(states, actions, n);
    assert RecordInv(RecordOf(states[n], g));
  }

  /** A return by a tag starts only when the record has no arrival tag. */
  lemma TagReturnNeedsNoArrivalTag(states: seq<Tables>, actions: seq<Action>, i: nat, g: Guid)
    requires IsRun(states, actions) && i < |actions|
    requires ReturnsBySource(states[i], actions[i], g) && actions[i].c.Mirror?
    ensures GetMoveState(states[i], g).arrivalTag == None
    ensures actions[i].s.body.newFeedUrl == states[i].feeds[g].declaredNew
  {
    hide IngestWrite;
    ArrivalTagDeclared(states, actions, i, g);
  }

  // ── returns and their back-off ─────────────────────────────────────────

  /** The record exists from `i` to `j`, and no relocation of it comes between. */
  predicate Undisturbed(states: seq<Tables>, actions: seq<Action>, i: nat, j: nat, g: Guid)
    requires IsRun(states, actions) && i <= j < |states|
  {
    && (forall k :: i <= k <= j ==> g in states[k].feeds)
    && (forall k :: i <= k < j ==> !Relocates(states[k], actions[k], g))
  }

  /** The times of the returns of `g` from `i` to `j`. */
  function ReturnTimes(states: seq<Tables>, actions: seq<Action>, i: nat, j: nat, g: Guid): seq<I64>
    requires IsRun(states, actions) && i <= j < |states|
    decreases j - i
  {
    if i == j then []
    else if ReturnsBySource(states[i], actions[i], g) then [actions[i].now] + ReturnTimes(states, actions, i + 1, j, g)
    else ReturnTimes(states, actions, i + 1, j, g)
  }

  lemma ClockStep(t: Tables, a: Action, g: Guid)
    requires Inv(t) && Enabled(t, a)
    requires g in t.feeds && g in Next(t, a).feeds && !Relocates(t, a, g)
    ensures var c, c' := ClockOf(RecordOf(t, g)), ClockOf(RecordOf(Next(t, a), g));
            if ReturnsBySource(t, a, g) then !Waiting(c, a.now) && c' == NextReturnValues(c, a.now) else c' == c
  {
    hide Next;
    hide IngestWrite;
    hide MoveOf;
    hide Waiting;
    NextRecord(t, a, g);
    NextFeed(t, a, g);
    if ReturnsBySource(t, a, g) { MoveKinds(t, a, g); }
  }

  /** The returns of a run are the accepted returns of the cooldown. */
  lemma {:induction false} ReturnsAreAccepted(states: seq<Tables>, actions: seq<Action>, i: nat, j: nat, g: Guid)
    requires IsRun(states, actions) && i <= j < |states|
    requires Undisturbed(states, actions, i, j, g)
    ensures var times := ReturnTimes(states, actions, i, j, g);
            && AcceptedReturns(ClockOf(RecordOf(states[i], g)), times)
            && AfterReturns(ClockOf(RecordOf(states[i], g)), times) == ClockOf(RecordOf(states[j], g))
    decreases j - i
  {
    if i < j {
      InvAlways(states, actions, i);
      hide Next;
      hide ReturnsBySource;
      hide Relocates;
      hide Waiting;
      hide NextReturnValues;
      RunStep(states, actions, i);
      ClockStep(states[i], actions[i], g);
      ReturnsAreAccepted(states, actions, i + 1, j, g);
      var times := ReturnTimes(states, actions, i, j, g);
      if ReturnsBySource(states[i], actions[i], g) {
        assert times[1..] == ReturnTimes(states, actions, i + 1, j, g);
      }
    }
  }

  /**
   Between two relocations the returns of a record come at strictly increasing
   times, and twelve of them never fall within 30 days.
   */
  lemma ReturnsBackOff(states: seq<Tables>, actions: seq<Action>, i: nat, j: nat, g: Guid)
    requires IsRun(states, actions) && i <= j < |states|
    requires Undisturbed(states, actions, i, j, g)
    requires BeforeTheLastInstant(ReturnTimes(states, actions, i, j, g))
    ensures var times := ReturnTimes(states, actions, i, j, g);
            && (forall p, q :: 0 <= p < q < |times| ==> times[p] < times[q])
            && (forall p :: 0 <= p && p + 11 < |times| ==> times[p + 11] - times[p] >= RETURN_COUNT_RESET_SECS)
            && (times != [] && GapsBelowReset(times) ==>
                  times[|times| - 1] - times[0] >= WaitSum(1, |times| - 1))
  {
    var times := ReturnTimes(states, actions, i, j, g);
    var c := ClockOf(RecordOf(states[i], g));
    ReturnsAreAccepted(states, actions, i, j, g);
    InvAlways(states, actions, i);
    assert RecordInv(RecordOf(states[i], g));
    forall p, q | 0 <= p < q < |times| ensures times[p] < times[q] {
      ReturnTimesIncrease(c, times, p, q);
    }
    forall p | 0 <= p && p + 11 < |times| ensures times[p + 11] - times[p] >= RETURN_COUNT_RESET_SECS {
      AtMostElevenReturnsInThirtyDays(c, times, p);
    }
    if times != [] && GapsBelowReset(times) { ReturnsSpanTheirWaits(c, times); }
  }

  // ── gone sources ───────────────────────────────────────────────────────

  /** The time of the first counted report since the last body or admission. */
  function FirstCounted(states: seq<Tables>, actions: seq<Action>, n: nat, g: Guid): Option<I64>
    requires IsRun(states, actions) && n < |states|
    decreases n
  {
    if n == 0 || g !in states[n].feeds then None
    else if WritesBody(states[n - 1], actions[n - 1], g) then None
    else
      var before := FirstCounted(states, actions, n - 1, g);
      if before.Some? then before
      else if actions[n - 1].Gone? && actions[n - 1].target == Some(g) then Some(actions[n - 1].now)
      else None
  }

  lemma GoneStep(t: Tables, a: Action, g: Guid)
    requires Inv(t) && Enabled(t, a)
    ensures var before, after := Lookup(t.goneAnswers, g), Lookup(Next(t, a).goneAnswers, g);
            if g !in Next(t, a).feeds || WritesBody(t, a, g) then after == None
            else if before.Some? then after.Some? && after.value.firstGoneAt == before.value.firstGoneAt
            else if a.Gone? && a.target == Some(g) then after.Some? && after.value.firstGoneAt == a.now
            else after == None
  {
    hide Next;
    hide IngestWrite;
    hide MoveOf;
    NextRecord(t, a, g);
    NextFeed(t, a, g);
    assert RecordInv(RecordOf(t, g));
    assert RecordOf(t, g).gone == Lookup(t.goneAnswers, g);
    assert RecordOf(Next(t, a), g).gone == Lookup(Next(t, a).goneAnswers, g);
  }

  /** `first_gone_at` names the first counted report, in every reachable state. */
  lemma {:induction false} FirstGoneAtIsFirstCounted(states: seq<Tables>, actions: seq<Action>, n: nat, g: Guid)
    requires IsRun(states, actions) && n < |states|
    ensures FirstCounted(states, actions, n, g) ==
            if g in states[n].goneAnswers then Some(states[n].goneAnswers[g].firstGoneAt) else None
    decreases n
  {
    hide Next, WritesBody, Inv, Enabled;
    if n > 0 {
      FirstGoneAtIsFirstCounted(states, actions, n - 1, g);
      RunStep(states, actions, n - 1);
      InvAlways(states, actions, n - 1);
      GoneStep(states[n - 1], actions[n - 1], g);
    } else {
      assert g !in EMPTY_TABLES.goneAnswers;
    }
  }

  lemma {:induction false} FirstCountedReport(states: seq<Tables>, actions: seq<Action>, n: nat, g: Guid) returns (i: nat)
    requires IsRun(states, actions) && n < |states|
    requires FirstCounted(states, actions, n, g).Some?
    ensures i < n && actions[i].Gone? && actions[i].target == Some(g)
    ensures actions[i].now == FirstCounted(states, actions, n, g).value
    ensures forall k :: i < k <= n ==> g in states[k].feeds
    ensures forall k :: i < k < n ==> !WritesBody(states[k], actions[k], g)
    decreases n
  {
    hide WritesBody;
    hide Next;
    RunStep(states, actions, n - 1);
    if FirstCounted(states, actions, n - 1, g).Some? {
      i := FirstCountedReport(states, actions, n - 1, g);
    } else {
      i := n - 1;
    }
  }

  /** ADR 0067 section 2: the stored URL of the record answered itself, with 410, or with 404 from a listed host. */
  predicate NamesGoneSource(t: Tables, r: GoneReport, g: Guid) {
    && g in t.feeds && t.feeds[g].url == r.sourceUrl
    && r.canonicalUrl == r.sourceUrl
    && r.redirects == []
    && (r.status == 410 || (r.status == 404 && r.hostListed))
    && !r.urlBlocked
  }

  /**
   A gone source retires a record only after two counted reports at least one
   day apart, with no body written for the record between them. The difference
   of two times before the epoch and after it can wrap; no other one does.
   */
  lemma GoneRetiresAfterADay(states: seq<Tables>, actions: seq<Action>, n: nat, g: Guid) returns (i: nat)
    requires IsRun(states, actions) && n < |actions|
    requires actions[n].Gone? && Retires(states[n], actions[n], g)
    ensures i < n
    ensures actions[i].Gone? && actions[i].target == Some(g) && actions[n].target == Some(g)
    ensures NamesGoneSource(states[i], actions[i].r, g) && NamesGoneSource(states[n], actions[n].r, g)
    ensures actions[n].now - actions[i].now >= 86_400 || actions[n].now - actions[i].now < I64_MIN
    ensures actions[n].now >= 0 ==> actions[n].now - actions[i].now >= 86_400
    ensures forall k :: i < k <= n ==> g in states[k].feeds
    ensures forall k :: i < k < n ==> !WritesBody(states[k], actions[k], g)
  {
    hide Next, WritesBody;
    FirstGoneAtIsFirstCounted(states, actions, n, g);
    i := FirstCountedReport(states, actions, n, g);
    assert Enabled(states[i], actions[i]);
    WrapFits(actions[n].now - actions[i].now);
  }

  lemma WrapFits(x: int)
    ensures I64_MIN <= x <= I64_MAX ==> Wrap(x) == x
    ensures I64_MAX < x < 0x1_0000_0000_0000_0000 ==> Wrap(x) < 0
  {
  }

  // ── provenance ─────────────────────────────────────────────────────────

  /** The last action that wrote the body of the record. */
  function LastWrite(states: seq<Tables>, actions: seq<Action>, n: nat, g: Guid): Option<nat>
    requires IsRun(states, actions) && n < |states|
    decreases n
  {
    if n == 0 || g !in states[n].feeds then None
    else if WritesBody(states[n - 1], actions[n - 1], g) then Some(n - 1)
    else LastWrite(states, actions, n - 1, g)
  }

  lemma WriteStoresAnOwnUrl(t: Tables, a: Action, g: Guid)
    requires Inv(t) && Enabled(t, a) && WritesBody(t, a, g)
    ensures g in Next(t, a).feeds
    ensures Next(t, a).feeds[g].body == a.s.body
    ensures Next(t, a).feeds[g].url in {a.s.sourceUrl, a.s.canonicalUrl}
    ensures Next(t, a).feeds[g].declaredNew == a.s.body.newFeedUrl
    ensures Next(t, a).feeds[g].declaredSelf == SelfLink(a.s.body.links)
  {
    hide IngestWrite;
    NextFeed(t, a, g);
    WrittenClass(t, a, g);
    MoveArguments(t, a.s, a.c, a.now);
  }

  lemma BodyKept(t: Tables, a: Action, g: Guid)
    requires Inv(t) && Enabled(t, a) && !WritesBody(t, a, g) && g in Next(t, a).feeds
    ensures g in t.feeds && Next(t, a).feeds[g].body == t.feeds[g].body
    ensures !Relocates(t, a, g) ==> Next(t, a).feeds[g] == t.feeds[g]
  {
    hide Next;
    hide IngestWrite;
    NextFeed(t, a, g);
  }

  /** Action `i` wrote the row of `g` in `states[n]`, at one of its two URLs. */
  predicate WrittenAt(states: seq<Tables>, actions: seq<Action>, i: nat, n: nat, g: Guid)
    requires IsRun(states, actions) && i < n < |states| && g in states[n].feeds
  {
    && WritesBody(states[i], actions[i], g)
    && states[n].feeds[g].body == actions[i].s.body
    && g in states[i + 1].feeds
    && states[i + 1].feeds[g].url in {actions[i].s.sourceUrl, actions[i].s.canonicalUrl}
    && (NoRelocation(states, actions, i, n, g) ==> states[n].feeds[g] == states[i + 1].feeds[g])
  }

  predicate NoRelocation(states: seq<Tables>, actions: seq<Action>, i: nat, n: nat, g: Guid)
    requires IsRun(states, actions) && i < n < |states|
  {
    forall k :: i < k < n ==> !Relocates(states[k], actions[k], g)
  }

  /**
   The content of a record comes from the submission that wrote it last, at one
   of the two URLs of that submission, and only a relocation changes the URL
   that the submission stored.
   */
  lemma {:induction false} ContentHasASource(states: seq<Tables>, actions: seq<Action>, n: nat, g: Guid)
    requires IsRun(states, actions) && n < |states| && g in states[n].feeds
    ensures var w := LastWrite(states, actions, n, g);
            w.Some? && w.value < n && WrittenAt(states, actions, w.value, n, g)
    decreases n
  {
    InvAlways(states, actions, n - 1);
    hide Next;
    hide WritesBody;
    hide Relocates;
    RunStep(states, actions, n - 1);
    if WritesBody(states[n - 1], actions[n - 1], g) {
      WriteStoresAnOwnUrl(states[n - 1], actions[n - 1], g);
    } else {
      BodyKept(states[n - 1], actions[n - 1], g);
      ContentHasASource(states, actions, n - 1, g);
      var i := LastWrite(states, actions, n - 1, g).value;
      KeptAfterWrite(states, actions, i, n, g);
    }
  }

  lemma KeptAfterWrite(states: seq<Tables>, actions: seq<Action>, i: nat, n: nat, g: Guid)
    requires IsRun(states, actions) && i < n - 1 && n < |states|
    requires g in states[n].feeds && g in states[n - 1].feeds
    requires WrittenAt(states, actions, i, n - 1, g)
    requires states[n].feeds[g].body == states[n - 1].feeds[g].body
    requires !Relocates(states[n - 1], actions[n - 1], g) ==> states[n].feeds[g] == states[n - 1].feeds[g]
    ensures WrittenAt(states, actions, i, n, g)
  {
    hide Next;
    hide WritesBody;
    hide Relocates;
    hide IsRun;
    if NoRelocation(states, actions, i, n, g) {
      assert NoRelocation(states, actions, i, n - 1, g);
    }
  }

  // ── retired GUIDs ──────────────────────────────────────────────────────

  /**
   The source URL that a retired GUID is held to: the URL of its record at the
   last retire with no block, until an admission or an operator release.
   */
  function HeldTo(states: seq<Tables>, actions: seq<Action>, n: nat, g: Guid): Option<Url>
    requires IsRun(states, actions) && n < |states|
    decreases n
  {
    if n == 0 || g in states[n].feeds then None
    else
      var a := actions[n - 1];
      if Retires(states[n - 1], a, g) && !(a.Retire? && a.withBlocks) then Some(states[n - 1].feeds[g].url)
      else if a.Release? && a.guid == g then None
      else HeldTo(states, actions, n - 1, g)
  }

  function ActiveHold(r: Record): Option<Url> {
    if r.hold.Some? && r.hold.value.releasedAt.None? then Some(r.hold.value.sourceUrl) else None
  }

  lemma HoldStep(t: Tables, a: Action, g: Guid)
    requires Inv(t) && Enabled(t, a)
    ensures var before, after := ActiveHold(RecordOf(t, g)), ActiveHold(RecordOf(Next(t, a), g));
            if g in Next(t, a).feeds then after == None
            else if Retires(t, a, g) && !(a.Retire? && a.withBlocks) then after == Some(t.feeds[g].url)
            else if a.Release? && a.guid == g then after == None
            else after == before
  {
    hide Next;
    hide IngestWrite;
    hide MoveOf;
    NextRecord(t, a, g);
    NextFeed(t, a, g);
    assert RecordInv(RecordOf(t, g));
    assert RecordOf(t, g).hold == Lookup(t.holds, g);
    assert RecordOf(t, g).feed == Lookup(t.feeds, g);
  }

  lemma {:induction false} HoldsAreHistory(states: seq<Tables>, actions: seq<Action>, n: nat, g: Guid)
    requires IsRun(states, actions) && n < |states|
    ensures ActiveHold(RecordOf(states[n], g)) == HeldTo(states, actions, n, g)
    decreases n
  {
    if n > 0 {
      HoldsAreHistory(states, actions, n - 1, g);
      InvAlways(states, actions, n - 1);
      hide Next;
      hide Retires;
      hide RecordOf;
      RunStep(states, actions, n - 1);
      HoldStep(states[n - 1], actions[n - 1], g);
    }
  }

  /** A retired GUID returns only from its source, or by a GUID transition. */
  lemma RetiredGuidReturnsFromItsSource(states: seq<Tables>, actions: seq<Action>, n: nat, g: Guid)
    requires IsRun(states, actions) && n < |actions|
    requires g !in states[n].feeds && WritesBody(states[n], actions[n], g)
    requires HeldTo(states, actions, n, g).Some?
    ensures actions[n].c.GuidChanged?
            || HeldTo(states, actions, n, g).value in {actions[n].s.sourceUrl, actions[n].s.canonicalUrl}
  {
    hide Next;
    HoldsAreHistory(states, actions, n, g);
    InvAlways(states, actions, n);
    RunStep(states, actions, n);
    WrittenClass(states[n], actions[n], g);
    hide IngestWrite;
  }
}
