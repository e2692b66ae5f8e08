/**
 The purpose of ADR 0083: when each URL always serves the same body and no
 operator acts, a record stops moving, whatever loops the tags and the self
 links of the bodies form.
 */
module StaticHosts {
  import opened Basics
  import opened Cooldown
  import opened Ownership
  import opened OwnershipInvariants
  import opened OwnershipSteps
  import opened OwnershipRuns
  import Sequences

  /** What each URL serves: the declared GUID and the body. */
  type Hosts = Url -> (Guid, Body)

  /** A submission of a served body with no redirect, or a gone report. */
  predicate StaticAction(hosts: Hosts, a: Action) {
    match a
    case Ingest(s, _, _, _) =>
      s.sourceUrl == s.canonicalUrl && s.redirects == [] && hosts(s.sourceUrl) == (s.guid, s.body)
    case Gone(_, _, _) => true
    case _ => false
  }

  predicate StaticRun(hosts: Hosts, states: seq<Tables>, actions: seq<Action>) {
    IsRun(states, actions) && forall i :: 0 <= i < |actions| ==> StaticAction(hosts, actions[i])
  }

  /** The declarations come from the current URL, and a moved record keeps its tag. */
  predicate Settled(hosts: Hosts, r: Record) {
    && (r.feed.Some? ==>
          var body := hosts(r.feed.value.url).1;
          && r.feed.value.declaredNew == body.newFeedUrl
          && r.feed.value.declaredSelf == SelfLink(body.links)
          && (r.state.Some? ==> !r.state.value.pending && r.state.value.arrivalTag == body.newFeedUrl))
    && (r.left != {} ==> r.state.Some?)
  }

  lemma SettledAfterWrite(hosts: Hosts, t: Tables, a: Action, g: Guid)
    requires Inv(t) && Enabled(t, a) && StaticAction(hosts, a)
    requires WritesBody(t, a, g) && Settled(hosts, RecordOf(t, g))
    ensures Settled(hosts, StepRecord(t, a, g))
  {
    hide IngestWrite;
    hide MoveTarget;
    assert RecordInv(RecordOf(t, g));
    assert RecordOf(t, g).feed == Lookup(t.feeds, g);
    WrittenClass(t, a, g);
    MoveArguments(t, a.s, a.c, a.now);
  }

  lemma SettledStep(hosts: Hosts, t: Tables, a: Action, g: Guid)
    requires Inv(t) && Enabled(t, a) && StaticAction(hosts, a)
    requires Settled(hosts, RecordOf(t, g))
    ensures Settled(hosts, RecordOf(Next(t, a), g))
  {
    hide Next;
    hide IngestWrite;
    hide MoveOf;
    hide AdmittedRecord;
    NextRecord(t, a, g);
    if WritesBody(t, a, g) { SettledAfterWrite(hosts, t, a, g); }
  }

  lemma {:induction false} SettledAlways(hosts: Hosts, states: seq<Tables>, actions: seq<Action>, n: nat, g: Guid)
    requires StaticRun(hosts, states, actions) && n < |states|
    ensures Settled(hosts, RecordOf(states[n], g))
    decreases n
  {
    if n > 0 {
      hide Next;
      hide Enabled;
      hide Settled;
      SettledAlways(hosts, states, actions, n - 1, g);
      InvAlways(states, actions, n - 1);
      RunStep(states, actions, n - 1);
      SettledStep(hosts, states[n - 1], actions[n - 1], g);
    }
  }

  /** No move of a static run goes back to a URL that the record left. */
  lemma NoReturns(hosts: Hosts, states: seq<Tables>, actions: seq<Action>, i: nat, g: Guid)
    requires StaticRun(hosts, states, actions) && i < |actions|
    ensures !ReturnsBySource(states[i], actions[i], g)
    ensures MovesBySource(states[i], actions[i], g) ==>
              g in states[i + 1].feeds && states[i + 1].feeds[g].url !in Held(states, i, g)
  {
    hide Next;
    hide IngestWrite;
    InvAlways(states, actions, i);
    SettledAlways(hosts, states, actions, i, g);
    assert StaticAction(hosts, actions[i]);
    assert RecordOf(states[i], g).left == LeftUrls(states[i], g);
    if MovesBySource(states[i], actions[i], g) {
      NonReturnMoveIsNew(states, actions, i, g);
    }
  }

  /** The number of moves of the record since its admission. */
  function MoveCount(states: seq<Tables>, actions: seq<Action>, n: nat, g: Guid): nat
    requires IsRun(states, actions) && n < |states|
    decreases n
  {
    if n == 0 || g !in states[n].feeds || g !in states[n - 1].feeds then 0
    else MoveCount(states, actions, n - 1, g) + if MovesBySource(states[n - 1], actions[n - 1], g) then 1 else 0
  }

  /** The URLs that the crawler submitted. */
  function SubmittedUrls(actions: seq<Action>, n: nat): set<Url>
    requires n <= |actions|
  {
    set i | 0 <= i < n && actions[i].Ingest? :: actions[i].s.sourceUrl
  }

  lemma UrlOfAStaticStep(hosts: Hosts, t: Tables, a: Action, g: Guid)
    requires Inv(t) && Enabled(t, a) && StaticAction(hosts, a) && g in Next(t, a).feeds
    ensures !MovesBySource(t, a, g) && g in t.feeds ==> Next(t, a).feeds[g].url == t.feeds[g].url
    ensures MovesBySource(t, a, g) || g !in t.feeds ==> a.Ingest? && Next(t, a).feeds[g].url == a.s.sourceUrl
    ensures MovesBySource(t, a, g) ==> g in t.feeds
  {
    hide Next;
    hide IngestWrite;
    hide MoveTarget;
    NextFeed(t, a, g);
    if WritesBody(t, a, g) {
      WriteStoresAnOwnUrl(t, a, g);
      if MovesBySource(t, a, g) { MoveKinds(t, a, g); }
    }
  }

  /**
   The moves of a record are one fewer than the URLs it held, so fewer than the
   URLs that were submitted.
   */
  lemma {:induction false} MovesAreFewerThanUrls(hosts: Hosts, states: seq<Tables>, actions: seq<Action>, n: nat, g: Guid)
    requires StaticRun(hosts, states, actions) && n < |states| && g in states[n].feeds
    ensures MoveCount(states, actions, n, g) == |Held(states, n, g)| - 1
    ensures Held(states, n, g) <= SubmittedUrls(actions, n)
    ensures MoveCount(states, actions, n, g) < |SubmittedUrls(actions, n)|
    decreases n
  {
    hide Next;
    hide Enabled;
    hide MovesBySource;
    InvAlways(states, actions, n - 1);
    RunStep(states, actions, n - 1);
    var t, a := states[n - 1], actions[n - 1];
    assert StaticAction(hosts, a);
    UrlOfAStaticStep(hosts, t, a, g);
    NoReturns(hosts, states, actions, n - 1, g);
    var url := states[n].feeds[g].url;
    if a.Ingest? { assert a.s.sourceUrl in SubmittedUrls(actions, n); }
    if g in t.feeds {
      MovesAreFewerThanUrls(hosts, states, actions, n - 1, g);
      assert SubmittedUrls(actions, n - 1) <= SubmittedUrls(actions, n);
      assert t.feeds[g].url in Held(states, n - 1, g);
      assert Held(states, n, g) == {url} + Held(states, n - 1, g);
      if !MovesBySource(t, a, g) { assert Held(states, n, g) == Held(states, n - 1, g); }
    } else {
      assert Held(states, n, g) == {url};
    }
    Sequences.SubsetSize(Held(states, n, g), SubmittedUrls(actions, n));
  }
}
