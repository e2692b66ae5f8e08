/**
 The event log, the pages that the primary serves from it, and a replica that
 receives batches in any overlap: it deduplicates by event ID and keeps a cursor.
 */
module ReplicaSync {
  import opened Basics
  import opened FeedTables
  import opened Replication
  import opened NodeSimulation
  import S = NodeStore

  // ── the log ────────────────────────────────────────────────────────────

  /** A row of `events`. Its ID is a UUID. */
  datatype LogEvent = LogEvent(id: string, seqNo: int, event: Event)

  /** `COALESCE(MAX(seq), 0)`. */
  function MaxSeq(log: seq<LogEvent>): int {
    if log == [] then 0
    else
      var rest := MaxSeq(log[..|log| - 1]);
      if log[|log| - 1].seqNo > rest then log[|log| - 1].seqNo else rest
  }

  /** `insert_event` gives each row the highest number plus one. */
  function InsertEvent(log: seq<LogEvent>, id: string, e: Event): seq<LogEvent> {
    log + [LogEvent(id, MaxSeq(log) + 1, e)]
  }

  /** The rows are numbered 1, 2, … in the order of their inserts. */
  predicate Numbered(log: seq<LogEvent>) {
    forall i :: 0 <= i < |log| ==> log[i].seqNo == i + 1
  }

  /** No two rows share an ID, as the primary key of `events` demands. */
  predicate DistinctIds(log: seq<LogEvent>) {
    forall i, j :: 0 <= i < j < |log| ==> log[i].id != log[j].id
  }

  lemma {:induction false} MaxSeqOfNumbered(log: seq<LogEvent>)
    requires Numbered(log)
    ensures MaxSeq(log) == |log|
  {
    if log != [] {
      MaxSeqOfNumbered(log[..|log| - 1]);
    }
  }

  /** Inserts from an empty table leave no gap. */
  lemma InsertKeepsNumbers(log: seq<LogEvent>, id: string, e: Event)
    requires Numbered(log)
    ensures Numbered(InsertEvent(log, id, e)) && log <= InsertEvent(log, id, e)
  {
    MaxSeqOfNumbered(log);
  }

  function EventsOf(log: seq<LogEvent>): (r: seq<Event>)
    ensures |r| == |log|
  {
    seq(|log|, i requires 0 <= i < |log| => log[i].event)
  }

  function IdsOf(log: seq<LogEvent>): set<string> {
    set i | 0 <= i < |log| :: log[i].id
  }

  // ── pages ──────────────────────────────────────────────────────────────

  function Clamp(x: int, lo: int, hi: int): int {
    if x < lo then lo else if x > hi then hi else x
  }

  /** `get_events_since`: the scan of the rows in the order of `seq`, with a limit. */
  method GetEventsSince(log: seq<LogEvent>, after: int, limit: int) returns (page: seq<LogEvent>)
    requires Numbered(log)
    ensures var first := Clamp(after, 0, |log|);
            var safeLimit := if limit < 1 then 1 else limit;
            page == log[first..Clamp(first + safeLimit, 0, |log|)]
  {
    var safeLimit := if limit < 1 then 1 else limit;
    ghost var first := Clamp(after, 0, |log|);
    page := [];
    var i := 0;
    while i < |log| && |page| < safeLimit
      invariant 0 <= i <= |log|
      invariant i <= first ==> page == []
      invariant i > first ==> page == log[first..i]
      invariant |page| <= safeLimit
    {
      if log[i].seqNo > after {
        page := page + [log[i]];
      }
      i := i + 1;
    }
  }

  /** `handle_sync_events`: a page, whether it is full, and the number of its last row. */
  method HandleSyncEvents(log: seq<LogEvent>, after: int, limit: int)
      returns (page: seq<LogEvent>, hasMore: bool, nextSeq: int)
    requires Numbered(log)
    ensures var first := Clamp(after, 0, |log|);
            var capped := Clamp(limit, 1, 1000);
            && page == log[first..Clamp(first + capped, 0, |log|)]
            && hasMore == (|page| == capped)
            && nextSeq == (if page == [] then after else first + |page|)
  {
    var capped := Clamp(limit, 1, 1000);
    page := GetEventsSince(log, after, capped);
    hasMore := |page| == capped;
    nextSeq := if page == [] then after else page[|page| - 1].seqNo;
  }

  /**
   A reader that asks for the page after the last `nextSeq` while there is more:
   the pages are the rest of the log, for each limit, also when the last page is
   full and an empty page follows it.
   */
  method ReadRest(log: seq<LogEvent>, after: nat, limit: int) returns (events: seq<LogEvent>)
    requires Numbered(log)
    ensures events == log[Clamp(after, 0, |log|)..]
  {
    events := [];
    var last: int := after;
    var more := true;
    while more
      invariant after <= last
      invariant after < |log| ==> last <= |log|
      invariant events == log[Clamp(after, 0, |log|)..Clamp(last, 0, |log|)]
      invariant !more ==> last >= |log|
      decreases more, |log| - last
    {
      var page, hasMore, nextSeq := HandleSyncEvents(log, last, limit);
      events := events + page;
      last := nextSeq;
      more := hasMore;
    }
  }

  // ── a replica ──────────────────────────────────────────────────────────

  /** The value of a replica: its tables, the IDs in its `events`, its cursor. */
  datatype Replica = Replica(node: Node, ids: set<string>, cursor: int)

  const EMPTY_REPLICA := Replica(EMPTY_NODE, {}, 0)

  /** The first step inserts the ID; a failed statement leaves the ID in place. */
  function Deliver(env: Env, r: Replica, e: LogEvent): Replica {
    if e.id in r.ids then r
    else
      var applied := Apply(env, r.node, e.event);
      r.(ids := r.ids + {e.id}, node := if applied.Some? then applied.value else r.node)
  }

  function DeliverAll(env: Env, r: Replica, batch: seq<LogEvent>): Replica {
    if batch == [] then r
    else Deliver(env, DeliverAll(env, r, batch[..|batch| - 1]), batch[|batch| - 1])
  }

  /** The event fails, so it does not move the cursor. */
  predicate Fails(env: Env, r: Replica, e: LogEvent) {
    e.id !in r.ids && Apply(env, r.node, e.event).None?
  }

  /** The highest number of an event that was applied or known. */
  function MaxSeen(env: Env, r: Replica, batch: seq<LogEvent>): int {
    if batch == [] then 0
    else
      var front := batch[..|batch| - 1];
      var e := batch[|batch| - 1];
      var seen := MaxSeen(env, r, front);
      if !Fails(env, DeliverAll(env, r, front), e) && e.seqNo > seen then e.seqNo else seen
  }

  /** `apply_events`: the batch in one transaction, and then the cursor. */
  function Receive(env: Env, r: Replica, batch: seq<LogEvent>): Replica {
    var seen := MaxSeen(env, r, batch);
    var r' := DeliverAll(env, r, batch);
    if seen > 0 && seen > r.cursor then r'.(cursor := seen) else r'
  }

  /** Event `i` of the batch was known already, or its statement succeeded. */
  predicate Succeeds(env: Env, r: Replica, batch: seq<LogEvent>, i: nat)
    requires i < |batch|
  {
    var before := DeliverAll(env, r, batch[..i]);
    batch[i].id in before.ids || Apply(env, before.node, batch[i].event).Some?
  }

  lemma {:induction false} SeenExactly(env: Env, r: Replica, batch: seq<LogEvent>)
    ensures var seen := MaxSeen(env, r, batch);
            && seen >= 0
            && (forall i :: 0 <= i < |batch| && Succeeds(env, r, batch, i) ==> batch[i].seqNo <= seen)
            && (seen == 0 || exists i :: 0 <= i < |batch| && Succeeds(env, r, batch, i) && batch[i].seqNo == seen)
  {
    hide Apply, DeliverAll;
    if batch != [] {
      var n := |batch| - 1;
      var front := batch[..n];
      SeenExactly(env, r, front);
      forall i | 0 <= i < n
        ensures Succeeds(env, r, batch, i) == Succeeds(env, r, front, i)
      {
        assert front[..i] == batch[..i];
      }
      if Succeeds(env, r, batch, n) && batch[n].seqNo > MaxSeen(env, r, front) {
        assert MaxSeen(env, r, batch) == batch[n].seqNo;
      } else {
        assert MaxSeen(env, r, batch) == MaxSeen(env, r, front);
        if MaxSeen(env, r, front) != 0 {
          var i :| 0 <= i < |front| && Succeeds(env, r, front, i) && front[i].seqNo == MaxSeen(env, r, front);
          assert Succeeds(env, r, batch, i);
        }
      }
    }
  }

  /** A batch moves the cursor to the highest number of an event that was known or succeeded, and never back. */
  lemma CursorExactly(env: Env, r: Replica, batch: seq<LogEvent>)
    requires r.cursor >= 0
    ensures var cursor := Receive(env, r, batch).cursor;
            && cursor >= r.cursor
            && (forall i :: 0 <= i < |batch| && Succeeds(env, r, batch, i) ==> batch[i].seqNo <= cursor)
            && (cursor == r.cursor || exists i :: 0 <= i < |batch| && Succeeds(env, r, batch, i) && batch[i].seqNo == cursor)
  {
    hide MaxSeen, Succeeds;
    SeenExactly(env, r, batch);
    DeliveriesKeepCursor(env, r, batch);
  }

  lemma {:induction false} DeliveriesKeepCursor(env: Env, r: Replica, batch: seq<LogEvent>)
    ensures DeliverAll(env, r, batch).cursor == r.cursor
  {
    hide Apply;
    if batch != [] {
      DeliveriesKeepCursor(env, r, batch[..|batch| - 1]);
    }
  }

  /** The replica holds exactly the first `n` events of the log. */
  ghost predicate HoldsPrefix(env: Env, log: seq<LogEvent>, r: Replica, n: nat) {
    && n <= |log|
    && r.ids == IdsOf(log[..n])
    && ApplyAll(env, EMPTY_NODE, EventsOf(log[..n])) == Some(r.node)
  }

  /** The log is one that a primary made: each replica can apply it from the start. */
  ghost predicate Sane(env: Env, log: seq<LogEvent>) {
    Numbered(log) && DistinctIds(log) && ApplyAll(env, EMPTY_NODE, EventsOf(log)).Some?
  }

  /** `batch` is a part of the log that begins at or before the event after the cursor. */
  predicate Overlaps(log: seq<LogEvent>, r: Replica, a: nat, b: nat) {
    a <= b <= |log| && a <= r.cursor
  }

  lemma {:induction false} PrefixApplies(env: Env, log: seq<LogEvent>, n: nat)
    requires n <= |log| && ApplyAll(env, EMPTY_NODE, EventsOf(log)).Some?
    ensures ApplyAll(env, EMPTY_NODE, EventsOf(log[..n])).Some?
    decreases |log| - n
  {
    hide Apply;
    if n == |log| {
      assert log[..n] == log;
    } else {
      PrefixApplies(env, log, n + 1);
      assert EventsOf(log[..n + 1])[..n] == EventsOf(log[..n]);
    }
  }

  lemma IdInPrefix(log: seq<LogEvent>, i: nat, n: nat)
    requires DistinctIds(log) && i < |log| && n <= |log|
    ensures log[i].id in IdsOf(log[..n]) <==> i < n
    ensures i < |log| ==> IdsOf(log[..i + 1]) == IdsOf(log[..i]) + {log[i].id}
  {
    if i < n {
      assert log[..n][i].id in IdsOf(log[..n]);
    }
    forall id
      ensures id in IdsOf(log[..i + 1]) <==> id in IdsOf(log[..i]) + {log[i].id}
    {
      if id in IdsOf(log[..i]) {
        var k :| 0 <= k < i && log[..i][k].id == id;
        assert log[..i + 1][k].id == id;
      }
      if id in IdsOf(log[..i + 1]) {
        var k :| 0 <= k <= i && log[..i + 1][k].id == id;
        assert k < i ==> log[..i][k].id == id;
      }
      assert log[..i + 1][i].id == log[i].id;
    }
  }

  lemma NextEvent(env: Env, log: seq<LogEvent>, i: nat)
    requires i < |log|
    ensures EventsOf(log[..i + 1]) == EventsOf(log[..i]) + [log[i].event]
  {
  }

  /** One event of the log at a replica that holds a prefix up to it or past it. */
  lemma DeliverKeepsPrefix(env: Env, log: seq<LogEvent>, r: Replica, n: nat, i: nat)
    requires Sane(env, log) && HoldsPrefix(env, log, r, n) && i <= n && i < |log|
    ensures !Fails(env, r, log[i])
    ensures HoldsPrefix(env, log, Deliver(env, r, log[i]), if i == n then n + 1 else n)
    ensures Deliver(env, r, log[i]).cursor == r.cursor
  {
    hide Apply, ApplyAll;
    IdInPrefix(log, i, n);
    if i == n {
      PrefixApplies(env, log, n + 1);
      NextEvent(env, log, n);
      ApplyAllConcat(env, EMPTY_NODE, EventsOf(log[..n]), [log[n].event]);
      ApplyAllOne(env, r.node, log[n].event);
    }
  }

  lemma {:induction false} BatchKeepsPrefix(env: Env, log: seq<LogEvent>, r: Replica, n: nat, a: nat, b: nat)
    requires Sane(env, log) && HoldsPrefix(env, log, r, n) && a <= b <= |log| && a <= n
    ensures HoldsPrefix(env, log, DeliverAll(env, r, log[a..b]), if b > n then b else n)
    ensures DeliverAll(env, r, log[a..b]).cursor == r.cursor
    ensures MaxSeen(env, r, log[a..b]) == if a < b then b else 0
    decreases b
  {
    hide Deliver, Fails, HoldsPrefix, Sane;
    if a < b {
      BatchKeepsPrefix(env, log, r, n, a, b - 1);
      assert log[a..b][..b - a - 1] == log[a..b - 1];
      var r1 := DeliverAll(env, r, log[a..b - 1]);
      DeliverKeepsPrefix(env, log, r1, if b - 1 > n then b - 1 else n, b - 1);
      assert log[b - 1].seqNo == b by { SaneNumbers(env, log, b - 1); }
    }
  }

  lemma SaneNumbers(env: Env, log: seq<LogEvent>, i: nat)
    requires Sane(env, log) && i < |log|
    ensures log[i].seqNo == i + 1
  {
  }

  /** The applied events are those up to the cursor, and the tables are theirs. */
  ghost predicate InStep(env: Env, log: seq<LogEvent>, r: Replica) {
    0 <= r.cursor && HoldsPrefix(env, log, r, r.cursor)
  }

  /** A batch that overlaps or extends what the replica holds keeps it in step. */
  lemma ReceiveKeepsInStep(env: Env, log: seq<LogEvent>, r: Replica, a: nat, b: nat)
    requires Sane(env, log) && InStep(env, log, r) && Overlaps(log, r, a, b)
    ensures InStep(env, log, Receive(env, r, log[a..b]))
    ensures Receive(env, r, log[a..b]).cursor == if b > r.cursor then b else r.cursor
  {
    hide HoldsPrefix, Sane, MaxSeen, DeliverAll;
    BatchKeepsPrefix(env, log, r, r.cursor, a, b);
    HoldsPrefixIgnoresCursor(env, log, DeliverAll(env, r, log[a..b]), if b > r.cursor then b else r.cursor);
  }

  lemma HoldsPrefixIgnoresCursor(env: Env, log: seq<LogEvent>, r: Replica, n: nat)
    requires HoldsPrefix(env, log, r, n)
    ensures forall c :: HoldsPrefix(env, log, r.(cursor := c), n)
  {
  }

  lemma {:induction false} DeliveredIds(env: Env, r: Replica, batch: seq<LogEvent>)
    ensures DeliverAll(env, r, batch).ids == r.ids + IdsOf(batch)
  {
    hide Apply;
    if batch != [] {
      var n := |batch| - 1;
      DeliveredIds(env, r, batch[..n]);
      assert IdsOf(batch) == IdsOf(batch[..n]) + {batch[n].id} by {
        forall id
          ensures id in IdsOf(batch) <==> id in IdsOf(batch[..n]) + {batch[n].id}
        {
          if id in IdsOf(batch[..n]) {
            var k :| 0 <= k < n && batch[..n][k].id == id;
            assert batch[k].id == id;
          }
          if id in IdsOf(batch) {
            var k :| 0 <= k <= n && batch[k].id == id;
            assert k < n ==> batch[..n][k].id == id;
          }
        }
      }
    }
  }

  /** A batch that leaves a gap after the cursor puts the replica out of step. */
  lemma GapLosesStep(env: Env, log: seq<LogEvent>, r: Replica, a: nat, b: nat)
    requires Sane(env, log) && InStep(env, log, r) && r.cursor < a < b <= |log|
    ensures !InStep(env, log, Receive(env, r, log[a..b]))
  {
    hide Apply, ApplyAll, MaxSeen, DeliverAll;
    var r' := Receive(env, r, log[a..b]);
    DeliveredIds(env, r, log[a..b]);
    assert log[a..b][0].id in IdsOf(log[a..b]);
    IdInPrefix(log, r.cursor, r.cursor);
    assert log[r.cursor].id !in r'.ids && log[a].id in r'.ids;
    forall n: nat | n <= |log|
      ensures r'.ids != IdsOf(log[..n])
    {
      IdInPrefix(log, a, n);
      IdInPrefix(log, r.cursor, n);
    }
  }

  /** A part of the log keeps the replica in step exactly when it leaves no gap. */
  lemma InStepExactly(env: Env, log: seq<LogEvent>, r: Replica, a: nat, b: nat)
    requires Sane(env, log) && InStep(env, log, r) && a <= b <= |log|
    ensures InStep(env, log, Receive(env, r, log[a..b])) <==> a <= r.cursor || a == b
  {
    hide InStep, Sane, Receive;
    assert 0 <= r.cursor <= |log| by { CursorInLog(env, log, r); }
    if a <= r.cursor {
      ReceiveKeepsInStep(env, log, r, a, b);
    } else if a < b {
      GapLosesStep(env, log, r, a, b);
    } else {
      assert log[a..b] == [];
      ReceiveNothing(env, r);
    }
  }

  lemma CursorInLog(env: Env, log: seq<LogEvent>, r: Replica)
    requires InStep(env, log, r)
    ensures 0 <= r.cursor <= |log|
  {
  }

  lemma ReceiveNothing(env: Env, r: Replica)
    ensures Receive(env, r, []) == r
  {
  }

  // ── runs ───────────────────────────────────────────────────────────────

  /** Deliveries of parts of the log, each one with no gap, in any overlap. */
  ghost predicate SyncRun(env: Env, log: seq<LogEvent>, parts: seq<(nat, nat)>, rs: seq<Replica>) {
    && |rs| == |parts| + 1
    && rs[0] == EMPTY_REPLICA
    && forall k :: 0 <= k < |parts| ==>
         && Overlaps(log, rs[k], parts[k].0, parts[k].1)
         && rs[k + 1] == Receive(env, rs[k], log[parts[k].0..parts[k].1])
  }

  lemma {:induction false} AlwaysInStep(env: Env, log: seq<LogEvent>, parts: seq<(nat, nat)>, rs: seq<Replica>, k: nat)
    requires Sane(env, log) && SyncRun(env, log, parts, rs) && k <= |parts|
    ensures InStep(env, log, rs[k])
    ensures k > 0 ==> rs[k].cursor >= rs[k - 1].cursor
    decreases k
  {
    hide InStep, Sane, Receive;
    if k == 0 {
      EmptyInStep(env, log);
    } else {
      AlwaysInStep(env, log, parts, rs, k - 1);
      assert Overlaps(log, rs[k - 1], parts[k - 1].0, parts[k - 1].1);
      ReceiveKeepsInStep(env, log, rs[k - 1], parts[k - 1].0, parts[k - 1].1);
    }
  }

  lemma EmptyInStep(env: Env, log: seq<LogEvent>)
    ensures InStep(env, log, EMPTY_REPLICA)
  {
    assert IdsOf(log[..0]) == {};
    assert ApplyAll(env, EMPTY_NODE, []) == Some(EMPTY_NODE);
  }

  lemma {:induction false} LogGrows(env: Env, ts: seq<Transaction>, m: nat)
    requires m <= |ts|
    ensures After(env, ts[..m]).1 <= After(env, ts).1
    decreases |ts|
  {
    hide Commit;
    if m == |ts| {
      assert ts[..m] == ts;
    } else {
      var n := |ts| - 1;
      LogGrows(env, ts[..n], m);
      assert ts[..n][..m] == ts[..m];
      assert After(env, ts).1 == After(env, ts[..n]).1 + Commit(env, After(env, ts[..n]).0, ts[n]).1;
    }
  }

  /**
   Whatever the overlap of its deliveries, a replica whose cursor stands at the
   end of a transaction holds the replicated columns that the primary had then.
   */
  lemma ReplicaMatchesThePrimary(env: Env, ts: seq<Transaction>, m: nat, log: seq<LogEvent>, parts: seq<(nat, nat)>,
                                 rs: seq<Replica>, k: nat)
    requires ReadsAll(env.order) && Admissible(env, ts) && m <= |ts|
    requires EventsOf(log) == After(env, ts).1 && Numbered(log) && DistinctIds(log)
    requires SyncRun(env, log, parts, rs) && k <= |parts|
    requires rs[k].cursor == |After(env, ts[..m]).1|
    ensures NodesAgree(After(env, ts[..m]).0, rs[k].node)
  {
    hide NodesAgree, ApplyAll, ReadsAll, Admissible, After;
    LogRebuildsThePrimary(env, ts);
    AlwaysInStep(env, log, parts, rs, k);
    LogGrows(env, ts, m);
    var n := rs[k].cursor;
    assert EventsOf(log[..n]) == EventsOf(log)[..n] == After(env, ts[..m]).1;
    assert Admissible(env, ts[..m]) by { AdmissiblePrefix(env, ts, m); }
    LogRebuildsThePrimary(env, ts[..m]);
  }

  lemma AdmissiblePrefix(env: Env, ts: seq<Transaction>, m: nat)
    requires Admissible(env, ts) && m <= |ts|
    ensures Admissible(env, ts[..m])
  {
    hide After, Permitted, Settles;
    assert forall i :: 0 <= i < m ==> ts[..m][..i] == ts[..i] && ts[..m][i] == ts[i];
  }

  // ── the replica in place ───────────────────────────────────────────────

  const POLL_LIMIT: int := 500
  const MAX_DRAIN_PAGES: int := 100

  class ReplicaNode {
    const store: S.NodeStore
    var ids: set<string>
    var cursor: int

    function Value(): Replica
      reads this, store
    {
      Replica(store.State(), ids, cursor)
    }

    constructor ()
      ensures Value() == EMPTY_REPLICA && fresh(store)
    {
      store := new S.NodeStore();
      ids, cursor := {}, 0;
    }

    /** The batch loop of `apply_events`, after the signatures are checked. */
    method ApplyEvents(env: Env, batch: seq<LogEvent>) returns (applied: nat, duplicate: nat, rejected: nat)
      modifies this, store
      ensures Value() == Receive(env, old(Value()), batch)
      ensures applied + duplicate + rejected == |batch|
    {
      applied, duplicate, rejected := 0, 0, 0;
      var maxPrimarySeq := 0;
      ghost var start := Value();
      for i := 0 to |batch|
        invariant Value() == DeliverAll(env, start, batch[..i])
        invariant maxPrimarySeq == MaxSeen(env, start, batch[..i])
        invariant cursor == start.cursor
        invariant applied + duplicate + rejected == i
      {
        var e := batch[i];
        assert batch[..i + 1][..i] == batch[..i];
        if e.id in ids {
          duplicate := duplicate + 1;
          if e.seqNo > maxPrimarySeq {
            maxPrimarySeq := e.seqNo;
          }
        } else {
          ids := ids + {e.id};
          var ok := store.ApplySingleEvent(env, e.event);
          if ok {
            applied := applied + 1;
            if e.seqNo > maxPrimarySeq {
              maxPrimarySeq := e.seqNo;
            }
          } else {
            rejected := rejected + 1;
          }
        }
      }
      assert batch[..|batch|] == batch;
      if maxPrimarySeq > 0 && maxPrimarySeq > cursor {
        cursor := maxPrimarySeq;
      }
    }

    /**
     The inner loop of `run_community_sync`. It ends at the end of the log, or
     after 100 full pages; `lastSeq` is the position that the loop keeps.
     */
    method Drain(env: Env, log: seq<LogEvent>, start: int) returns (lastSeq: int, caughtUp: bool)
      requires Sane(env, log) && InStep(env, log, Value()) && 0 <= start <= cursor
      modifies this, store
      ensures InStep(env, log, Value()) && old(cursor) <= cursor && start <= lastSeq <= cursor
      ensures caughtUp ==> lastSeq == cursor == |log|
      ensures !caughtUp ==> lastSeq - start >= MAX_DRAIN_PAGES * POLL_LIMIT
    {
      hide Sane, InStep, Receive;
      lastSeq := start;
      caughtUp := false;
      var pagesDrained := 0;
      assert Numbered(log) by { SaneIsNumbered(env, log); }
      CursorInLog(env, log, Value());
      while !caughtUp && pagesDrained < MAX_DRAIN_PAGES
        invariant InStep(env, log, Value()) && old(cursor) <= cursor <= |log|
        invariant start <= lastSeq <= cursor
        invariant 0 <= pagesDrained <= MAX_DRAIN_PAGES
        invariant caughtUp ==> lastSeq == cursor == |log|
        invariant !caughtUp ==> lastSeq - start >= pagesDrained * POLL_LIMIT
        decreases MAX_DRAIN_PAGES - pagesDrained
      {
        var page, hasMore, nextSeq := HandleSyncEvents(log, lastSeq, POLL_LIMIT);
        if |page| > 0 {
          ReceiveKeepsInStep(env, log, Value(), lastSeq, lastSeq + |page|);
          var applied, _, _ := ApplyEvents(env, page);
          CursorInLog(env, log, Value());
          if applied > 0 {
            if cursor > lastSeq {
              lastSeq := cursor;
            }
          } else if nextSeq > lastSeq {
            lastSeq := nextSeq;
          }
        } else if nextSeq > lastSeq {
          lastSeq := nextSeq;
        }
        pagesDrained := pagesDrained + 1;
        caughtUp := !hasMore;
      }
    }
  }

  lemma SaneIsNumbered(env: Env, log: seq<LogEvent>)
    requires Sane(env, log)
    ensures Numbered(log)
  {
  }
}
