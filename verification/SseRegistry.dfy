/**
 The registry of live channels, under publishers and subscribers that interleave.
 A publish takes two locks in sequence, so each lock section is one step.
 */
module SseRegistry {
  import opened Basics
  import opened Sequences

  const MAX_SSE_REGISTRY_FEEDS: nat := 10_000
  const SSE_RING_BUFFER_SIZE: nat := 100
  const MAX_SSE_CONNECTIONS: nat := 1_000

  datatype Frame = Frame(kind: string, payload: string, seqNo: int)

  /**
   `channels` holds the frames sent on each channel, oldest first; `rings` holds
   the ring buffers.
   */
  datatype Registry = Registry(channels: map<Guid, seq<Frame>>, rings: map<Guid, seq<Frame>>, connections: nat)

  const EMPTY_REGISTRY := Registry(map[], map[], 0)

  // ── the lock sections ──────────────────────────────────────────────────

  function Sent(r: Registry, g: Guid): seq<Frame> {
    if g in r.channels then r.channels[g] else []
  }

  function Ring(r: Registry, g: Guid): seq<Frame> {
    if g in r.rings then r.rings[g] else []
  }

  function Send(r: Registry, g: Guid, f: Frame): Registry {
    r.(channels := r.channels[g := Sent(r, g) + [f]])
  }

  /** The slow section of a publish sends on a channel that exists or that fits. */
  predicate SendsSlow(r: Registry, g: Guid) {
    g in r.channels || |r.channels| < MAX_SSE_REGISTRY_FEEDS
  }

  predicate AppendFits(r: Registry, g: Guid) {
    g in r.rings || |r.rings| < MAX_SSE_REGISTRY_FEEDS
  }

  /** The last frames of a list that a ring buffer can hold. */
  function LastFrames(frames: seq<Frame>): seq<Frame> {
    if |frames| <= SSE_RING_BUFFER_SIZE then frames else frames[|frames| - SSE_RING_BUFFER_SIZE..]
  }

  /** The section of the second lock: the second check, and the ring buffer. */
  function Append(r: Registry, g: Guid, f: Frame): Registry {
    if !AppendFits(r, g) then r
    else
      var buf := Ring(r, g);
      var room := if |buf| >= SSE_RING_BUFFER_SIZE then buf[1..] else buf;
      r.(rings := r.rings[g := room + [f]])
  }

  function OpenChannel(r: Registry, g: Guid): Registry {
    if g in r.channels || |r.channels| >= MAX_SSE_REGISTRY_FEEDS then r else r.(channels := r.channels[g := []])
  }

  // ── the whole system ───────────────────────────────────────────────────

  /** What one task does at its next step. */
  datatype Task =
    | PublishFast(guid: Guid, frame: Frame)
    | PublishSlow(guid: Guid, frame: Frame)
    | PublishAppend(guid: Guid, frame: Frame)
    | SubscribeFast(guid: Guid)
    | SubscribeSlow(guid: Guid)

  /** `appended` is the history of the frames that reached the second section. */
  datatype System = System(
    registry: Registry, tasks: map<nat, Task>, clients: set<nat>, appended: map<Guid, seq<Frame>>)

  const START := System(EMPTY_REGISTRY, map[], {}, map[])

  function Appended(s: System, g: Guid): seq<Frame> {
    if g in s.appended then s.appended[g] else []
  }

  datatype Action =
    | Begin(id: nat, task: Task)
    | Run(id: nat)
    | Acquire(client: nat)
    | Release(client: nat)

  predicate Enabled(s: System, a: Action) {
    match a
    case Begin(id, task) => id !in s.tasks && (task.PublishFast? || task.SubscribeFast?)
    case Run(id) => id in s.tasks
    case Acquire(client) => client !in s.clients
    case Release(client) => client in s.clients
  }

  function Finish(s: System, id: nat): System {
    s.(tasks := s.tasks - {id})
  }

  function Continue(s: System, id: nat, task: Task): System {
    s.(tasks := s.tasks[id := task])
  }

  function RunTask(s: System, id: nat): System
    requires id in s.tasks
  {
    var r := s.registry;
    match s.tasks[id]
    case PublishFast(g, f) =>
      if g in r.channels then Continue(s, id, PublishAppend(g, f)).(registry := Send(r, g, f))
      else Continue(s, id, PublishSlow(g, f))
    case PublishSlow(g, f) =>
      if SendsSlow(r, g) then Continue(s, id, PublishAppend(g, f)).(registry := Send(r, g, f))
      else Finish(s, id)
    case PublishAppend(g, f) =>
      var s1 := Finish(s, id).(registry := Append(r, g, f));
      if AppendFits(r, g) then s1.(appended := s.appended[g := Appended(s, g) + [f]]) else s1
    case SubscribeFast(g) => if g in r.channels then Finish(s, id) else Continue(s, id, SubscribeSlow(g))
    case SubscribeSlow(g) => Finish(s, id).(registry := OpenChannel(r, g))
  }

  function Next(s: System, a: Action): System
    requires Enabled(s, a)
  {
    match a
    case Begin(id, task) => Continue(s, id, task)
    case Run(id) => RunTask(s, id)
    case Acquire(client) =>
      if s.registry.connections < MAX_SSE_CONNECTIONS
      then s.(registry := s.registry.(connections := s.registry.connections + 1), clients := s.clients + {client})
      else s
    case Release(client) =>
      if s.registry.connections > 0
      then s.(registry := s.registry.(connections := s.registry.connections - 1), clients := s.clients - {client})
      else s.(clients := s.clients - {client})
  }

  ghost predicate IsRun(states: seq<System>, actions: seq<Action>) {
    && |states| == |actions| + 1
    && states[0] == START
    && forall i :: 0 <= i < |actions| ==> Enabled(states[i], actions[i]) && states[i + 1] == Next(states[i], actions[i])
  }

  // ── the invariant ──────────────────────────────────────────────────────

  /** The tasks that sent the frame `f` and did not append it yet. */
  function Waiting(s: System, g: Guid, f: Frame): set<nat> {
    set id | id in s.tasks && s.tasks[id] == PublishAppend(g, f)
  }

  ghost predicate Bounded(s: System) {
    && s.registry.rings.Keys <= s.registry.channels.Keys
    && |s.registry.channels| <= MAX_SSE_REGISTRY_FEEDS
    && s.registry.connections == |s.clients| <= MAX_SSE_CONNECTIONS
    && forall id :: id in s.tasks && s.tasks[id].PublishAppend? ==> s.tasks[id].guid in s.registry.channels
  }

  ghost predicate RingsAreLast(s: System) {
    forall g :: Ring(s.registry, g) == LastFrames(Appended(s, g))
  }

  /** Each frame that was sent was appended, or waits at the second lock. */
  ghost predicate NothingLost(s: System) {
    forall g, f :: multiset(Sent(s.registry, g))[f] == multiset(Appended(s, g))[f] + |Waiting(s, g, f)|
  }

  lemma KeysSize<K, V>(m: map<K, V>)
    ensures |m.Keys| == |m|
  {
  }

  /** The second check never drops a frame that the first one accepted. */
  lemma SecondCheckPasses(s: System, id: nat)
    requires Bounded(s) && id in s.tasks && s.tasks[id].PublishAppend?
    ensures AppendFits(s.registry, s.tasks[id].guid)
  {
    var g := s.tasks[id].guid;
    var r := s.registry;
    if g !in r.rings {
      SubsetSize(r.rings.Keys, r.channels.Keys - {g});
      KeysSize(r.rings);
      KeysSize(r.channels);
    }
  }

  lemma NewKeySize<K, V>(m: map<K, V>, k: K, v: V)
    ensures |m[k := v]| == if k in m then |m| else |m| + 1
  {
    KeysSize(m);
    KeysSize(m[k := v]);
    if k in m {
      assert m[k := v].Keys == m.Keys;
    } else {
      assert m[k := v].Keys == m.Keys + {k};
    }
  }

  lemma SendBounded(s: System, id: nat, g: Guid, f: Frame)
    requires Bounded(s) && id in s.tasks && SendsSlow(s.registry, g)
    ensures Bounded(Continue(s, id, PublishAppend(g, f)).(registry := Send(s.registry, g, f)))
  {
    NewKeySize(s.registry.channels, g, Sent(s.registry, g) + [f]);
  }

  lemma RunBounded(s: System, id: nat)
    requires Bounded(s) && id in s.tasks
    ensures Bounded(RunTask(s, id))
  {
    hide Send, Append;
    match s.tasks[id]
    case PublishFast(g, f) =>
      if g in s.registry.channels {
        SendBounded(s, id, g, f);
      }
    case PublishSlow(g, f) =>
      if SendsSlow(s.registry, g) {
        SendBounded(s, id, g, f);
      }
    case PublishAppend(g, f) => AppendBounded(s, id);
    case SubscribeFast(g) =>
    case SubscribeSlow(g) => NewKeySize(s.registry.channels, g, []);
  }

  lemma AppendBounded(s: System, id: nat)
    requires Bounded(s) && id in s.tasks && s.tasks[id].PublishAppend?
    ensures Bounded(RunTask(s, id))
  {
  }

  lemma NextBounded(s: System, a: Action)
    requires Bounded(s) && Enabled(s, a)
    ensures Bounded(Next(s, a))
  {
    hide RunTask;
    if a.Run? {
      RunBounded(s, a.id);
    }
  }

  // ── the contents of the buffers ────────────────────────────────────────

  lemma LastFramesStep(frames: seq<Frame>, f: Frame)
    ensures var buf := LastFrames(frames);
            (if |buf| >= SSE_RING_BUFFER_SIZE then buf[1..] else buf) + [f] == LastFrames(frames + [f])
  {
  }

  lemma NextRings(s: System, a: Action)
    requires Bounded(s) && RingsAreLast(s) && Enabled(s, a)
    ensures RingsAreLast(Next(s, a))
  {
    hide LastFrames, Next;
    forall g
      ensures Ring(Next(s, a).registry, g) == LastFrames(Appended(Next(s, a), g))
    {
      assert Ring(s.registry, g) == LastFrames(Appended(s, g));
      RingAfter(s, a, g);
      FramesAfter(s, a, g);
      if Appends(s, a) && s.tasks[a.id].guid == g {
        LastFramesStep(Appended(s, g), s.tasks[a.id].frame);
      } else {
        assert Appended(s, g) + [] == Appended(s, g);
      }
    }
  }

  lemma RingAfter(s: System, a: Action, g: Guid)
    requires Bounded(s) && Enabled(s, a)
    ensures var buf := Ring(s.registry, g);
            Ring(Next(s, a).registry, g) ==
            if Appends(s, a) && s.tasks[a.id].guid == g
            then (if |buf| >= SSE_RING_BUFFER_SIZE then buf[1..] else buf) + [s.tasks[a.id].frame]
            else buf
  {
    if Appends(s, a) {
      SecondCheckPasses(s, a.id);
    }
  }

  lemma SizeWithout<T>(a: set<T>, x: T)
    ensures |a| == |a - {x}| + if x in a then 1 else 0
  {
    if x in a {
      assert a == (a - {x}) + {x};
    } else {
      assert a == a - {x};
    }
  }

  /** Two systems whose tasks differ at `id` at most. */
  predicate TasksDifferAt(s: System, s': System, id: nat) {
    s.tasks - {id} == s'.tasks - {id}
  }

  predicate Waits(s: System, id: nat, g: Guid, f: Frame) {
    id in s.tasks && s.tasks[id] == PublishAppend(g, f)
  }

  lemma WaitingAfter(s: System, s': System, id: nat, g: Guid, f: Frame)
    requires TasksDifferAt(s, s', id)
    ensures |Waiting(s', g, f)| + (if Waits(s, id, g, f) then 1 else 0) ==
            |Waiting(s, g, f)| + (if Waits(s', id, g, f) then 1 else 0)
  {
    SizeWithout(Waiting(s, g, f), id);
    SizeWithout(Waiting(s', g, f), id);
    forall x
      ensures x in Waiting(s', g, f) - {id} <==> x in Waiting(s, g, f) - {id}
    {
      assert x in s.tasks - {id} <==> x in s'.tasks - {id};
      assert x in s.tasks - {id} ==> (s.tasks - {id})[x] == (s'.tasks - {id})[x];
    }
    assert Waiting(s', g, f) - {id} == Waiting(s, g, f) - {id};
  }

  /** The step sends the frame of its task, under the read lock or the write lock. */
  predicate Sends(s: System, a: Action)
    requires Enabled(s, a)
  {
    a.Run? &&
    match s.tasks[a.id]
    case PublishFast(g, _) => g in s.registry.channels
    case PublishSlow(g, _) => SendsSlow(s.registry, g)
    case _ => false
  }

  predicate Appends(s: System, a: Action)
    requires Enabled(s, a)
  {
    a.Run? && s.tasks[a.id].PublishAppend?
  }

  function SentBy(s: System, a: Action, g: Guid): seq<Frame>
    requires Enabled(s, a)
  {
    if Sends(s, a) && s.tasks[a.id].guid == g then [s.tasks[a.id].frame] else []
  }

  function AppendedBy(s: System, a: Action, g: Guid): seq<Frame>
    requires Enabled(s, a)
  {
    if Appends(s, a) && s.tasks[a.id].guid == g then [s.tasks[a.id].frame] else []
  }

  lemma SentAfterSection(r: Registry, g: Guid, f: Frame, h: Guid)
    ensures Sent(Send(r, g, f), h) == Sent(r, h) + if h == g then [f] else []
    ensures Sent(OpenChannel(r, g), h) == Sent(r, h)
    ensures Sent(Append(r, g, f), h) == Sent(r, h)
  {
  }

  lemma SentAfter(s: System, a: Action, g: Guid)
    requires Enabled(s, a)
    ensures Sent(Next(s, a).registry, g) == Sent(s.registry, g) + SentBy(s, a, g)
  {
    hide Send, OpenChannel, Append, AppendFits, SendsSlow, Appended;
    if a.Run? {
      var task := s.tasks[a.id];
      var f := if task.SubscribeFast? || task.SubscribeSlow? then Frame("", "", 0) else task.frame;
      SentAfterSection(s.registry, task.guid, f, g);
    }
  }

  lemma AppendedAfter(s: System, a: Action, g: Guid)
    requires Bounded(s) && Enabled(s, a)
    ensures Appended(Next(s, a), g) == Appended(s, g) + AppendedBy(s, a, g)
  {
    hide Send, OpenChannel, Append, AppendFits, SendsSlow, Sent, Bounded;
    if Appends(s, a) {
      SecondCheckPasses(s, a.id);
    }
  }

  /** What one step sends and appends on a channel. */
  lemma FramesAfter(s: System, a: Action, g: Guid)
    requires Bounded(s) && Enabled(s, a)
    ensures Sent(Next(s, a).registry, g) == Sent(s.registry, g) + SentBy(s, a, g)
    ensures Appended(Next(s, a), g) == Appended(s, g) + AppendedBy(s, a, g)
  {
    hide Next, Bounded, Sent, Appended, SentBy, AppendedBy;
    SentAfter(s, a, g);
    AppendedAfter(s, a, g);
  }

  /** A task waits for the second lock from its send to its append. */
  lemma WaitsAfter(s: System, a: Action, g: Guid, f: Frame)
    requires Enabled(s, a) && a.Run?
    ensures TasksDifferAt(s, Next(s, a), a.id)
    ensures Waits(s, a.id, g, f) <==> AppendedBy(s, a, g) == [f]
    ensures Waits(Next(s, a), a.id, g, f) <==> SentBy(s, a, g) == [f]
  {
    hide Send, Append, OpenChannel, SendsSlow;
  }

  lemma CountMore(frames: seq<Frame>, more: seq<Frame>, f: Frame)
    requires |more| <= 1
    ensures multiset(frames + more)[f] == multiset(frames)[f] + if more == [f] then 1 else 0
  {
  }

  lemma OneFrame(s: System, a: Action, g: Guid)
    requires Enabled(s, a)
    ensures |SentBy(s, a, g)| <= 1 && |AppendedBy(s, a, g)| <= 1
  {
  }

  lemma NextLosesNothing(s: System, a: Action)
    requires Bounded(s) && NothingLost(s) && Enabled(s, a)
    ensures NothingLost(Next(s, a))
  {
    forall g, f
      ensures multiset(Sent(Next(s, a).registry, g))[f] == multiset(Appended(Next(s, a), g))[f] + |Waiting(Next(s, a), g, f)|
    {
      FrameIsKept(s, a, g, f);
    }
  }

  lemma FrameIsKept(s: System, a: Action, g: Guid, f: Frame)
    requires Bounded(s) && Enabled(s, a)
    requires multiset(Sent(s.registry, g))[f] == multiset(Appended(s, g))[f] + |Waiting(s, g, f)|
    ensures multiset(Sent(Next(s, a).registry, g))[f] == multiset(Appended(Next(s, a), g))[f] + |Waiting(Next(s, a), g, f)|
  {
    hide Next, SentBy, AppendedBy, Waits, Waiting, Bounded, Sent, Appended;
    FramesAfter(s, a, g);
    assert |SentBy(s, a, g)| <= 1 && |AppendedBy(s, a, g)| <= 1 by { OneFrame(s, a, g); }
    CountMore(Sent(s.registry, g), SentBy(s, a, g), f);
    CountMore(Appended(s, g), AppendedBy(s, a, g), f);
    if a.Run? {
      WaitsAfter(s, a, g, f);
      WaitingAfter(s, Next(s, a), a.id, g, f);
    } else if a.Begin? {
      BeginWaits(s, a, g, f);
      WaitingAfter(s, Next(s, a), a.id, g, f);
    } else {
      OthersSendNothing(s, a, g, f);
    }
  }

  lemma BeginWaits(s: System, a: Action, g: Guid, f: Frame)
    requires Enabled(s, a) && a.Begin?
    ensures TasksDifferAt(s, Next(s, a), a.id)
    ensures !Waits(s, a.id, g, f) && !Waits(Next(s, a), a.id, g, f) && SentBy(s, a, g) == AppendedBy(s, a, g) == []
  {
  }

  lemma OthersSendNothing(s: System, a: Action, g: Guid, f: Frame)
    requires Enabled(s, a) && (a.Acquire? || a.Release?)
    ensures Waiting(Next(s, a), g, f) == Waiting(s, g, f) && SentBy(s, a, g) == AppendedBy(s, a, g) == []
  {
  }

  // ── whole runs ─────────────────────────────────────────────────────────

  /** In every interleaving: the bounds, the buffers, and no frame lost between the locks. */
  lemma {:induction false} AlwaysInvariant(states: seq<System>, actions: seq<Action>, n: nat)
    requires IsRun(states, actions) && n <= |actions|
    ensures Bounded(states[n]) && RingsAreLast(states[n]) && NothingLost(states[n])
  {
    hide Next, Bounded, RingsAreLast, NothingLost, Enabled;
    if n == 0 {
      StartInvariant();
    } else {
      AlwaysInvariant(states, actions, n - 1);
      NextBounded(states[n - 1], actions[n - 1]);
      NextRings(states[n - 1], actions[n - 1]);
      NextLosesNothing(states[n - 1], actions[n - 1]);
    }
  }

  lemma StartInvariant()
    ensures Bounded(START) && RingsAreLast(START) && NothingLost(START)
  {
    forall g, f
      ensures |Waiting(START, g, f)| == 0
    {
      assert Waiting(START, g, f) == {};
    }
  }

  /** In every interleaving a ring holds the last 100 appended frames, or all of them when there are fewer. */
  lemma RingsHoldTheLast(states: seq<System>, actions: seq<Action>, n: nat, g: Guid)
    requires IsRun(states, actions) && n <= |actions|
    ensures var ring, appended := Ring(states[n].registry, g), Appended(states[n], g);
            && |ring| == (if |appended| < 100 then |appended| else 100)
            && forall i :: 0 <= i < |ring| ==> ring[i] == appended[|appended| - |ring| + i]
  {
    hide Next, Bounded, NothingLost, RingsAreLast, Appended, Ring;
    AlwaysInvariant(states, actions, n);
    RingIsLast(states[n], g);
  }

  lemma RingIsLast(s: System, g: Guid)
    requires RingsAreLast(s)
    ensures var ring, appended := Ring(s.registry, g), Appended(s, g);
            && |ring| == (if |appended| < 100 then |appended| else 100)
            && forall i :: 0 <= i < |ring| ==> ring[i] == appended[|appended| - |ring| + i]
  {
    hide Appended, Ring;
  }

  /**
   A publish that finds no channel sends its frame on one that came meanwhile, or
   on a new one, and goes on to the buffer; it drops the frame exactly when the
   registry holds 10,000 other channels.
   */
  lemma PublishDropsExactly(s: System, id: nat, g: Guid, f: Frame)
    requires id in s.tasks && s.tasks[id] == PublishSlow(g, f)
    ensures var s' := Next(s, Run(id));
            if g in s.registry.channels || |s.registry.channels| < 10_000 then
              && Sent(s'.registry, g) == Sent(s.registry, g) + [f]
              && s'.tasks == s.tasks[id := PublishAppend(g, f)]
            else s' == s.(tasks := s.tasks - {id})
  {
  }

  /**
   A subscriber ends with a channel when one exists, also when another task made
   it in between, or when the registry holds fewer than 10,000; no frame changes.
   */
  lemma SubscribeLeaves(s: System, id: nat, g: Guid)
    requires id in s.tasks && s.tasks[id] in {SubscribeFast(g), SubscribeSlow(g)}
    ensures var s' := Next(s, Run(id));
            var asksAgain := s.tasks[id].SubscribeFast? && g !in s.registry.channels;
            && s'.tasks == (if asksAgain then s.tasks[id := SubscribeSlow(g)] else s.tasks - {id})
            && (g in s'.registry.channels <==>
                  g in s.registry.channels || (!asksAgain && |s.registry.channels| < 10_000))
            && s'.registry.rings == s.registry.rings
            && forall h :: Sent(s'.registry, h) == Sent(s.registry, h)
  {
  }

  /** A connection is taken exactly while fewer than 1,000 clients have one, and a release gives it back. */
  lemma ConnectionsExactly(s: System, client: nat)
    requires Bounded(s)
    ensures client !in s.clients ==>
              Next(s, Acquire(client)) ==
              if |s.clients| < 1_000
              then s.(registry := s.registry.(connections := |s.clients| + 1), clients := s.clients + {client})
              else s
    ensures client in s.clients ==>
              Next(s, Release(client)) ==
              s.(registry := s.registry.(connections := |s.clients| - 1), clients := s.clients - {client})
  {
  }

  /** When no publish is between its locks, each ring holds the last frames of its channel, in some order. */
  lemma QuietRings(states: seq<System>, actions: seq<Action>, n: nat, g: Guid)
    requires IsRun(states, actions) && n <= |actions|
    requires forall id :: id in states[n].tasks ==> !states[n].tasks[id].PublishAppend?
    ensures multiset(Sent(states[n].registry, g)) == multiset(Appended(states[n], g))
    ensures Ring(states[n].registry, g) == LastFrames(Appended(states[n], g))
  {
    AlwaysInvariant(states, actions, n);
    var s := states[n];
    forall f: Frame
      ensures multiset(Sent(s.registry, g))[f] == multiset(Appended(s, g))[f]
    {
      assert Waiting(s, g, f) == {};
    }
  }

  /** Two publishers of one feed can append in the other order than they sent. */
  lemma OrdersCanDiffer(g: Guid, f1: Frame, f2: Frame) returns (states: seq<System>, actions: seq<Action>)
    requires f1 != f2
    ensures IsRun(states, actions)
    ensures Sent(states[|actions|].registry, g) == [f1, f2] && Ring(states[|actions|].registry, g) == [f2, f1]
  {
    hide RunTask;
    var p1, p2 := PublishFast(g, f1), PublishFast(g, f2);
    var one, two := Registry(map[g := [f1]], map[], 0), Registry(map[g := [f1, f2]], map[], 0);
    var s1 := System(EMPTY_REGISTRY, map[1 := p1], {}, map[]);
    var s2 := System(EMPTY_REGISTRY, map[1 := PublishSlow(g, f1)], {}, map[]);
    var s3 := System(one, map[1 := PublishAppend(g, f1)], {}, map[]);
    var s4 := System(one, map[1 := PublishAppend(g, f1), 2 := p2], {}, map[]);
    var s5 := System(two, map[1 := PublishAppend(g, f1), 2 := PublishAppend(g, f2)], {}, map[]);
    var s6 := System(two.(rings := map[g := [f2]]), map[1 := PublishAppend(g, f1)], {}, map[g := [f2]]);
    var s7 := System(two.(rings := map[g := [f2, f1]]), map[], {}, map[g := [f2, f1]]);
    actions := [Begin(1, p1), Run(1), Run(1), Begin(2, p2), Run(2), Run(2), Run(1)];
    states := [START, s1, s2, s3, s4, s5, s6, s7];
    assert Next(START, actions[0]) == s1;
    assert Next(s1, actions[1]) == s2 by { FirstMiss(g, f1); }
    assert Next(s2, actions[2]) == s3 by { FirstSend(g, f1); }
    assert Next(s3, actions[3]) == s4;
    assert Next(s4, actions[4]) == s5 by { SecondSend(g, f1, f2); }
    assert Next(s5, actions[5]) == s6 by { FirstAppend(two, g, f1, f2); }
    assert Next(s6, actions[6]) == s7 by { SecondAppend(two, g, f1, f2); }
  }

  lemma FirstMiss(g: Guid, f: Frame)
    ensures RunTask(System(EMPTY_REGISTRY, map[1 := PublishFast(g, f)], {}, map[]), 1) ==
            System(EMPTY_REGISTRY, map[1 := PublishSlow(g, f)], {}, map[])
  {
  }

  lemma FirstSend(g: Guid, f: Frame)
    ensures var s := System(EMPTY_REGISTRY, map[1 := PublishSlow(g, f)], {}, map[]);
            RunTask(s, 1) == System(Registry(map[g := [f]], map[], 0), map[1 := PublishAppend(g, f)], {}, map[])
  {
    assert [] + [f] == [f];
  }

  lemma SecondSend(g: Guid, f1: Frame, f2: Frame)
    ensures var s := System(Registry(map[g := [f1]], map[], 0), map[1 := PublishAppend(g, f1), 2 := PublishFast(g, f2)], {}, map[]);
            RunTask(s, 2) ==
            System(Registry(map[g := [f1, f2]], map[], 0), map[1 := PublishAppend(g, f1), 2 := PublishAppend(g, f2)], {}, map[])
  {
    assert [f1] + [f2] == [f1, f2];
  }

  lemma FirstAppend(r: Registry, g: Guid, f1: Frame, f2: Frame)
    requires r.rings == map[]
    ensures var s := System(r, map[1 := PublishAppend(g, f1), 2 := PublishAppend(g, f2)], {}, map[]);
            RunTask(s, 2) == System(r.(rings := map[g := [f2]]), map[1 := PublishAppend(g, f1)], {}, map[g := [f2]])
  {
    assert [] + [f2] == [f2];
    assert map[1 := PublishAppend(g, f1), 2 := PublishAppend(g, f2)] - {2} == map[1 := PublishAppend(g, f1)];
  }

  lemma SecondAppend(r: Registry, g: Guid, f1: Frame, f2: Frame)
    ensures var s := System(r.(rings := map[g := [f2]]), map[1 := PublishAppend(g, f1)], {}, map[g := [f2]]);
            RunTask(s, 1) == System(r.(rings := map[g := [f2, f1]]), map[], {}, map[g := [f2, f1]])
  {
    assert [f2] + [f1] == [f2, f1];
  }

  // ── in place ───────────────────────────────────────────────────────────

  class SseRegistry {
    var channels: map<Guid, seq<Frame>>
    var rings: map<Guid, seq<Frame>>
    var connections: nat

    function Value(): Registry
      reads this
    {
      Registry(channels, rings, connections)
    }

    constructor ()
      ensures Value() == EMPTY_REGISTRY
    {
      channels, rings, connections := map[], map[], 0;
    }

    method TryAcquireConnection() returns (ok: bool)
      modifies `connections
      ensures ok == (old(connections) < MAX_SSE_CONNECTIONS)
      ensures connections == old(connections) + if ok then 1 else 0
    {
      ok := connections < MAX_SSE_CONNECTIONS;
      if ok {
        connections := connections + 1;
      }
    }

    /** The first section of `publish`, under the read lock. */
    method SendFast(g: Guid, f: Frame) returns (sent: bool)
      modifies `channels
      ensures sent == (g in old(channels))
      ensures Value() == if sent then Send(old(Value()), g, f) else old(Value())
    {
      sent := g in channels;
      if sent {
        channels := channels[g := channels[g] + [f]];
      }
    }

    /** The section under the write lock, for a feed with no channel a moment ago. */
    method SendSlow(g: Guid, f: Frame) returns (sent: bool)
      modifies `channels
      ensures sent == SendsSlow(old(Value()), g)
      ensures Value() == if sent then Send(old(Value()), g, f) else old(Value())
    {
      sent := true;
      if g in channels {
        channels := channels[g := channels[g] + [f]];
      } else if |channels| < MAX_SSE_REGISTRY_FEEDS {
        assert [] + [f] == [f];
        channels := channels[g := [f]];
      } else {
        sent := false;
      }
    }

    /** The section under the lock of the ring buffers. */
    method AppendToRing(g: Guid, f: Frame)
      modifies `rings
      ensures Value() == Append(old(Value()), g, f)
    {
      if g !in rings && |rings| >= MAX_SSE_REGISTRY_FEEDS {
        return;
      }
      var buf := if g in rings then rings[g] else [];
      if |buf| >= SSE_RING_BUFFER_SIZE {
        buf := buf[1..];
      }
      rings := rings[g := buf + [f]];
    }

    /** A publish that no other task interrupts: a frame that is sent is in the buffer. */
    method Publish(g: Guid, f: Frame) returns (sent: bool)
      requires rings.Keys <= channels.Keys && |channels| <= MAX_SSE_REGISTRY_FEEDS
      modifies this
      ensures rings.Keys <= channels.Keys && |channels| <= MAX_SSE_REGISTRY_FEEDS
      ensures sent == (g in old(channels) || |old(channels)| < 10_000)
      ensures !sent ==> Value() == old(Value())
      ensures sent ==> Sent(Value(), g) == Sent(old(Value()), g) + [f]
      ensures var ring := Ring(old(Value()), g);
              sent ==> Ring(Value(), g) == (if |ring| < 100 then ring else ring[1..]) + [f]
      ensures forall h :: h != g ==> Ring(Value(), h) == Ring(old(Value()), h) && Sent(Value(), h) == Sent(old(Value()), h)
    {
      NewKeySize(channels, g, Sent(Value(), g) + [f]);
      sent := SendFast(g, f);
      if !sent {
        sent := SendSlow(g, f);
        if !sent {
          return;
        }
      }
      SecondCheckPasses(System(Value().(connections := 0), map[0 := PublishAppend(g, f)], {}, map[]), 0);
      AppendToRing(g, f);
    }

    /** `subscribe`: a channel that exists, or a new one when it fits. */
    method Subscribe(g: Guid) returns (ok: bool)
      modifies `channels
      ensures Value() == OpenChannel(old(Value()), g)
      ensures ok == (g in channels)
    {
      if g in channels {
        return true;
      }
      if |channels| >= MAX_SSE_REGISTRY_FEEDS {
        return false;
      }
      channels := channels[g := []];
      ok := true;
    }
  }
}
