/** Progress: what a tick is sure to achieve, and how long a send can wait. */
module SimProgress {
  import opened Common
  import opened SimTypes
  import opened SimSpec
  import opened SimInvariant
  import opened SimMoves
  import opened SimPhases
  import opened SimBackprops
  import opened SimRuns
  import opened SimTheorems
  import Prophet

  // ---------------------------------------------------------------------
  // Transitions do exactly what the draws ask for
  // ---------------------------------------------------------------------

  lemma {:induction false} TransitionsExactly(st: State, ids: seq<PeerId>, flips: set<PeerId>, p: PeerId)
    requires Ok(st) && StrictlyAscending(ids) && p in st.peers && forall x :: x in ids ==> x in st.peers
    ensures var r, flip := Transitions(st, ids, flips), p in ids && p in flips;
            && (r.peers[p].online <==> (st.peers[p].online != flip))
            && (flip && r.peers[p].online ==> r.peers[p].lastOnlineTick == Some(st.tick))
            && (flip && !r.peers[p].online ==> r.peers[p].lastOnlineTick == st.peers[p].lastOnlineTick)
            && (!flip ==> r.peers[p] == st.peers[p])
            && r.peers[p].relayQueue == st.peers[p].relayQueue
    decreases |ids|
  {
    hide MeshOk;
    if ids != [] {
      var x, rest := ids[0], ids[1..];
      assert p in ids <==> p == x || p in rest;
      assert p == x ==> p !in rest;
      TransitionsExactly(if x in flips then Flipped(st, x) else st, rest, flips, p);
    }
  }

  // ---------------------------------------------------------------------
  // A waking peer receives what its neighbours hold for it
  // ---------------------------------------------------------------------

  /** Queues only lose packets. */
  ghost predicate Drains(st: State, r: State) {
    r.peers.Keys == st.peers.Keys && forall p, q :: p in st.peers && q in r.peers[p].relayQueue ==> q in st.peers[p].relayQueue
  }

  lemma HandOverDrains(st: State, pk: SealedPacket, from: PeerId)
    requires Ok(st) && from in st.peers && pk.destination in st.peers
    ensures var r := DeliverPacket(RemoveQueued(st, from, pk.id), pk, from);
            Drains(st, r) && forall q :: q in r.peers[from].relayQueue ==> q.id != pk.id
  {
    hide MeshOk, DeliverPacket, Retain, Frame;
    RetainMembers(st.peers[from].relayQueue, pk.id);
    DeliverGains(RemoveQueued(st, from, pk.id), pk, from);
  }

  lemma {:induction false} DeliverAllDrains(st: State, pks: seq<SealedPacket>, from: PeerId)
    requires Ok(st) && from in st.peers && forall pk :: pk in pks ==> pk.destination in st.peers
    ensures var r := DeliverAll(st, pks, from);
            Drains(st, r) && forall q :: q in r.peers[from].relayQueue ==> q !in pks
    decreases |pks|
  {
    hide MeshOk, DeliverPacket, RemoveQueued;
    if pks != [] {
      HandOverDrains(st, pks[0], from);
      var s := DeliverPacket(RemoveQueued(st, from, pks[0].id), pks[0], from);
      DeliverAllDrains(s, pks[1..], from);
      forall q | q in DeliverAll(st, pks, from).peers[from].relayQueue ensures q !in pks {
        assert q in s.peers[from].relayQueue && q !in pks[1..];
      }
    }
  }

  lemma DeliverPendingDrains(st: State, from: PeerId, to: PeerId)
    requires Ok(st) && from in st.peers && to in st.peers
    ensures var r := DeliverPending(st, from, to);
            Drains(st, r) && forall q :: q in r.peers[from].relayQueue ==> q.destination != to
  {
    hide MeshOk, DeliverAll;
    DeliverAllDrains(st, AddressedTo(st.peers[from].relayQueue, to), from);
  }

  lemma {:induction false} AwakeNeighborsDrain(st: State, neighbors: seq<PeerId>, p: PeerId)
    requires Ok(st) && p in st.peers && forall n :: n in neighbors ==> n in st.peers
    ensures var r := AwakeNeighbors(st, neighbors, p);
            Drains(st, r) && forall n, q :: n in neighbors && q in r.peers[n].relayQueue ==> q.destination != p
    decreases |neighbors|
  {
    hide MeshOk, DeliverPending;
    if neighbors != [] {
      var s := DeliverPending(st, neighbors[0], p);
      DeliverPendingDrains(st, neighbors[0], p);
      AwakeNeighborsDrain(s, neighbors[1..], p);
    }
  }

  /** After the awake phase no neighbour of a peer that just woke still queues a packet for it, online or not. */
  lemma {:induction false} AwakeSignalsDrain(st: State, ids: seq<PeerId>, p: PeerId, n: PeerId)
    requires Ok(st) && (forall x :: x in ids ==> x in st.peers) && n in st.peers && p in st.peers
    ensures var r := AwakeSignals(st, ids);
            && Drains(st, r)
            && (p in ids && JustWoke(st, p) && n in st.peers[p].connections ==>
                  forall q :: q in r.peers[n].relayQueue ==> q.destination != p)
    decreases |ids|
  {
    hide MeshOk, AwakeNeighbors, Sorted;
    if ids != [] {
      var x := ids[0];
      var s := st;
      if JustWoke(st, x) {
        ConnectionsAreMutual(st, x);
        s := AwakeNeighbors(st, Sorted(st.peers[x].connections), x);
        AwakeNeighborsDrain(st, Sorted(st.peers[x].connections), x);
      }
      AwakeSignalsDrain(s, ids[1..], p, n);
    }
  }

  /** The state after the transitions and the awake signals of a tick. */
  function Signalled(st: State, flips: set<PeerId>): (r: State)
    requires Ok(st)
    ensures Ok(r) && r.peers.Keys == st.peers.Keys
  {
    var woken := Woken(st, flips);
    AwakeSignals(woken, Sorted(woken.peers.Keys))
  }

  lemma JustWokeIn(st: State, flips: set<PeerId>, n: PeerId, p: PeerId)
    requires Ok(st) && Connected(st, n, p) && p in flips && !Online(st, p)
    ensures p in st.peers && JustWoke(Woken(st, flips), p) && n in Woken(st, flips).peers[p].connections
  {
    hide Transitions, Sorted;
    TransitionsExactly(st.(tick := st.tick + 1), Sorted(st.peers.Keys), flips, p);
  }

  lemma LeftMeansArrived(st: State, r: State, n: PeerId, pk: SealedPacket)
    requires Settles(st, r) && n in st.peers && pk in st.peers[n].relayQueue && Connected(st, n, pk.destination)
    requires forall q :: q in r.peers[n].relayQueue ==> q.destination != pk.destination
    ensures Arrived(r, pk)
  {
  }

  lemma SignalledArrives(st: State, flips: set<PeerId>, n: PeerId, pk: SealedPacket)
    requires Inv(st, [], DONE) && Ok(st) && n in st.peers && pk in st.peers[n].relayQueue
    requires Connected(st, n, pk.destination) && pk.destination in flips && !Online(st, pk.destination)
    ensures Arrived(Signalled(st, flips), pk)
  {
    hide Inv, AwakeSignals, Sorted, Woken, MeshOk, Settles, Frame, Drains, JustWoke, Arrived;
    var woken := Woken(st, flips);
    WokenKeepsInv(st, flips);
    JustWokeIn(st, flips, n, pk.destination);
    AwakeSignalsKeepsInv(woken, Sorted(woken.peers.Keys), Draining([], true));
    AwakeSignalsDrain(woken, Sorted(woken.peers.Keys), pk.destination, n);
    LeftMeansArrived(woken, Signalled(st, flips), n, pk);
  }

  /** What has arrived when the awake signals are done stays for the rest of the tick. */
  lemma RestSettles(st: State, flips: set<PeerId>)
    requires Inv(st, [], DONE) && Ok(st)
    ensures Settles(Signalled(st, flips), Routed(st, flips)) && Inv(Routed(st, flips), [], DONE)
  {
    hide Inv, MeshOk, Woken, AwakeSignals, ProcessSends, RelayQueues, Sorted, Settles, Frame, SameHoldings, Deliverable, Arrived;
    WokenKeepsInv(st, flips);
    var woken := Woken(st, flips);
    AwakeSignalsKeepsInv(woken, Sorted(woken.peers.Keys), Draining([], true));
    var s := Signalled(st, flips);
    var drained := s.(pending := []);
    DrainKeepsInv(s);
    ProcessSendsKeepsInv(drained, s.pending);
    var sent := Dispatched(woken);
    AnnounceSettles(s, drained, sent);
    FrameKeys(woken, sent);
    RelayQueuesKeepsInv(sent, Sorted(st.peers.Keys));
    SettlesChain(s, sent, Routed(st, flips));
  }

  lemma ArrivedStays(st: State, flips: set<PeerId>, pk: SealedPacket)
    requires Inv(st, [], DONE) && Step(st, flips).Some? && Ok(st) && Arrived(Signalled(st, flips), pk)
    ensures Arrived(Step(st, flips).value, pk)
  {
    hide Inv, MeshOk, Routed, Signalled, ProcessBackprops, ProcessAging, Settles, Arrived, SameHoldings;
    RestSettles(st, flips);
    var routed := Routed(st, flips);
    StaysArrived(Signalled(st, flips), routed, pk);
    BackpropsKeepInv(routed);
    AgingKeepsInv(ProcessBackprops(routed).value);
    StillSettled(Signalled(st, flips), routed, ProcessBackprops(routed).value, Step(st, flips).value);
  }

  /** A peer that wakes in a tick receives in that tick every packet that waited for it at any neighbour, even at a
      neighbour that is offline. */
  lemma WakingReceives(setup: Setup, actions: seq<Action>, st: State, flips: set<PeerId>, n: PeerId, pk: SealedPacket)
    requires Reaches(setup, actions, st) && Ok(st) && Step(st, flips).Some?
    requires n in st.peers && pk in st.peers[n].relayQueue && Connected(st, n, pk.destination)
    requires pk.destination in flips && !Online(st, pk.destination)
    ensures Arrived(Step(st, flips).value, pk)
  {
    hide Inv, Reaches, Step, MeshOk, Signalled, Arrived;
    ReachedInv(setup, actions, st);
    SignalledArrives(st, flips, n, pk);
    ArrivedStays(st, flips, pk);
  }

  /** In every tick, a packet that waits at a peer online in that tick, next to a destination online in that tick,
      is delivered. */
  lemma NeighborsDeliver(setup: Setup, actions: seq<Action>, st: State, flips: set<PeerId>, p: PeerId, pk: SealedPacket)
    requires Reaches(setup, actions, st) && Ok(st) && Step(st, flips).Some?
    requires p in st.peers && pk in st.peers[p].relayQueue && Connected(st, p, pk.destination) && pk.destination in st.peers
    requires st.peers[p].online != (p in flips) && st.peers[pk.destination].online != (pk.destination in flips)
    ensures Arrived(Step(st, flips).value, pk)
  {
    hide Inv, Reaches, Step, MeshOk, Arrived, Transitions, Sorted;
    ReachedInv(setup, actions, st);
    WokenKeepsInv(st, flips);
    TransitionsExactly(st.(tick := st.tick + 1), Sorted(st.peers.Keys), flips, p);
    TransitionsExactly(st.(tick := st.tick + 1), Sorted(st.peers.Keys), flips, pk.destination);
    StepKeepsInv(st, flips);
    assert Due(st, Woken(st, flips), p, pk);
  }

  // ---------------------------------------------------------------------
  // How long a send waits
  // ---------------------------------------------------------------------

  /** Every pending send has an offline or unknown sender. */
  ghost predicate SendersOffline(st: State) { forall s :: s in st.pending ==> !Online(st, s.message.from) }

  lemma QuietKeepsOffline(st: State, r: State)
    requires Quiet(st, r) && SendersOffline(st)
    ensures SendersOffline(r)
  {
  }

  lemma RouteLeavesOffline(st: State, s: PendingSend)
    requires Ok(st) && SendersOffline(st)
    ensures SendersOffline(RouteMessage(st, s))
  {
    hide MeshOk, SetPeer, DeliverPacket, Enqueue, FindRelayPath;
  }

  lemma {:induction false} ProcessSendsLeavesOffline(st: State, sends: seq<PendingSend>)
    requires Ok(st) && SendersOffline(st)
    ensures SendersOffline(ProcessSends(st, sends))
    decreases |sends|
  {
    hide MeshOk, RouteMessage;
    if sends != [] {
      if !HasExpired(st, sends[0]) { RouteLeavesOffline(Emit(st, Send(sends[0].message, st.tick)), sends[0]); }
      ProcessSendsLeavesOffline(ProcessSend(st, sends[0]), sends[1..]);
    }
  }

  /** After a tick, the only sends still pending are those of senders that are offline or unknown. */
  lemma OnlySendersOfflineWait(st: State, flips: set<PeerId>)
    requires Ok(st) && Step(st, flips).Some?
    ensures SendersOffline(Step(st, flips).value)
  {
    hide MeshOk, Woken, AwakeSignals, ProcessSends, RelayQueues, ProcessBackprops, ProcessAging, Sorted, Frame, SendersOffline;
    var s := Signalled(st, flips);
    assert SendersOffline(s.(pending := [])) by { NothingWaits(s); }
    ProcessSendsLeavesOffline(s.(pending := []), s.pending);
    var sent := Dispatched(Woken(st, flips));
    FrameKeys(Woken(st, flips), sent);
    QuietKeepsOffline(sent, Routed(st, flips));
    var done := ProcessBackprops(Routed(st, flips)).value;
    QuietKeepsOffline(Routed(st, flips), done);
    if Step(st, flips).value != done { QuietKeepsOffline(done, Step(st, flips).value); }
  }

  lemma NothingWaits(st: State)
    ensures SendersOffline(st.(pending := []))
  {
  }

  /** In every reachable state a pending send has been retried once in every tick since it was queued, and has waited
      for no more ticks than either configured limit; if retries run out before the timeout, nothing ever expires. */
  lemma RetriesTrackAge(setup: Setup, actions: seq<Action>, st: State)
    requires Reaches(setup, actions, st)
    ensures forall s :: s in st.pending ==> s.retryCount == st.tick - s.createdTick
    ensures forall s :: s in st.pending && st.config.maxSenderRetries.Some? ==> st.tick <= s.createdTick + st.config.maxSenderRetries.value
    ensures forall s :: s in st.pending && st.config.messageTimeout.Some? ==> st.tick <= s.createdTick + st.config.messageTimeout.value
    ensures NeverExpires(st.config) ==> st.stats.messagesExpired == 0
  {
    hide Run, Total, Inv, Reaches, BackpropsOk, StatsOk, SingleCopy, RelaysOk, LogOk, PeersOk, MeshOk;
    ReachedInv(setup, actions, st);
    PartsOfInv(st);
  }

  // ---------------------------------------------------------------------
  // When a send can expire
  // ---------------------------------------------------------------------

  /** Nothing moves in the mesh, and one send of an unknown sender, queued at tick 0, has been tried in every tick. */
  ghost predicate Idle(st: State, c: SimConfig, m: Message, n: nat) {
    && Ok(st) && st.config == c && st.tick == n && m.from !in st.peers
    && (forall p :: p in st.peers ==> st.peers[p].relayQueue == [])
    && st.pending == [PendingSend(m, 0, n)] && st.backprops == []
  }

  ghost predicate NothingQueued(st: State) { Ok(st) && forall p :: p in st.peers ==> st.peers[p].relayQueue == [] }

  lemma {:induction false} NobodyFlips(st: State, ids: seq<PeerId>)
    requires Ok(st) && forall p :: p in ids ==> p in st.peers
    ensures Transitions(st, ids, {}) == st
    decreases |ids|
  {
    hide MeshOk, Flipped;
    if ids != [] { NobodyFlips(st, ids[1..]); }
  }

  lemma NothingToDeliver(st: State, from: PeerId, to: PeerId)
    requires NothingQueued(st) && from in st.peers && to in st.peers
    ensures DeliverPending(st, from, to) == st
  {
    hide MeshOk;
    assert AddressedTo([], to) == [];
  }

  lemma {:induction false} NothingFromNeighbors(st: State, neighbors: seq<PeerId>, p: PeerId)
    requires NothingQueued(st) && p in st.peers && forall n :: n in neighbors ==> n in st.peers
    ensures AwakeNeighbors(st, neighbors, p) == st
    decreases |neighbors|
  {
    hide MeshOk, DeliverPending;
    if neighbors != [] {
      NothingToDeliver(st, neighbors[0], p);
      NothingFromNeighbors(st, neighbors[1..], p);
    }
  }

  lemma {:induction false} NothingSignalled(st: State, ids: seq<PeerId>)
    requires NothingQueued(st) && forall p :: p in ids ==> p in st.peers
    ensures AwakeSignals(st, ids) == st
    decreases |ids|
  {
    hide MeshOk, AwakeNeighbors, Sorted;
    if ids != [] {
      if JustWoke(st, ids[0]) {
        ConnectionsAreMutual(st, ids[0]);
        NothingFromNeighbors(st, Sorted(st.peers[ids[0]].connections), ids[0]);
      }
      NothingSignalled(st, ids[1..]);
    }
  }

  lemma {:induction false} NothingRelayed(st: State, ids: seq<PeerId>)
    requires NothingQueued(st) && forall p :: p in ids ==> p in st.peers
    ensures RelayQueues(st, ids) == st
    decreases |ids|
  {
    hide MeshOk;
    if ids != [] {
      assert ForwardAll(st, [], ids[0]) == st;
      NothingRelayed(st, ids[1..]);
    }
  }

  lemma NothingConfirmed(st: State)
    requires Ok(st) && st.backprops == []
    ensures ProcessBackprops(st) == Some(st)
  {
    hide MeshOk;
    assert AdvanceAll(st, []) == [] && st.log + HopEvents(st, []) == st.log;
    assert st == st.(backprops := AdvanceAll(st, []), log := st.log + HopEvents(st, []));
  }

  lemma {:induction false} AgingKeepsIdle(st: State, ids: seq<PeerId>)
    requires NothingQueued(st) && forall p :: p in ids ==> p in st.peers
    ensures var r := AgePeers(st, ids); NothingQueued(r) && r == st.(peers := r.peers)
    decreases |ids|
  {
    hide MeshOk, Prophet.Age;
    if ids != [] {
      var ps := st.peers[ids[0]];
      AgingKeepsIdle(SetPeer(st, ids[0], ps.(prophet := Prophet.Age(Prophet.DEFAULT, ps.prophet))), ids[1..]);
    }
  }

  lemma NobodyWakes(st: State)
    requires Ok(st)
    ensures Woken(st, {}) == st.(tick := st.tick + 1)
  {
    hide MeshOk, Transitions, Sorted;
    NobodyFlips(st.(tick := st.tick + 1), Sorted(st.peers.Keys));
  }

  /** When nothing is queued, the dispatch phase only tries the pending sends. */
  lemma OnlySends(st: State)
    requires NothingQueued(st)
    ensures Dispatched(st) == ProcessSends(st.(pending := []), st.pending)
  {
    hide MeshOk, AwakeSignals, ProcessSends, Sorted, Frame;
    NothingSignalled(st, Sorted(st.peers.Keys));
  }

  /** The one pending send: retried, or expired at last. */
  function Tried(st: State, m: Message, n: nat): State {
    var ticked := st.(tick := n + 1, pending := []);
    if st.config.messageTimeout.Some? && n + 1 > st.config.messageTimeout.value then DropSend(ticked, m, Expired)
    else Emit(ticked, Send(m, n + 1)).(pending := [PendingSend(m, 0, n + 1)])
  }

  lemma TriesOnce(st: State, c: SimConfig, m: Message, n: nat)
    requires Idle(st, c, m, n) && !NeverExpires(c) && n <= c.messageTimeout.value
    ensures ProcessSends(st.(tick := n + 1, pending := []), st.pending) == Tried(st, m, n)
  {
    hide MeshOk;
    var ticked, send := st.(tick := n + 1, pending := []), PendingSend(m, 0, n);
    assert ProcessSends(ticked, [send]) == ProcessSend(ticked, send);
  }

  lemma IdleRouted(st: State, c: SimConfig, m: Message, n: nat)
    requires Idle(st, c, m, n) && !NeverExpires(c) && n <= c.messageTimeout.value
    ensures Routed(st, {}) == Tried(st, m, n)
  {
    hide MeshOk, Woken, Dispatched, ProcessSends, RelayQueues, Sorted, Frame, Tried, NeverExpires;
    NobodyWakes(st);
    OnlySends(st.(tick := n + 1));
    TriesOnce(st, c, m, n);
    assert NothingQueued(Tried(st, m, n)) && Tried(st, m, n).peers == st.peers by { TriedKeeps(st, m, n); }
    NothingRelayed(Tried(st, m, n), Sorted(st.peers.Keys));
  }

  lemma TriedKeeps(st: State, m: Message, n: nat)
    ensures Tried(st, m, n).peers == st.peers && Tried(st, m, n).adjacency == st.adjacency
  {
  }

  /** Aging, if it is due, changes no queue. */
  lemma ConcludesIdly(s: State)
    requires NothingQueued(s) && s.backprops == [] && s.config.agingInterval > 0
    ensures Concluded(s).Some?
    ensures var r := Concluded(s).value;
            && NothingQueued(r) && r.peers.Keys == s.peers.Keys && r.stats.messagesExpired == s.stats.messagesExpired
            && r.config == s.config && r.tick == s.tick && r.pending == s.pending && r.backprops == []
  {
    hide MeshOk, ProcessBackprops, AgePeers, Sorted;
    NothingConfirmed(s);
    AgingKeepsIdle(s, Sorted(s.peers.Keys));
  }

  lemma IdleTick(st: State, c: SimConfig, m: Message, n: nat)
    requires Idle(st, c, m, n) && c.agingInterval > 0 && !NeverExpires(c) && n <= c.messageTimeout.value
    ensures Step(st, {}).Some?
    ensures var r := Step(st, {}).value;
            if n < c.messageTimeout.value then Idle(r, c, m, n + 1) else r.stats.messagesExpired > 0
  {
    hide MeshOk, Routed, Concluded;
    IdleRouted(st, c, m, n);
    ConcludesIdly(Tried(st, m, n));
  }

  function Waits(n: nat): seq<Action> { seq(n, _ => DoStep({})) }

  lemma StartIsIdle(setup: Setup)
    requires setup.Valid()
    ensures var st := setup.Start();
            && NothingQueued(st) && st.peers.Keys == setup.peers.Keys && st.config == setup.config && st.tick == 0
            && st.pending == [] && st.backprops == [] && st.stats == NO_STATS
  {
    hide Initialize, Sorted, MeshOk;
    var made := NewState(setup.peers, setup.adjacency, setup.config);
    NewStateInv(setup.peers, setup.adjacency, setup.config);
    InitializeKeepsInv(made, Sorted(setup.peers.Keys), setup.on);
    forall p | p in setup.peers ensures setup.Start().peers[p].relayQueue == [] {
      InitializeExactly(made, Sorted(setup.peers.Keys), setup.on, p);
    }
  }

  lemma {:induction false} IdleRun(setup: Setup, m: Message, n: nat) returns (st: State)
    requires setup.Valid() && m.from !in setup.peers && setup.config.agingInterval > 0 && !NeverExpires(setup.config)
    requires n <= setup.config.messageTimeout.value
    ensures Reaches(setup, [DoSend(m)] + Waits(n), st) && Idle(st, setup.config, m, n)
  {
    hide Step, MeshOk, Initialize, Unused, Setup.Start, Setup.Valid;
    var actions := [DoSend(m)] + Waits(n);
    if n == 0 {
      StartIsIdle(setup);
      assert actions == [DoSend(m)] && actions[..0] == [];
      var start := setup.Start();
      assert Run(start, []) == Some(start);
      st := SendMessage(start, m);
      assert Act(start, actions[0]) == Some(st);
    } else {
      var before := IdleRun(setup, m, n - 1);
      assert actions[..n] == [DoSend(m)] + Waits(n - 1) && actions[n] == DoStep({});
      IdleTick(before, setup.config, m, n - 1);
      st := Step(before, {}).value;
    }
  }

  lemma {:induction false} RunKeepsConfig(st: State, actions: seq<Action>)
    requires Ok(st) && Run(st, actions).Some?
    ensures Run(st, actions).value.config == st.config
    decreases |actions|
  {
    hide MeshOk, Step, SetOnline;
    if actions != [] {
      var n := |actions| - 1;
      RunKeepsConfig(st, actions[..n]);
      ActKeepsConfig(Run(st, actions[..n]).value, actions[n]);
    }
  }

  lemma ActKeepsConfig(st: State, a: Action)
    requires Ok(st) && Act(st, a).Some?
    ensures Act(st, a).value.config == st.config
  {
    hide MeshOk, Routed, ProcessBackprops, ProcessAging;
    if a.DoStep? { ConfigStays(Routed(st, a.flips)); }
  }

  /** Without a tick nothing expires. */
  lemma {:induction false} NoTickNoExpiry(st: State, actions: seq<Action>)
    requires Ok(st) && st.config.agingInterval == 0 && Run(st, actions).Some?
    ensures Run(st, actions).value.stats.messagesExpired == st.stats.messagesExpired
    decreases |actions|
  {
    hide MeshOk, Routed, ProcessBackprops;
    if actions != [] {
      var n := |actions| - 1;
      var s := Run(st, actions[..n]).value;
      RunKeepsConfig(st, actions[..n]);
      NoTickNoExpiry(st, actions[..n]);
      if actions[n].DoStep? { ActKeepsConfig(s, actions[n]); }
    }
  }

  ghost predicate CanExpire(setup: Setup) {
    exists actions: seq<Action>, st: State :: Reaches(setup, actions, st) && st.stats.messagesExpired > 0
  }

  /** On every mesh, and whatever its initial draw: some run counts an expired message exactly when ticks can run at
      all, a timeout is set, and retries may go on for at least as long as the timeout. */
  lemma ExpiryIsPossibleExactly(setup: Setup)
    requires setup.Valid()
    ensures CanExpire(setup) <==> setup.config.agingInterval > 0 && !NeverExpires(setup.config)
  {
    hide Reaches, NeverExpires, Setup.Valid;
    if setup.config.agingInterval > 0 && !NeverExpires(setup.config) {
      ExpiryWitness(setup);
    }
    forall actions: seq<Action>, st: State | Reaches(setup, actions, st) && st.stats.messagesExpired > 0
      ensures setup.config.agingInterval > 0 && !NeverExpires(setup.config)
    {
      ExpiryNeeds(setup, actions, st);
    }
  }

  /** A peer no mesh of this size knows. */
  lemma {:induction false} SomebodyElse(s: set<PeerId>) returns (p: PeerId)
    ensures forall x :: x in s ==> x < p
  {
    if s == {} {
      p := 0;
    } else {
      var m :| m in s;
      p := SomebodyElse(s - {m});
      if p <= m { p := m + 1; }
      forall x | x in s ensures x < p { assert x == m || x in s - {m}; }
    }
  }

  lemma ExpiryWitness(setup: Setup)
    requires setup.Valid() && setup.config.agingInterval > 0 && !NeverExpires(setup.config)
    ensures CanExpire(setup)
  {
    hide Step, Run, Inv, MeshOk, Reaches, Setup.Valid, Unused;
    var stranger := SomebodyElse(setup.peers.Keys);
    var m, t := Message(stranger, 0, []), setup.config.messageTimeout.value;
    var before := IdleRun(setup, m, t);
    IdleTick(before, setup.config, m, t);
    RunExtends(setup, [DoSend(m)] + Waits(t), before, DoStep({}));
    var actions := [DoSend(m)] + Waits(t) + [DoStep({})];
    assert Reaches(setup, actions, Step(before, {}).value);
  }

  lemma RunExtends(setup: Setup, actions: seq<Action>, st: State, a: Action)
    requires Reaches(setup, actions, st) && Ok(st) && Act(st, a).Some?
    ensures Reaches(setup, actions + [a], Act(st, a).value)
  {
    hide Act, MeshOk, Initialize;
    assert (actions + [a])[..|actions|] == actions;
  }

  lemma ExpiryNeeds(setup: Setup, actions: seq<Action>, st: State)
    requires Reaches(setup, actions, st) && st.stats.messagesExpired > 0
    ensures setup.config.agingInterval > 0 && !NeverExpires(setup.config)
  {
    hide Run, Inv, MeshOk, Initialize, Unused;
    StartInv(setup);
    RunKeepsConfig(setup.Start(), actions);
    RetriesTrackAge(setup, actions, st);
    if setup.config.agingInterval == 0 { NoTickNoExpiry(setup.Start(), actions); }
  }

  // ---------------------------------------------------------------------
  // Calling initialize again
  // ---------------------------------------------------------------------

  ghost predicate FlagsLogged(st: State) { forall p :: p in st.peers ==> (st.peers[p].online <==> AwakeIn(st.log, p)) }

  /** initialize on its own: flags follow the draw, and every peer drawn online gains an Awake event. */
  lemma {:induction false} InitializeExactly(st: State, ids: seq<PeerId>, on: set<PeerId>, p: PeerId)
    requires Ok(st) && StrictlyAscending(ids) && (forall x :: x in ids ==> x in st.peers) && p in st.peers
    ensures var r := Initialize(st, ids, on);
            && p in r.peers
            && (r.peers[p].online <==> if p in ids then p in on else st.peers[p].online)
            && (AwakeIn(r.log, p) <==> (p in ids && p in on) || AwakeIn(st.log, p))
            && r.peers[p].relayQueue == st.peers[p].relayQueue
    decreases |ids|
  {
    hide AwakeIn, MeshOk;
    if ids != [] {
      var x := ids[0];
      LogStep(st.adjacency, st.log, Awake(x, 0));
      assert p in ids <==> p == x || p in ids[1..];
      InitializeExactly(Draw(st, x, x in on), ids[1..], on, p);
    }
  }

  /** A later call of initialize keeps the flags readable from the log exactly when it sends no online peer to
      sleep: putting a peer to sleep this way is not logged. */
  lemma InitializeKeepsFlagsExactly(st: State, on: set<PeerId>)
    requires Ok(st) && FlagsLogged(st)
    ensures FlagsLogged(Initialize(st, Sorted(st.peers.Keys), on)) <==> forall p :: p in st.peers && st.peers[p].online ==> p in on
  {
    hide Initialize, AwakeIn, Sorted, MeshOk;
    var r := Initialize(st, Sorted(st.peers.Keys), on);
    forall p | p in st.peers
      ensures p in r.peers && (r.peers[p].online <==> p in on) && (AwakeIn(r.log, p) <==> p in on || st.peers[p].online)
    {
      InitializeExactly(st, Sorted(st.peers.Keys), on, p);
    }
  }
}
