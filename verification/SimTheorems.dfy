/** What holds after every run of the engine, in the terms of its users. */
module SimTheorems {
  import opened Common
  import opened SimTypes
  import opened SimSpec
  import opened SimInvariant
  import opened SimMoves
  import opened SimPhases
  import opened SimBackprops
  import opened SimRuns

  /** How a run begins: an unused mesh, the settings, and the peers that initialize draws as online. */
  datatype Setup = Setup(peers: Peers, adjacency: Adjacency, config: SimConfig, on: set<PeerId>) {
    ghost predicate Valid() { MeshOk(peers, adjacency) && Unused(peers) }

    ghost function Start(): (st: State)
      requires Valid()
      ensures Ok(st)
    {
      Initialize(NewState(peers, adjacency, config), Sorted(peers.Keys), on)
    }
  }

  /** `st` is where `actions` lead from the initialized mesh, without a panic on the way. */
  ghost predicate Reaches(setup: Setup, actions: seq<Action>, st: State) {
    setup.Valid() && Run(setup.Start(), actions) == Some(st)
  }

  lemma StartInv(setup: Setup)
    requires setup.Valid()
    ensures Inv(setup.Start(), [], DONE)
    ensures setup.Start().config == setup.config && setup.Start().sent == [] && setup.Start().stats == NO_STATS
  {
    hide Inv, MeshOk, Initialize, Sorted;
    var made := NewState(setup.peers, setup.adjacency, setup.config);
    NewStateInv(setup.peers, setup.adjacency, setup.config);
    InitializeKeepsInv(made, Sorted(setup.peers.Keys), setup.on);
  }

  lemma ReachedInv(setup: Setup, actions: seq<Action>, st: State)
    requires Reaches(setup, actions, st)
    ensures Inv(st, [], DONE)
  {
    hide Inv, MeshOk, Run, Unused, Initialize;
    StartInv(setup);
    RunKeepsInv(setup.Start(), actions);
  }

  // ---------------------------------------------------------------------
  // Conservation
  // ---------------------------------------------------------------------

  function SentBy(actions: seq<Action>): seq<Message> {
    if actions == [] then []
    else SentBy(actions[..|actions|-1]) + if actions[|actions|-1].DoSend? then [actions[|actions|-1].m] else []
  }

  lemma {:induction false} SentIsRecorded(st: State, actions: seq<Action>)
    requires Ok(st) && Run(st, actions).Some?
    ensures Run(st, actions).value.sent == st.sent + SentBy(actions)
    decreases |actions|
  {
    hide MeshOk, Step, SetOnline;
    if actions != [] {
      SentIsRecorded(st, actions[..|actions|-1]);
      ForceKeepsSent(Run(st, actions[..|actions|-1]).value, actions[|actions|-1]);
    }
  }

  lemma ForceKeepsSent(st: State, a: Action)
    requires Ok(st)
    ensures a.DoForce? ==> Force(st, a.p, a.online).sent == st.sent
  {
    hide MeshOk;
  }

  /** Packets waiting in relay queues, counted queue by queue. */
  function QueueLengths(peers: Peers, ids: seq<PeerId>): nat
    requires forall p :: p in ids ==> p in peers
  {
    if ids == [] then 0 else |peers[ids[0]].relayQueue| + QueueLengths(peers, ids[1..])
  }

  lemma {:induction false} MessagesCount(q: seq<SealedPacket>)
    ensures |Messages(q)| == |q|
  {
    if q != [] { MessagesCount(q[..|q|-1]); }
  }

  lemma {:induction false} RequestsCount(s: seq<PendingSend>)
    ensures |Requests(s)| == |s|
  {
    if s != [] { RequestsCount(s[..|s|-1]); }
  }

  lemma {:induction false} TallyCount(peers: Peers, ids: seq<PeerId>)
    requires forall p :: p in ids ==> p in peers
    ensures |Tally(peers, ids).queued| == QueueLengths(peers, ids)
  {
    if ids != [] {
      MessagesCount(peers[ids[0]].relayQueue);
      TallyCount(peers, ids[1..]);
    }
  }

  lemma BalanceCounts(sent: multiset<Message>, a: multiset<Message>, b: multiset<Message>, c: multiset<Message>, d: multiset<Message>)
    requires sent == a + b + c + d
    ensures |sent| == |a| + |b| + |c| + |d|
  {
  }

  /** After every run, the messages ever sent are exactly the pending ones, the queued ones, the ones in inboxes
      and the dropped ones, message by message; hence the counters balance. */
  lemma MessagesAreConserved(setup: Setup, actions: seq<Action>, st: State)
    requires Reaches(setup, actions, st)
    ensures multiset(SentBy(actions)) == Requests(st.pending) + multiset(st.dropped) + Total(st.peers).queued + Total(st.peers).filed
    ensures st.stats.messagesSent == |SentBy(actions)|
    ensures st.stats.messagesSent
         == |st.pending| + st.stats.messagesDropped + QueueLengths(st.peers, Sorted(st.peers.Keys)) + st.stats.messagesDelivered
  {
    hide Run, Total, Requests, Messages, Initialize, Unused, MeshOk;
    ReachedInv(setup, actions, st);
    StartInv(setup);
    SentIsRecorded(setup.Start(), actions);
    assert [] + SentBy(actions) == SentBy(actions);
    Unroll(st);
    BalanceCounts(multiset(st.sent), Requests(st.pending), multiset(st.dropped), Total(st.peers).queued, Total(st.peers).filed);
    RequestsCount(st.pending);
    TotalCount(st.peers);
  }

  lemma TotalCount(peers: Peers)
    ensures |Total(peers).queued| == QueueLengths(peers, Sorted(peers.Keys))
  {
    TallyCount(peers, Sorted(peers.Keys));
  }

  lemma Unroll(st: State)
    requires Inv(st, [], DONE)
    ensures multiset(st.sent) == Requests(st.pending) + multiset(st.dropped) + Total(st.peers).queued + Total(st.peers).filed
    ensures StatsOk(st)
  {
    hide Total, PeersOk, RelaysOk, LogOk, BackpropsOk, MeshOk, SingleCopy;
    assert Requests([]) == multiset{} && Messages([]) == multiset{};
  }

  // ---------------------------------------------------------------------
  // Exactly once
  // ---------------------------------------------------------------------

  lemma {:induction false} TallyHasBoth(peers: Peers, ids: seq<PeerId>, p: PeerId, q: PeerId, id: PacketId)
    requires StrictlyAscending(ids) && p in ids && q in ids && p != q && forall x :: x in ids ==> x in peers
    ensures Ids(peers[p].relayQueue)[id] + Ids(peers[q].relayQueue)[id] <= Tally(peers, ids).queuedIds[id]
    ensures Ids(peers[p].inbox)[id] + Ids(peers[q].inbox)[id] <= Tally(peers, ids).filedIds[id]
  {
    if p == ids[0] {
      TallyHas(peers, ids[1..], q);
    } else if q == ids[0] {
      TallyHas(peers, ids[1..], p);
    } else {
      TallyHasBoth(peers, ids[1..], p, q, id);
    }
  }

  lemma TotalHasBoth(peers: Peers, p: PeerId, q: PeerId, id: PacketId)
    requires p in peers && q in peers && p != q
    ensures Ids(peers[p].relayQueue)[id] + Ids(peers[q].relayQueue)[id] <= Total(peers).queuedIds[id]
    ensures Ids(peers[p].inbox)[id] + Ids(peers[q].inbox)[id] <= Total(peers).filedIds[id]
  {
    TallyHasBoth(peers, Sorted(peers.Keys), p, q, id);
  }

  lemma PartsOfInv(st: State)
    requires Inv(st, [], DONE)
    ensures SingleCopy(st.peers, []) && PeersOk(st.peers, st.handed, st.tick) && RelaysOk(st.peers, st.log)
    ensures LogOk(st.peers, st.adjacency, st.log) && PendingOk(st, DONE)
    ensures BackpropsOk(st.backprops, st.tick, Total(st.peers).filedIds) && StatsOk(st) && Ok(st)
    ensures HandingsOk(st.adjacency, st.handed)
  {
  }

  /** Two copies of one packet id never coexist: not in two queues, not in two inboxes, not in a queue and an inbox. */
  lemma PacketsAreNowhereTwice(setup: Setup, actions: seq<Action>, st: State)
    requires Reaches(setup, actions, st)
    ensures forall p :: p in st.peers ==> DistinctIds(st.peers[p].relayQueue) && DistinctIds(st.peers[p].inbox)
    ensures forall p, q, a, b :: p in st.peers && q in st.peers && a in st.peers[p].relayQueue && b in st.peers[q].relayQueue && a.id == b.id ==> p == q
    ensures forall p, q, a, b :: p in st.peers && q in st.peers && a in st.peers[p].inbox && b in st.peers[q].inbox && a.id == b.id ==> p == q
    ensures forall p, q, a, b :: p in st.peers && q in st.peers && a in st.peers[p].relayQueue && b in st.peers[q].inbox ==> a.id != b.id
  {
    hide Run, Total, Inv, Reaches, PeersOk, RelaysOk, LogOk, PendingOk, BackpropsOk, StatsOk, MeshOk, Ids;
    ReachedInv(setup, actions, st);
    PartsOfInv(st);
    NowhereTwice(st.peers);
  }

  lemma NowhereTwice(ps: Peers)
    requires SingleCopy(ps, [])
    ensures forall p :: p in ps ==> DistinctIds(ps[p].relayQueue) && DistinctIds(ps[p].inbox)
    ensures forall p, q, a, b :: p in ps && q in ps && a in ps[p].relayQueue && b in ps[q].relayQueue && a.id == b.id ==> p == q
    ensures forall p, q, a, b :: p in ps && q in ps && a in ps[p].inbox && b in ps[q].inbox && a.id == b.id ==> p == q
    ensures forall p, q, a, b :: p in ps && q in ps && a in ps[p].relayQueue && b in ps[q].inbox ==> a.id != b.id
  {
    hide SingleCopy, DistinctIds;
    forall p | p in ps ensures DistinctIds(ps[p].relayQueue) && DistinctIds(ps[p].inbox) { OncePerPeer(ps, p); }
    forall p, q, a, b | p in ps && q in ps && a in ps[p].relayQueue && b in ps[q].relayQueue && a.id == b.id ensures p == q {
      OnceQueued(ps, p, q, a, b);
    }
    forall p, q, a, b | p in ps && q in ps && a in ps[p].inbox && b in ps[q].inbox && a.id == b.id ensures p == q {
      OnceFiled(ps, p, q, a, b);
    }
    forall p, q, a, b | p in ps && q in ps && a in ps[p].relayQueue && b in ps[q].inbox ensures a.id != b.id {
      NotBoth(ps, p, q, a, b);
    }
  }

  lemma OncePerPeer(ps: Peers, p: PeerId)
    requires SingleCopy(ps, []) && p in ps
    ensures DistinctIds(ps[p].relayQueue) && DistinctIds(ps[p].inbox)
  {
    hide Total;
    forall id ensures Ids(ps[p].relayQueue)[id] <= 1 && Ids(ps[p].inbox)[id] <= 1 { AtMostAsMany(ps, p, id); }
    OnceEach(ps[p].relayQueue);
    OnceEach(ps[p].inbox);
  }

  lemma OnceQueued(ps: Peers, p: PeerId, q: PeerId, a: SealedPacket, b: SealedPacket)
    requires SingleCopy(ps, []) && p in ps && q in ps && a in ps[p].relayQueue && b in ps[q].relayQueue && a.id == b.id
    ensures p == q
  {
    hide Total;
    IdsHas(ps[p].relayQueue, a);
    IdsHas(ps[q].relayQueue, b);
    if p != q { TotalHasBoth(ps, p, q, a.id); }
  }

  lemma OnceFiled(ps: Peers, p: PeerId, q: PeerId, a: SealedPacket, b: SealedPacket)
    requires SingleCopy(ps, []) && p in ps && q in ps && a in ps[p].inbox && b in ps[q].inbox && a.id == b.id
    ensures p == q
  {
    hide Total;
    IdsHas(ps[p].inbox, a);
    IdsHas(ps[q].inbox, b);
    if p != q { TotalHasBoth(ps, p, q, a.id); }
  }

  lemma NotBoth(ps: Peers, p: PeerId, q: PeerId, a: SealedPacket, b: SealedPacket)
    requires SingleCopy(ps, []) && p in ps && q in ps && a in ps[p].relayQueue && b in ps[q].inbox
    ensures a.id != b.id
  {
    hide Total;
    TotalHas(ps, p, a);
    TotalHas(ps, q, b);
  }

  // ---------------------------------------------------------------------
  // Loop freedom
  // ---------------------------------------------------------------------

  lemma {:induction false} SoundAt(adjacency: Adjacency, log: Log, i: nat)
    requires LogSound(adjacency, log) && i < |log|
    ensures EventSound(adjacency, log[..i], log[i])
  {
    var n := |log| - 1;
    if i < n {
      SoundAt(adjacency, log[..n], i);
      assert log[..n][..i] == log[..i];
    }
  }

  /** Every queued packet has spent one hop per visited peer, sits at a peer it has visited and has not passed its
      destination; no packet is relayed more than min(10, peers - 1) times; and no packet is ever dropped for want
      of a route, nor, with at most eleven peers, for want of hops. */
  lemma RelayingIsBounded(setup: Setup, actions: seq<Action>, st: State)
    requires Reaches(setup, actions, st)
    ensures forall p, pk :: p in st.peers && pk in st.peers[p].relayQueue ==>
              && |pk.visited| + pk.ttl == 11 && p in pk.visited && pk.visited <= st.peers.Keys
              && (pk.destination in pk.visited ==> pk.destination == pk.source)
              && RelayCount(st.log, pk.id) == |pk.visited| - 1
    ensures forall id :: RelayCount(st.log, id) <= 10 && (RelayCount(st.log, id) > 0 ==> RelayCount(st.log, id) <= |st.peers| - 1)
    ensures forall i :: 0 <= i < |st.log| && st.log[i].Dropped? ==>
              st.log[i].reason != NoRoute && (|st.peers| <= 11 ==> st.log[i].reason != TtlExpired)
  {
    hide Run, Total, Inv, Reaches, BackpropsOk, StatsOk, SingleCopy, RelayCount, LogSound, PendingOk, MeshOk, PeersOk;
    ReachedInv(setup, actions, st);
    PartsOfInv(st);
    assert |st.adjacency| == |st.peers| by { SameSize(st); }
    QueuedPacketsOk(st);
    forall i | 0 <= i < |st.log| && st.log[i].Dropped?
      ensures st.log[i].reason != NoRoute && (|st.peers| <= 11 ==> st.log[i].reason != TtlExpired)
    {
      SoundAt(st.adjacency, st.log, i);
    }
  }

  lemma SameSize(st: State)
    requires Ok(st)
    ensures |st.adjacency| == |st.peers|
  {
    assert |st.adjacency| == |st.adjacency.Keys| == |st.peers|;
  }

  lemma QueuedPacketsOk(st: State)
    requires PeersOk(st.peers, st.handed, st.tick) && RelaysOk(st.peers, st.log)
    ensures forall p, pk :: p in st.peers && pk in st.peers[p].relayQueue ==>
              && |pk.visited| + pk.ttl == 11 && p in pk.visited && pk.visited <= st.peers.Keys
              && (pk.destination in pk.visited ==> pk.destination == pk.source)
              && RelayCount(st.log, pk.id) == |pk.visited| - 1
  {
    hide RelayCount, CountsOk, InboxOk;
    forall p, pk | p in st.peers && pk in st.peers[p].relayQueue
      ensures PacketOk(st.peers.Keys, st.tick, pk) && p in pk.visited && RelayCount(st.log, pk.id) == |pk.visited| - 1
    {
      assert QueueOk(st.peers.Keys, st.tick, p, st.peers[p].relayQueue) && Counted(st.log, st.peers[p].relayQueue);
    }
  }

  // ---------------------------------------------------------------------
  // The log tells the story
  // ---------------------------------------------------------------------

  /** Folding the log reproduces each peer's delivered list in order, its online flag, and both counters; every
      delivery in it goes to a peer the log shows awake at that moment, and every relay joins two awake neighbours. */
  lemma LogDeterminesState(setup: Setup, actions: seq<Action>, st: State)
    requires Reaches(setup, actions, st)
    ensures forall p :: p in st.peers ==>
              && st.peers[p].delivered == DeliveredTo(st.log, p) == IdList(st.peers[p].inbox)
              && (st.peers[p].online <==> AwakeIn(st.log, p))
    ensures st.stats.messagesDelivered == DeliveredCount(st.log) && st.stats.messagesDropped == DroppedCount(st.log)
    ensures forall i :: 0 <= i < |st.log| ==> EventSound(st.adjacency, st.log[..i], st.log[i])
  {
    hide Run, Total, Inv, Reaches, BackpropsOk, SingleCopy, RelaysOk, PeersOk, PendingOk, MeshOk, LogSound, EventSound,
         DeliveredTo, AwakeIn, IdList;
    ReachedInv(setup, actions, st);
    PartsOfInv(st);
    forall i | 0 <= i < |st.log| ensures EventSound(st.adjacency, st.log[..i], st.log[i]) {
      SoundAt(st.adjacency, st.log, i);
    }
  }

  /** The deliveries on record are those of the log, in order, and the counters add them up: direct ones are those whose
      packet had visited its source only, hops are the peers visited, latency the ticks from minting to delivery. */
  lemma DeliveriesAreCounted(setup: Setup, actions: seq<Action>, st: State)
    requires Reaches(setup, actions, st)
    ensures DeliveriesIn(st.log) == EventsOf(st.handed) && |st.handed| == st.stats.messagesDelivered
    ensures st.stats.directDeliveries == DirectOnes(st.handed) && st.stats.relayedDeliveries == |st.handed| - DirectOnes(st.handed)
    ensures st.stats.totalHops == HopsOf(st.handed) && st.stats.totalDeliveryLatency == LatencyOf(st.handed)
  {
    hide Run, Total, Inv, Reaches, BackpropsOk, SingleCopy, RelaysOk, PendingOk, MeshOk, LogOk, PeersOk,
         DeliveriesIn, EventsOf, DirectOnes, HopsOf, LatencyOf;
    ReachedInv(setup, actions, st);
    PartsOfInv(st);
  }

  /** Every delivery ever made was made by a peer that had held the packet and is a neighbour of its destination; every
      packet in an inbox is addressed to that peer and has such a delivery on record, and there are no other deliveries. */
  lemma InboxesAreRight(setup: Setup, actions: seq<Action>, st: State)
    requires Reaches(setup, actions, st)
    ensures forall h :: h in st.handed ==> h.via in h.packet.visited && Connected(st, h.via, h.packet.destination)
    ensures forall p, pk :: p in st.peers && pk in st.peers[p].inbox ==> pk.destination == p && exists v, t :: Handing(pk, v, t) in st.handed
    ensures |st.handed| == st.stats.messagesDelivered == |Total(st.peers).filed|
  {
    hide Run, Total, Inv, Reaches, BackpropsOk, SingleCopy, RelaysOk, PendingOk, MeshOk, LogOk, PacketOk;
    ReachedInv(setup, actions, st);
    PartsOfInv(st);
    forall p, pk | p in st.peers && pk in st.peers[p].inbox
      ensures pk.destination == p && exists v, t :: Handing(pk, v, t) in st.handed
    {
      assert InboxOk(st.peers.Keys, st.handed, st.tick, p, st.peers[p].inbox) && Recorded(st.handed, pk);
    }
  }

  // ---------------------------------------------------------------------
  // Confirmations
  // ---------------------------------------------------------------------

  /** In every reachable state confirmations are ordered by age, still have a valid position on a path of at least
      two peers, and concern packets that have been delivered. */
  lemma ConfirmationsAreOrdered(setup: Setup, actions: seq<Action>, st: State)
    requires Reaches(setup, actions, st)
    ensures Ordered(st.backprops)
    ensures forall i :: 0 <= i < |st.backprops| ==> |st.backprops[i].path| >= 2 && st.backprops[i].index <= |st.backprops[i].path| - 1
    ensures forall i :: 0 <= i < |st.backprops| ==> st.backprops[i].packetId in Total(st.peers).filedIds
  {
    hide Run, Total, Inv, Reaches, SingleCopy, RelaysOk, PendingOk, MeshOk, LogOk, StatsOk, PeersOk;
    ReachedInv(setup, actions, st);
    PartsOfInv(st);
  }

  /** From a reachable state, a tick panics exactly when aging is configured with interval zero, or when it both times
      out and completes confirmations and the last completed position has been shifted out of the list. */
  lemma StepPanicsExactly(setup: Setup, actions: seq<Action>, st: State, flips: set<PeerId>)
    requires Reaches(setup, actions, st) && Ok(st)
    ensures Step(st, flips).None? <==>
              || st.config.agingInterval == 0
              || var s := Routed(st, flips);
                 Late(s) != [] && Complete(s) != [] && Complete(s)[|Complete(s)|-1] >= |s.backprops| - |Late(s)|
  {
    hide Run, Inv, Reaches, MeshOk, Routed, ProcessBackprops, ProcessAging, Late, Complete, Ready, Woken, Settles, Due;
    ReachedInv(setup, actions, st);
    RoutedKeepsInv(st, flips);
    ReadyInInv(Routed(st, flips));
    PhaseIsRest(Routed(st, flips));
    ConfigStays(Routed(st, flips));
  }

  /** In the confirmation phase of any tick from a reachable state: the finished confirmations, and only they, are
      removed, exactly when the tick does not both time out and complete some; and every confirmation that stays has
      moved by at most one hop. */
  lemma FinishedConfirmationsLeave(setup: Setup, actions: seq<Action>, st: State, flips: set<PeerId>)
    requires Reaches(setup, actions, st) && Ok(st)
    ensures var s := Routed(st, flips);
            && (RemovesExactlyFinished(s) <==> Late(s) == [] || Complete(s) == [])
            && (ProcessBackprops(s).Some? ==>
                  forall b :: b in ProcessBackprops(s).value.backprops ==> exists i :: 0 <= i < |s.backprops| && OneHop(s.backprops[i], b))
  {
    hide Run, Inv, Reaches, MeshOk, Routed, ProcessBackprops, Late, Complete, Ready, Woken, Settles, Due, OneHop, Total, RemovesExactlyFinished;
    ReachedInv(setup, actions, st);
    RoutedKeepsInv(st, flips);
    var s := Routed(st, flips);
    ReadyInInv(s);
    StalePositions(s);
    if ProcessBackprops(s).Some? {
      forall b | b in ProcessBackprops(s).value.backprops ensures exists i :: 0 <= i < |s.backprops| && OneHop(s.backprops[i], b) {
        StaysByOneHop(s, b);
      }
    }
  }

  ghost predicate OneHop(before: BackPropState, after: BackPropState) {
    after == before.(index := after.index) && before.index <= after.index <= before.index + 1
  }

  lemma StaysByOneHop(s: State, b: BackPropState)
    requires Ready(s) && ProcessBackprops(s).Some? && b in ProcessBackprops(s).value.backprops
    ensures exists i :: 0 <= i < |s.backprops| && OneHop(s.backprops[i], b)
  {
    hide Ready, ProcessBackprops, HopEvents, TimedOutAt, CompletedAt, Rest, Total, MeshOk;
    PhaseIsRest(s);
    var k, list := |Late(s)|, Trimmed(s).backprops;
    RestMembers(list, Positions(Complete(s)), b);
    var i :| 0 <= i < |list| && list[i] == b;
    assert list[i] == Advance(s, s.backprops[k + i]);
    assert OneHop(s.backprops[k + i], b);
  }

  lemma ConfigStays(st: State)
    requires Ok(st)
    ensures ProcessBackprops(st).Some? ==> ProcessBackprops(st).value.config == st.config
  {
    hide MeshOk;
  }
}
