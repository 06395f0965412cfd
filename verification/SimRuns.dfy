/** Whole ticks and whole runs keep the invariant. */
module SimRuns {
  import opened Common
  import opened SimTypes
  import opened SimSpec
  import opened SimInvariant
  import opened SimMoves
  import opened SimPhases
  import opened SimBackprops
  import Prophet

  // ---------------------------------------------------------------------
  // Wake and sleep
  // ---------------------------------------------------------------------

  function Switched(st: State, p: PeerId, online: bool): PeerState
    requires p in st.peers
  {
    st.peers[p].(online := online, lastOnlineTick := if online then Some(st.tick) else st.peers[p].lastOnlineTick)
  }

  function SwitchEvent(st: State, p: PeerId, online: bool): NetworkEvent {
    if online then Awake(p, st.tick) else Sleep(p, st.tick)
  }

  lemma SwitchKeepsLog(st: State, p: PeerId, online: bool)
    requires p in st.peers && LogOk(st.peers, st.adjacency, st.log)
    ensures LogOk(st.peers[p := Switched(st, p, online)], st.adjacency, st.log + [SwitchEvent(st, p, online)])
  {
    hide LogSound, DeliveredTo, IdList, AwakeIn;
    LogOkEvent(st.peers, st.peers[p := Switched(st, p, online)], st.adjacency, st.log, SwitchEvent(st, p, online));
  }

  lemma SwitchKeepsInv(st: State, p: PeerId, online: bool, dr: Draining)
    requires Inv(st, [], dr) && p in st.peers
    ensures Inv(SetOnline(st, p, online), [], dr)
  {
    hide Total, PeersOk, RelaysOk, LogOk, BackpropsOk, MeshOk, Requests, Messages, CopiesOk, Ids, RelayCount,
         DeliveredCount, DroppedCount, DeliveriesIn, EventsOf, DirectOnes, HopsOf, LatencyOf;
    var ps, e := Switched(st, p, online), SwitchEvent(st, p, online);
    var after := st.peers[p := ps];
    SwitchKeepsMesh(st, p, online);
    TotalSame(st.peers, p, ps);
    PeersOkAt(st.peers, st.handed, st.tick, p);
    PeersOkUpdate(st.peers, st.handed, st.tick, p, ps);
    RelaysOkAt(st.peers, st.log, p);
    RelaysOkUpdate(st.peers, st.log, p, ps);
    RelaysOkEvent(after, st.log, e);
    SwitchKeepsLog(st, p, online);
    LogStep(st.adjacency, st.log, e);
    var t := Total(st.peers);
    CopiesMove(st.peers, after, t.queuedIds, t.filedIds, Ids([]), t.queuedIds, t.filedIds, Ids([]));
  }

  lemma SwitchKeepsMesh(st: State, p: PeerId, online: bool)
    requires Ok(st) && p in st.peers
    ensures MeshOk(st.peers[p := Switched(st, p, online)], st.adjacency)
  {
  }

  lemma CountsKeepInv(st: State, r: State, dr: Draining)
    requires Inv(st, [], dr) && r == st.(stats := r.stats)
    requires r.stats == st.stats.(wakeEvents := r.stats.wakeEvents, sleepEvents := r.stats.sleepEvents,
                                  prophetAgingCycles := r.stats.prophetAgingCycles)
    ensures Inv(r, [], dr)
  {
    hide Total, SingleCopy, PeersOk, RelaysOk, LogOk, BackpropsOk, MeshOk, Requests, PacketOk, RelayCount,
         DeliveredCount, DroppedCount, DeliveriesIn, EventsOf, DirectOnes, HopsOf, LatencyOf, Messages, Ids, InNetwork;
  }

  /** Queues, inboxes and edges are untouched. */
  ghost predicate SameHoldings(st: State, r: State) {
    && r.peers.Keys == st.peers.Keys && r.adjacency == st.adjacency
    && forall p :: p in st.peers ==> r.peers[p].relayQueue == st.peers[p].relayQueue && r.peers[p].inbox == st.peers[p].inbox
  }

  lemma {:induction false} TransitionsKeepInv(st: State, ids: seq<PeerId>, flips: set<PeerId>, dr: Draining)
    requires Inv(st, [], dr) && forall p :: p in ids ==> p in st.peers
    ensures Inv(Transitions(st, ids, flips), [], dr) && SameHoldings(st, Transitions(st, ids, flips))
    decreases |ids|
  {
    hide Inv, MeshOk;
    assert Ok(st) by { UnfoldInv(st, [], dr); }
    if ids != [] {
      var p := ids[0];
      if p in flips {
        var s := SetOnline(st, p, !st.peers[p].online);
        SwitchKeepsInv(st, p, !st.peers[p].online, dr);
        CountsKeepInv(s, Flipped(st, p), dr);
        TransitionsKeepInv(Flipped(st, p), ids[1..], flips, dr);
      } else {
        TransitionsKeepInv(st, ids[1..], flips, dr);
      }
    }
  }

  // ---------------------------------------------------------------------
  // The clock
  // ---------------------------------------------------------------------

  lemma OlderPacketsOk(peers: Peers, handed: Handings, tick: nat)
    requires PeersOk(peers, handed, tick)
    ensures PeersOk(peers, handed, tick + 1)
  {
  }

  lemma OlderBackpropsOk(bs: seq<BackPropState>, tick: nat, filed: multiset<PacketId>)
    requires BackpropsOk(bs, tick, filed)
    ensures BackpropsOk(bs, tick + 1, filed)
  {
  }

  lemma TickKeepsInv(st: State)
    requires Inv(st, [], DONE)
    ensures Inv(st.(tick := st.tick + 1), [], Draining([], true))
  {
    hide Total, SingleCopy, PeersOk, RelaysOk, LogOk, BackpropsOk, MeshOk, Requests, PacketOk, RelayCount,
         DeliveredCount, DroppedCount, DeliveriesIn, EventsOf, DirectOnes, HopsOf, LatencyOf, Messages, Ids, InNetwork;
    OlderPacketsOk(st.peers, st.handed, st.tick);
    OlderBackpropsOk(st.backprops, st.tick, Total(st.peers).filedIds);
  }

  lemma DrainKeepsInv(st: State)
    requires Inv(st, [], Draining([], true))
    ensures Inv(st.(pending := []), [], Draining(st.pending, false))
  {
    hide Total, SingleCopy, PeersOk, RelaysOk, LogOk, BackpropsOk, MeshOk, PacketOk, RelayCount,
         DeliveredCount, DroppedCount, DeliveriesIn, EventsOf, DirectOnes, HopsOf, LatencyOf, Messages, Ids, InNetwork;
    assert Requests([]) == multiset{};
  }

  // ---------------------------------------------------------------------
  // Aging
  // ---------------------------------------------------------------------

  lemma {:induction false} AgePeersKeepInv(st: State, ids: seq<PeerId>)
    requires Inv(st, [], DONE) && forall p :: p in ids ==> p in st.peers
    ensures Inv(AgePeers(st, ids), [], DONE) && SameHoldings(st, AgePeers(st, ids))
    decreases |ids|
  {
    hide Inv, MeshOk, Prophet.Age, SameHoldings;
    assert Ok(st) by { UnfoldInv(st, [], DONE); }
    if ids == [] {
      HoldingsStay(st);
    } else {
      var ps := st.peers[ids[0]];
      var aged := ps.(prophet := Prophet.Age(Prophet.DEFAULT, ps.prophet));
      var s := SetPeer(st, ids[0], aged);
      TableKeepsInv(st, ids[0], aged, [], DONE);
      TableKeepsHoldings(st, ids[0], aged);
      AgePeersKeepInv(s, ids[1..]);
      HoldingsChain(st, s, AgePeers(st, ids));
    }
  }

  lemma HoldingsStay(st: State)
    ensures SameHoldings(st, st)
  {
  }

  lemma HoldingsChain(a: State, b: State, c: State)
    requires SameHoldings(a, b) && SameHoldings(b, c)
    ensures SameHoldings(a, c)
  {
  }

  lemma TableKeepsHoldings(st: State, p: PeerId, ps: PeerState)
    requires p in st.peers && ps.relayQueue == st.peers[p].relayQueue && ps.inbox == st.peers[p].inbox
    ensures SameHoldings(st, st.(peers := st.peers[p := ps]))
  {
  }

  lemma AgingKeepsInv(st: State)
    requires Inv(st, [], DONE)
    ensures Inv(ProcessAging(st), [], DONE) && SameHoldings(st, ProcessAging(st))
  {
    hide Inv, MeshOk, AgePeers, Sorted;
    assert Ok(st) by { UnfoldInv(st, [], DONE); }
    AgePeersKeepInv(st, Sorted(st.peers.Keys));
    CountsKeepInv(AgePeers(st, Sorted(st.peers.Keys)), ProcessAging(st), DONE);
  }

  // ---------------------------------------------------------------------
  // A tick
  // ---------------------------------------------------------------------

  lemma SameHoldingsSettles(a: State, b: State, c: State)
    requires SameHoldings(a, b) && Settles(b, c)
    ensures Settles(a, c)
  {
  }

  lemma DispatchKeepsInv(st: State)
    requires Inv(st, [], Draining([], true))
    ensures Inv(Dispatched(st), [], DONE) && Settles(st, Dispatched(st))
  {
    hide Inv, MeshOk, AwakeSignals, ProcessSends, Sorted, Settles, Frame;
    assert Ok(st) by { UnfoldInv(st, [], Draining([], true)); }
    AwakeSignalsKeepsInv(st, Sorted(st.peers.Keys), Draining([], true));
    var signalled := AwakeSignals(st, Sorted(st.peers.Keys));
    DrainKeepsInv(signalled);
    var drained := signalled.(pending := []);
    ProcessSendsKeepsInv(drained, signalled.pending);
    AnnounceSettles(signalled, drained, Dispatched(st));
    SettlesChain(st, signalled, Dispatched(st));
  }

  lemma WokenKeepsInv(st: State, flips: set<PeerId>)
    requires Inv(st, [], DONE)
    ensures Inv(Woken(st, flips), [], Draining([], true)) && SameHoldings(st, Woken(st, flips))
  {
    hide Inv, MeshOk, Transitions, Sorted;
    assert Ok(st) by { UnfoldInv(st, [], DONE); }
    TickKeepsInv(st);
    TransitionsKeepInv(st.(tick := st.tick + 1), Sorted(st.peers.Keys), flips, Draining([], true));
  }

  /** Queued before the tick, and in this tick at an online peer next to its online destination. */
  ghost predicate Due(st: State, woken: State, p: PeerId, pk: SealedPacket) {
    p in st.peers && pk in st.peers[p].relayQueue && Deliverable(woken, p, pk)
  }

  lemma RoutedKeepsInv(st: State, flips: set<PeerId>)
    requires Inv(st, [], DONE)
    ensures Inv(Routed(st, flips), [], DONE) && Settles(st, Routed(st, flips))
    ensures forall p, pk :: Due(st, Woken(st, flips), p, pk) ==> Arrived(Routed(st, flips), pk)
  {
    hide Inv, MeshOk, Woken, Dispatched, RelayQueues, Sorted, Settles, Frame, Deliverable, Arrived;
    assert Ok(st) by { UnfoldInv(st, [], DONE); }
    var woken := Woken(st, flips);
    WokenKeepsInv(st, flips);
    DispatchKeepsInv(woken);
    var sent := Dispatched(woken);
    FrameKeys(woken, sent);
    RelayQueuesKeepsInv(sent, Sorted(st.peers.Keys));
    var r := Routed(st, flips);
    SettlesChain(woken, sent, r);
    SameHoldingsSettles(st, woken, r);
    forall p, pk | Due(st, woken, p, pk) ensures Arrived(r, pk) {
      SettledOrWaiting(woken, sent, p, pk);
      if Arrived(sent, pk) { StaysArrived(sent, r, pk); }
    }
  }

  lemma FrameKeys(st: State, r: State)
    requires Frame(st, r)
    ensures r.peers.Keys == st.peers.Keys
  {
  }

  /** One tick of the engine keeps the invariant, and delivers every packet that was queued before the tick at a
      peer that is online in it, next to a destination that is online in it. */
  lemma StepKeepsInv(st: State, flips: set<PeerId>)
    requires Inv(st, [], DONE) && Step(st, flips).Some?
    ensures var r := Step(st, flips).value;
            && Inv(r, [], DONE) && Settles(st, r)
            && forall p, pk :: Due(st, Woken(st, flips), p, pk) ==> Arrived(r, pk)
  {
    hide Inv, MeshOk, Routed, ProcessBackprops, ProcessAging, Woken, Settles, Due;
    assert Ok(st) by { UnfoldInv(st, [], DONE); }
    RoutedKeepsInv(st, flips);
    var routed := Routed(st, flips);
    BackpropsKeepInv(routed);
    var s := ProcessBackprops(routed).value;
    AgingKeepsInv(s);
    StillSettled(st, routed, s, Step(st, flips).value);
  }

  lemma StillSettled(st: State, routed: State, s: State, r: State)
    requires Settles(st, routed) && s.peers == routed.peers && s.adjacency == routed.adjacency && (r == s || SameHoldings(s, r))
    ensures Settles(st, r)
    ensures forall pk :: Arrived(routed, pk) ==> Arrived(r, pk)
  {
  }

  // ---------------------------------------------------------------------
  // The other actions, and runs
  // ---------------------------------------------------------------------

  lemma SendKeepsInv(st: State, m: Message)
    requires Inv(st, [], DONE)
    ensures Inv(SendMessage(st, m), [], DONE)
  {
    hide Total, SingleCopy, PeersOk, RelaysOk, LogOk, BackpropsOk, MeshOk, Requests, PacketOk, RelayCount,
         DeliveredCount, DroppedCount, DeliveriesIn, EventsOf, DirectOnes, HopsOf, LatencyOf, Messages, Ids, InNetwork;
    RequestsAppend(st.pending, PendingSend(m, st.tick, 0));
  }

  lemma ActKeepsInv(st: State, a: Action)
    requires Inv(st, [], DONE) && Act(st, a).Some?
    ensures Inv(Act(st, a).value, [], DONE)
  {
    hide Inv, MeshOk, Step, SetOnline, SendMessage, Settles, Woken;
    assert Ok(st) by { UnfoldInv(st, [], DONE); }
    match a {
      case DoSend(m) => SendKeepsInv(st, m);
      case DoStep(flips) => StepKeepsInv(st, flips);
      case DoForce(p, online) => if p in st.peers { SwitchKeepsInv(st, p, online, DONE); }
    }
  }

  lemma {:induction false} RunKeepsInv(st: State, actions: seq<Action>)
    requires Inv(st, [], DONE) && Run(st, actions).Some?
    ensures Inv(Run(st, actions).value, [], DONE)
    decreases |actions|
  {
    hide Inv, MeshOk, Act;
    assert Ok(st) by { UnfoldInv(st, [], DONE); }
    if actions != [] {
      var n := |actions| - 1;
      RunKeepsInv(st, actions[..n]);
      ActKeepsInv(Run(st, actions[..n]).value, actions[n]);
    }
  }

  // ---------------------------------------------------------------------
  // Where runs start
  // ---------------------------------------------------------------------

  /** A mesh nobody has used: empty queues and inboxes, everybody offline. */
  ghost predicate Unused(peers: Peers) {
    forall p :: p in peers ==> peers[p].relayQueue == [] && peers[p].inbox == [] && peers[p].delivered == [] && !peers[p].online
  }

  lemma {:induction false} EmptyTally(peers: Peers, ids: seq<PeerId>)
    requires Unused(peers) && forall p :: p in ids ==> p in peers
    ensures Tally(peers, ids) == EMPTY
  {
    if ids != [] {
      EmptyTally(peers, ids[1..]);
      assert BagOf(peers[ids[0]]) == EMPTY;
    }
  }

  lemma NewStateInv(peers: Peers, adjacency: Adjacency, config: SimConfig)
    requires MeshOk(peers, adjacency) && Unused(peers)
    ensures Inv(NewState(peers, adjacency, config), [], DONE)
  {
    hide MeshOk, Total, PeersOk, RelaysOk, LogOk, CopiesOk;
    assert Total(peers) == EMPTY by { EmptyTotal(peers); }
    EmptyPeersOk(peers);
    EmptyRelaysOk(peers);
    EmptyLogOk(peers, adjacency);
    EmptyCopiesOk(peers);
  }

  lemma EmptyLogOk(peers: Peers, adjacency: Adjacency)
    requires Unused(peers)
    ensures LogOk(peers, adjacency, [])
  {
  }

  lemma EmptyCopiesOk(peers: Peers)
    ensures CopiesOk(peers, EMPTY.queuedIds, EMPTY.filedIds, Ids([]))
  {
  }

  /** initialize, at tick 0 with the listed peers offline, switches the drawn ones on. */
  lemma {:induction false} InitializeKeepsInv(st: State, ids: seq<PeerId>, on: set<PeerId>)
    requires Inv(st, [], DONE) && st.tick == 0 && StrictlyAscending(ids)
    requires forall p :: p in ids ==> p in st.peers && !st.peers[p].online
    ensures var r := Initialize(st, ids, on); Inv(r, [], DONE) && r == st.(peers := r.peers, log := r.log)
    decreases |ids|
  {
    hide Inv, MeshOk;
    assert Ok(st) by { UnfoldInv(st, [], DONE); }
    if ids != [] {
      var p := ids[0];
      var s := st;
      if p in on {
        s := SetOnline(st, p, true);
        SwitchKeepsInv(st, p, true, DONE);
      } else {
        assert st.peers[p := st.peers[p]] == st.peers;
      }
      InitializeKeepsInv(s, ids[1..], on);
    }
  }

  lemma EmptyTotal(peers: Peers)
    requires Unused(peers)
    ensures Total(peers) == EMPTY
  {
    EmptyTally(peers, Sorted(peers.Keys));
  }

  lemma EmptyPeersOk(peers: Peers)
    requires Unused(peers)
    ensures PeersOk(peers, [], 0)
  {
  }

  lemma EmptyRelaysOk(peers: Peers)
    requires Unused(peers)
    ensures RelaysOk(peers, [])
  {
  }
}
