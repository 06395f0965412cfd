/** The engine itself (simulation/src/simulation.rs): every phase updates the fields in place, and is proved equal to
    the transition rules of module SimSpec, so that what is proved of those rules holds of this class. */
module Simulation {
  import opened Common
  import opened SimTypes
  import opened SimSpec
  import opened SimInvariant
  import opened SimRuns
  import opened SimLoops
  import Prophet

  class Simulation {
    var peers: map<PeerId, PeerState>
    var adjacency: map<PeerId, set<PeerId>>
    var tick: nat
    var config: SimConfig
    var eventLog: seq<NetworkEvent>
    var pendingSends: seq<PendingSend>
    var backprops: seq<BackPropState>
    var stats: SimStats
    ghost var sent: seq<Message>
    ghost var dropped: seq<Message>
    ghost var handed: seq<Handing>

    ghost function View(): State
      reads this
    {
      State(peers, adjacency, tick, config, eventLog, pendingSends, backprops, stats, sent, dropped, handed)
    }

    ghost predicate Valid()
      reads this
    {
      Ok(View())
    }

    constructor (peers: map<PeerId, PeerState>, adjacency: map<PeerId, set<PeerId>>, config: SimConfig)
      requires MeshOk(peers, adjacency)
      ensures Valid() && View() == NewState(peers, adjacency, config)
    {
      this.peers, this.adjacency, this.config := peers, adjacency, config;
      tick, eventLog, pendingSends, backprops, stats := 0, [], [], [], NO_STATS;
      sent, dropped, handed := [], [], [];
    }

    predicate IsOnline(p: PeerId)
      reads this
    {
      p in peers && peers[p].online
    }

    predicate AreConnected(a: PeerId, b: PeerId)
      reads this
    {
      a in adjacency && b in adjacency[a]
    }

    method EmitEvent(e: NetworkEvent)
      modifies this`eventLog
      ensures eventLog == old(eventLog) + [e]
    {
      eventLog := eventLog + [e];
    }

    // -------------------------------------------------------------------
    // The public interface
    // -------------------------------------------------------------------

    method Initialize(on: set<PeerId>)
      requires Valid()
      modifies this
      ensures Valid() && View() == SimSpec.Initialize(old(View()), Sorted(old(peers.Keys)), on)
    {
      hide Ok, Sorted, SimSpec.Initialize, Draw;
      var ids := Sorted(peers.Keys);
      ghost var st := View();
      for i := 0 to |ids|
        invariant Ok(st) && View() == st && st.peers.Keys == old(peers.Keys)
        invariant SimSpec.Initialize(st, ids[i..], on) == SimSpec.Initialize(old(View()), ids, on)
      {
        InitializeStep(st, ids, i, on);
        DrawPeer(ids[i], ids[i] in on);
        st := Draw(st, ids[i], ids[i] in on);
      }
      InitializeStep(st, ids, |ids|, on);
    }

    method DrawPeer(p: PeerId, online: bool)
      requires Valid() && p in peers
      modifies this
      ensures Valid() && View() == Draw(old(View()), p, online)
    {
      hide MeshOk;
      var peer := peers[p].(online := online);
      if online {
        peer := peer.(lastOnlineTick := Some(0));
        EmitEvent(Awake(p, 0));
      }
      peers := peers[p := peer];
      assert View() == Draw(old(View()), p, online);
    }

    method SendMessage(m: Message)
      requires Valid()
      modifies this
      ensures Valid() && View() == SimSpec.SendMessage(old(View()), m)
    {
      pendingSends := pendingSends + [PendingSend(m, tick, 0)];
      stats := stats.(messagesSent := stats.messagesSent + 1);
      sent := sent + [m];
    }

    method ForceOnline(p: PeerId)
      requires Valid()
      modifies this
      ensures Valid() && View() == Force(old(View()), p, true)
    {
      if p in peers && !peers[p].online {
        peers := peers[p := peers[p].(online := true, lastOnlineTick := Some(tick))];
        EmitEvent(Awake(p, tick));
      }
      hide MeshOk;
      assert View() == Force(old(View()), p, true);
    }

    method ForceOffline(p: PeerId)
      requires Valid()
      modifies this
      ensures Valid() && View() == Force(old(View()), p, false)
    {
      if p in peers && peers[p].online {
        peers := peers[p := peers[p].(online := false)];
        EmitEvent(Sleep(p, tick));
      }
      hide MeshOk;
      assert View() == Force(old(View()), p, false);
    }

    // -------------------------------------------------------------------
    // Wake and sleep
    // -------------------------------------------------------------------

    method Flip(p: PeerId)
      requires Valid() && p in peers
      modifies this
      ensures Valid() && View() == Flipped(old(View()), p)
    {
      hide MeshOk;
      var peer := peers[p].(online := !peers[p].online);
      if peer.online {
        peer := peer.(lastOnlineTick := Some(tick));
        EmitEvent(Awake(p, tick));
        stats := stats.(wakeEvents := stats.wakeEvents + 1);
      } else {
        EmitEvent(Sleep(p, tick));
        stats := stats.(sleepEvents := stats.sleepEvents + 1);
      }
      peers := peers[p := peer];
      assert View() == Flipped(old(View()), p);
    }

    method ProcessStateTransitions(flips: set<PeerId>)
      requires Valid()
      modifies this
      ensures Valid() && View() == Transitions(old(View()), Sorted(old(peers.Keys)), flips) && peers.Keys == old(peers.Keys)
    {
      hide Ok, Sorted, Flipped, Transitions;
      var ids := Sorted(peers.Keys);
      ghost var st := View();
      for i := 0 to |ids|
        invariant Ok(st) && View() == st && st.peers.Keys == old(peers.Keys)
        invariant Transitions(st, ids[i..], flips) == Transitions(old(View()), ids, flips)
      {
        TransitionsStep(st, ids, i, flips);
        ghost var before := View();
        if ids[i] in flips {
          Flip(ids[i]);
        }
        assert View() == TransitionTurn(before, ids[i], flips);
        st := View();
      }
      TransitionsStep(st, ids, |ids|, flips);
    }

    // -------------------------------------------------------------------
    // Delivery
    // -------------------------------------------------------------------

    /** Vec::retain on one peer's relay queue. */
    method RemoveFromQueue(p: PeerId, id: PacketId)
      requires Valid() && p in peers
      modifies this`peers
      ensures Valid() && View() == RemoveQueued(old(View()), p, id) && peers.Keys == old(peers.Keys)
    {
      hide MeshOk, Frame;
      peers := peers[p := peers[p].(relayQueue := Retain(peers[p].relayQueue, id))];
      assert View() == RemoveQueued(old(View()), p, id);
    }

    method Push(p: PeerId, pk: SealedPacket)
      requires Valid() && p in peers
      modifies this`peers
      ensures Valid() && View() == Enqueue(old(View()), p, pk) && peers.Keys == old(peers.Keys)
    {
      hide MeshOk, Frame;
      peers := peers[p := peers[p].(relayQueue := peers[p].relayQueue + [pk])];
      assert View() == Enqueue(old(View()), p, pk);
    }

    /** prophet_state.encounter of one peer. */
    method RecordEncounter(p: PeerId, other: PeerId)
      requires Valid() && p in peers
      modifies this`peers
      ensures Valid() && View() == SetPeer(old(View()), p, Meet(old(peers)[p], other)) && peers.Keys == old(peers.Keys)
    {
      hide MeshOk, Frame, Prophet.Encounter;
      peers := peers[p := peers[p].(prophet := Prophet.Encounter(Prophet.DEFAULT, peers[p].id, peers[p].prophet, other))];
      assert View() == SetPeer(old(View()), p, Meet(old(peers)[p], other));
    }

    method FileAt(pk: SealedPacket)
      requires Valid() && pk.destination in peers
      modifies this`peers
      ensures Valid() && View() == SetPeer(old(View()), pk.destination, FileInInbox(old(peers)[pk.destination], pk))
      ensures peers.Keys == old(peers.Keys)
    {
      hide MeshOk, Frame;
      var p := pk.destination;
      peers := peers[p := peers[p].(inbox := peers[p].inbox + [pk], delivered := peers[p].delivered + [pk.id])];
      assert View() == SetPeer(old(View()), p, FileInInbox(old(peers)[p], pk));
    }

    method RecordDelivery(pk: SealedPacket)
      modifies this`stats
      ensures stats == CountDelivery(old(stats), |pk.visited|, if tick >= pk.createdAt then tick - pk.createdAt else 0)
    {
      var latency := if tick >= pk.createdAt then tick - pk.createdAt else 0;
      stats := stats.(totalDeliveryLatency := stats.totalDeliveryLatency + latency);
      stats := stats.(messagesDelivered := stats.messagesDelivered + 1);
      stats := stats.(totalHops := stats.totalHops + |pk.visited|);
      if |pk.visited| == 1 {
        stats := stats.(directDeliveries := stats.directDeliveries + 1);
      } else {
        stats := stats.(relayedDeliveries := stats.relayedDeliveries + 1);
      }
    }

    method DeliverPacket(pk: SealedPacket, via: PeerId)
      requires Valid() && via in peers && pk.destination in peers
      modifies this
      ensures Valid() && View() == SimSpec.DeliverPacket(old(View()), pk, via) && peers.Keys == old(peers.Keys)
    {
      hide MeshOk, Frame, Meet, FileInInbox, Sorted, SetPeer, CountDelivery;
      RecordEncounter(via, pk.destination);
      FileAt(pk);
      EmitEvent(Delivered(pk.id, pk.destination, tick));
      RecordDelivery(pk);
      var path := Sorted(pk.visited);
      if |path| > 1 {
        backprops := backprops + [BackPropState(pk.id, path, 0, tick)];
      }
      handed := handed + [Handing(pk, via, tick)];
      assert View() == SimSpec.DeliverPacket(old(View()), pk, via);
    }

    method DeliverPendingPackets(from: PeerId, to: PeerId)
      requires Valid() && from in peers && to in peers
      modifies this
      ensures Valid() && View() == DeliverPending(old(View()), from, to) && peers.Keys == old(peers.Keys)
    {
      hide Ok, Frame, DeliverAll, SimSpec.DeliverPacket, RemoveQueued;
      var pks := AddressedTo(peers[from].relayQueue, to);
      ghost var st := View();
      for i := 0 to |pks|
        invariant Ok(st) && View() == st && st.peers.Keys == old(peers.Keys)
        invariant DeliverAll(st, pks[i..], from) == DeliverAll(old(View()), pks, from)
      {
        DeliverAllStep(st, pks, i, from);
        RemoveFromQueue(from, pks[i].id);
        DeliverPacket(pks[i], from);
        st := View();
      }
      DeliverAllStep(st, pks, |pks|, from);
    }

    /** One waking peer asks each of its neighbours. */
    method SignalNeighbors(p: PeerId)
      requires Valid() && p in peers
      requires forall n :: n in peers[p].connections ==> n in peers
      modifies this
      ensures Valid() && View() == AwakeNeighbors(old(View()), Sorted(old(peers)[p].connections), p) && peers.Keys == old(peers.Keys)
    {
      hide Ok, Frame, AwakeNeighbors, DeliverPending, Sorted;
      var neighbors := Sorted(peers[p].connections);
      ghost var st := View();
      for i := 0 to |neighbors|
        invariant Ok(st) && View() == st && st.peers.Keys == old(peers.Keys)
        invariant AwakeNeighbors(st, neighbors[i..], p) == AwakeNeighbors(old(View()), neighbors, p)
      {
        AwakeNeighborsStep(st, neighbors, i, p);
        DeliverPendingPackets(neighbors[i], p);
        st := View();
      }
      AwakeNeighborsStep(st, neighbors, |neighbors|, p);
    }

    method ProcessAwakeSignals()
      requires Valid()
      modifies this
      ensures Valid() && View() == AwakeSignals(old(View()), Sorted(old(peers.Keys))) && peers.Keys == old(peers.Keys)
    {
      hide Ok, Frame, AwakeSignals, AwakeNeighbors, Sorted;
      var ids := Sorted(peers.Keys);
      ghost var st := View();
      for i := 0 to |ids|
        invariant Ok(st) && View() == st && st.peers.Keys == old(peers.Keys)
        invariant AwakeSignals(st, ids[i..]) == AwakeSignals(old(View()), ids)
      {
        AwakeSignalsStep(st, ids, i);
        var p := ids[i];
        if peers[p].online && peers[p].lastOnlineTick == Some(tick) {
          ConnectionsExist(st, p);
          SignalNeighbors(p);
        }
        st := View();
      }
      AwakeSignalsStep(st, ids, |ids|);
    }

    // -------------------------------------------------------------------
    // Relaying
    // -------------------------------------------------------------------

    method OnlineCandidates(pk: SealedPacket, current: PeerId) returns (candidates: seq<PeerId>)
      ensures candidates == Candidates(View(), pk, Sorted(Neighbors(View(), current)))
    {
      hide Sorted;
      var neighbors := Sorted(if current in adjacency then adjacency[current] else {});
      candidates := [];
      for i := 0 to |neighbors|
        invariant candidates == Candidates(View(), pk, neighbors[..i])
      {
        assert neighbors[..i+1][..i] == neighbors[..i];
        if neighbors[i] !in pk.visited && IsOnline(neighbors[i]) {
          candidates := candidates + [neighbors[i]];
        }
      }
      assert neighbors[..|neighbors|] == neighbors;
    }

    method DropPacket(pk: SealedPacket, reason: DropReason)
      requires Valid()
      modifies this`eventLog, this`stats, this`dropped
      ensures Valid() && View() == SimSpec.DropPacket(old(View()), pk, reason)
    {
      EmitEvent(Dropped(pk.id, reason, tick));
      stats := stats.(messagesDropped := stats.messagesDropped + 1);
      dropped := dropped + [pk.Content()];
    }

    /** Hands the packet, one hop poorer, to the chosen relay. */
    method RelayPacket(pk: SealedPacket, current: PeerId, relay: PeerId)
      requires Valid() && current in peers && relay in peers && pk.ttl > 0
      modifies this
      ensures Valid() && View() == RelayTo(old(View()), pk, current, relay) && peers.Keys == old(peers.Keys)
    {
      hide MeshOk, Frame, Meet, SetPeer, Enqueue;
      var packet := pk.(ttl := pk.ttl - 1);
      packet := packet.(visited := packet.visited + {relay});
      RecordEncounter(current, relay);
      EmitEvent(Relay(current, relay, pk.destination, pk.id, tick));
      Push(relay, packet);
    }

    method FindRelayPath(pk: SealedPacket, current: PeerId)
      requires Valid() && current in peers
      modifies this
      ensures Valid() && View() == SimSpec.FindRelayPath(old(View()), pk, current) && peers.Keys == old(peers.Keys)
    {
      hide MeshOk, Frame, RelayTo, Enqueue, SimSpec.DropPacket, Sorted, Candidates, FirstIn, Prophet.BestCandidate;
      var candidates := OnlineCandidates(pk, current);
      var prophetRelay := Prophet.BestCandidate(peers[current].id, peers[current].prophet, pk.destination, candidates);
      var relay := prophetRelay;
      if relay.None? {
        relay := FirstIn(candidates, pk.routingHints);
      }
      if relay.None? {
        relay := FirstIn(candidates, if pk.destination in adjacency then adjacency[pk.destination] else {});
      }
      if relay.None? && candidates != [] {
        relay := Some(candidates[0]);
      }
      assert relay == SelectRelay(View(), pk, current, candidates);
      if prophetRelay.Some? && relay.Some? {
        stats := stats.(prophetRelaySelections := stats.prophetRelaySelections + 1);
      }
      match relay
      case Some(r) =>
        if pk.ttl == 0 {
          DropPacket(pk, TtlExpired);
        } else {
          RelayPacket(pk, current, r);
        }
      case None =>
        // There is no candidate at all: the code's other branch, a drop for want of a route, is unreachable.
        Push(current, pk);
    }

    // -------------------------------------------------------------------
    // Pending sends
    // -------------------------------------------------------------------

    method DropSend(m: Message, reason: DropReason)
      requires Valid()
      modifies this`eventLog, this`stats, this`dropped
      ensures Valid() && View() == SimSpec.DropSend(old(View()), m, reason)
    {
      if reason == Expired {
        stats := stats.(messagesExpired := stats.messagesExpired + 1);
      }
      stats := stats.(messagesDropped := stats.messagesDropped + 1);
      EmitEvent(Dropped(PacketId(m.from, 0), reason, tick));
      dropped := dropped + [m];
    }

    /** next_packet_id, then SealedPacket::new. */
    method CreatePacket(m: Message) returns (pk: SealedPacket)
      requires Valid() && m.from in peers
      modifies this`peers
      ensures Valid() && (View(), pk) == Mint(old(View()), m) && peers.Keys == old(peers.Keys)
    {
      hide MeshOk, Frame;
      var id := PacketId(peers[m.from].id, peers[m.from].sequence);
      var hints := if m.from in adjacency && m.to in adjacency then adjacency[m.from] * adjacency[m.to] else {};
      assert hints == MutualPeers(View(), m.from, m.to);
      peers := peers[m.from := peers[m.from].(sequence := peers[m.from].sequence + 1)];
      pk := NewPacket(id, m, hints, tick);
      assert (View(), pk) == Mint(old(View()), m);
    }

    method RouteMessageWithRetry(send: PendingSend)
      requires Valid()
      modifies this
      ensures Valid() && View() == RouteMessage(old(View()), send) && peers.Keys == old(peers.Keys)
    {
      hide MeshOk, Frame, Mint, SimSpec.DeliverPacket, SimSpec.FindRelayPath, Enqueue, SimSpec.DropSend;
      var m := send.message;
      if !IsOnline(m.from) {
        if config.maxSenderRetries.Some? && send.retryCount >= config.maxSenderRetries.value {
          DropSend(m, SenderOffline);
        } else {
          pendingSends := pendingSends + [send.(retryCount := send.retryCount + 1)];
        }
        return;
      }
      var pk := CreatePacket(m);
      MintKeeps(old(View()), m);
      if AreConnected(m.from, m.to) {
        if IsOnline(m.to) {
          DeliverPacket(pk, m.from);
        } else {
          Push(m.from, pk);
        }
      } else {
        FindRelayPath(pk, m.from);
      }
    }

    method TryToSend(send: PendingSend)
      requires Valid()
      modifies this
      ensures Valid() && View() == ProcessSend(old(View()), send) && peers.Keys == old(peers.Keys)
    {
      hide MeshOk, Frame, RouteMessage, SimSpec.DropSend;
      if config.messageTimeout.Some? && tick - send.createdTick > config.messageTimeout.value {
        DropSend(send.message, Expired);
      } else {
        EmitEvent(Send(send.message, tick));
        RouteMessageWithRetry(send);
      }
    }

    method ProcessPendingSends()
      requires Valid()
      modifies this
      ensures Valid() && View() == ProcessSends(old(View()).(pending := []), old(pendingSends)) && peers.Keys == old(peers.Keys)
    {
      hide MeshOk, Frame, ProcessSends, ProcessSend;
      var sends := pendingSends;
      pendingSends := [];
      ghost var st := View();
      for i := 0 to |sends|
        invariant Ok(st) && View() == st && st.peers.Keys == old(peers.Keys)
        invariant ProcessSends(st, sends[i..]) == ProcessSends(old(View()).(pending := []), sends)
      {
        ProcessSendsStep(st, sends, i);
        TryToSend(sends[i]);
        st := View();
      }
      ProcessSendsStep(st, sends, |sends|);
    }

    // -------------------------------------------------------------------
    // Relay queues
    // -------------------------------------------------------------------

    method ForwardPacket(pk: SealedPacket, p: PeerId)
      requires Valid() && p in peers
      modifies this
      ensures Valid() && View() == ForwardOne(old(View()), pk, p) && peers.Keys == old(peers.Keys)
    {
      hide MeshOk, Frame, RemoveQueued, SimSpec.DeliverPacket, SimSpec.FindRelayPath;
      var direct := AreConnected(p, pk.destination);
      if direct && IsOnline(pk.destination) {
        RemoveFromQueue(p, pk.id);
        DeliverPacket(pk, p);
      } else if !direct {
        RemoveFromQueue(p, pk.id);
        FindRelayPath(pk, p);
      }
    }

    method ForwardQueue(p: PeerId)
      requires Valid() && p in peers
      modifies this
      ensures Valid() && View() == RelayTurn(old(View()), p) && peers.Keys == old(peers.Keys)
    {
      hide MeshOk, Frame, ForwardAll, ForwardOne;
      if !peers[p].online {
        return;
      }
      var pks := peers[p].relayQueue;
      ghost var st := View();
      for i := 0 to |pks|
        invariant Ok(st) && View() == st && st.peers.Keys == old(peers.Keys)
        invariant ForwardAll(st, pks[i..], p) == ForwardAll(old(View()), pks, p)
      {
        ForwardAllStep(st, pks, i, p);
        ForwardPacket(pks[i], p);
        st := View();
      }
      ForwardAllStep(st, pks, |pks|, p);
    }

    method ProcessRelayQueues()
      requires Valid()
      modifies this
      ensures Valid() && View() == RelayQueues(old(View()), Sorted(old(peers.Keys))) && peers.Keys == old(peers.Keys)
    {
      hide MeshOk, Frame, RelayQueues, RelayTurn, Sorted;
      var ids := Sorted(peers.Keys);
      ghost var st := View();
      for i := 0 to |ids|
        invariant Ok(st) && View() == st && st.peers.Keys == old(peers.Keys)
        invariant RelayQueues(st, ids[i..]) == RelayQueues(old(View()), ids)
      {
        RelayQueuesStep(st, ids, i);
        ForwardQueue(ids[i]);
        st := View();
      }
      RelayQueuesStep(st, ids, |ids|);
    }

    // -------------------------------------------------------------------
    // Back-propagation
    // -------------------------------------------------------------------

    /** One entry: is it late, is it complete, or else does it move on? */
    method ScanOne(i: nat) returns (late: bool, done: bool, hop: Option<NetworkEvent>)
      requires i < |backprops|
      modifies this`backprops
      ensures var st, b := old(View()), old(backprops)[i];
              && late == TimedOut(st, b) && done == Completed(st, b)
              && hop == (if CanAdvance(st, b) then Some(Hop(st, b)) else None)
              && backprops == old(backprops)[i := Advance(st, b)]
    {
      var b := backprops[i];
      late, done, hop := false, false, None;
      if config.backpropTimeout.Some? && tick - b.deliveredTick > config.backpropTimeout.value {
        late := true;
      } else if b.index >= |b.path| - 1 {
        done := true;
      } else {
        var current, next := b.path[|b.path| - 1 - b.index], b.path[|b.path| - 2 - b.index];
        if IsOnline(current) && IsOnline(next) {
          hop := Some(BackProp(b.packetId, current, current, next, tick));
          backprops := backprops[i := b.(index := b.index + 1)];
        }
      }
    }

    /** The first loop: advances entries in place, records positions and the events to emit. */
    method ScanBackprops() returns (timedOut: seq<nat>, completed: seq<nat>, events: seq<NetworkEvent>)
      modifies this`backprops
      ensures backprops == AdvanceAll(old(View()), old(backprops))
      ensures timedOut == TimedOutAt(old(View()), old(backprops)) && completed == CompletedAt(old(View()), old(backprops))
      ensures events == HopEvents(old(View()), old(backprops))
    {
      hide TimedOut, Completed, CanAdvance, Advance, Hop;
      ghost var st := View();
      var bs := backprops;
      timedOut, completed, events := [], [], [];
      for i := 0 to |bs|
        invariant View() == st.(backprops := backprops) && |backprops| == |bs|
        invariant forall j :: 0 <= j < |bs| ==> backprops[j] == if j < i then Advance(st, bs[j]) else bs[j]
        invariant timedOut == TimedOutAt(st, bs[..i]) && completed == CompletedAt(st, bs[..i])
        invariant events == HopEvents(st, bs[..i])
      {
        hide TimedOutAt, CompletedAt, HopEvents;
        ScanStep(st, bs, i);
        SameClock(st, View(), bs[i]);
        var late, done, hop := ScanOne(i);
        if late {
          timedOut := timedOut + [i];
        }
        if done {
          completed := completed + [i];
        }
        if hop.Some? {
          events := events + [hop.value];
        }
      }
      assert bs[..|bs|] == bs;
    }

    method DropTimedOut(at: seq<nat>) returns (panicked: bool)
      requires Valid()
      modifies this
      ensures panicked <==> SimSpec.DropTimedOut(old(View()), at).None?
      ensures !panicked ==> Valid() && View() == SimSpec.DropTimedOut(old(View()), at).value && peers.Keys == old(peers.Keys)
    {
      hide MeshOk, Frame, SimSpec.DropTimedOut;
      var i := |at|;
      assert at[..i] == at;
      ghost var st := View();
      while i > 0
        invariant 0 <= i <= |at| && Ok(st) && View() == st && peers == old(peers)
        invariant SimSpec.DropTimedOut(st, at[..i]) == SimSpec.DropTimedOut(old(View()), at)
      {
        i := i - 1;
        DropTimedOutStep(st, at, i);
        if at[i] >= |backprops| {
          return true;
        }
        backprops := RemoveAt(backprops, at[i]);
        stats := stats.(backpropsTimedOut := stats.backpropsTimedOut + 1);
        st := View();
      }
      DropTimedOutEnd(st, at);
      return false;
    }

    method CleanUpQueues(relays: seq<PeerId>, id: PacketId)
      requires Valid()
      modifies this`peers
      ensures Valid() && View() == CleanQueues(old(View()), relays, id) && peers.Keys == old(peers.Keys)
    {
      hide MeshOk, Frame, CleanQueues, RemoveQueued;
      ghost var st := View();
      for i := 0 to |relays|
        invariant Ok(st) && View() == st && st.peers.Keys == old(peers.Keys)
        invariant CleanQueues(st, relays[i..], id) == CleanQueues(old(View()), relays, id)
      {
        CleanQueuesStep(st, relays, i, id);
        if relays[i] in peers {
          RemoveFromQueue(relays[i], id);
        }
        st := View();
      }
      CleanQueuesStep(st, relays, |relays|, id);
    }

    method FinishBackProp(b: BackPropState)
      requires Valid()
      modifies this
      ensures Valid() && View() == SimSpec.FinishBackProp(old(View()), b) && peers.Keys == old(peers.Keys)
    {
      hide MeshOk, Frame, CleanQueues;
      var latency := if tick >= b.deliveredTick then tick - b.deliveredTick else 0;
      stats := stats.(totalBackpropLatency := stats.totalBackpropLatency + latency);
      stats := stats.(backpropsCompleted := stats.backpropsCompleted + 1);
      if |b.path| > 2 {
        CleanUpQueues(b.path[1..|b.path|-1], b.packetId);
      }
    }

    method RemoveCompleted(at: seq<nat>) returns (panicked: bool)
      requires Valid()
      modifies this
      ensures panicked <==> SimSpec.RemoveCompleted(old(View()), at).None?
      ensures !panicked ==> Valid() && View() == SimSpec.RemoveCompleted(old(View()), at).value && peers.Keys == old(peers.Keys)
    {
      hide MeshOk, Frame, SimSpec.RemoveCompleted, SimSpec.FinishBackProp;
      var i := |at|;
      assert at[..i] == at;
      ghost var st := View();
      while i > 0
        invariant 0 <= i <= |at| && Ok(st) && View() == st && st.peers.Keys == old(peers.Keys)
        invariant SimSpec.RemoveCompleted(st, at[..i]) == SimSpec.RemoveCompleted(old(View()), at)
      {
        i := i - 1;
        RemoveCompletedStep(st, at, i);
        if at[i] >= |backprops| {
          return true;
        }
        var b := backprops[at[i]];
        backprops := RemoveAt(backprops, at[i]);
        FinishBackProp(b);
        st := View();
      }
      RemoveCompletedEnd(st, at);
      return false;
    }

    /** Positions are recorded first and used after removals: `panicked` when one is out of range by then. */
    method ProcessBackprops() returns (panicked: bool)
      requires Valid()
      modifies this
      ensures panicked <==> SimSpec.ProcessBackprops(old(View())).None?
      ensures !panicked ==> Valid() && View() == SimSpec.ProcessBackprops(old(View())).value && peers.Keys == old(peers.Keys)
    {
      hide MeshOk, Frame, SimSpec.DropTimedOut, SimSpec.RemoveCompleted, TimedOutAt, CompletedAt, HopEvents, AdvanceAll;
      var timedOut, completed, events := ScanBackprops();
      eventLog := eventLog + events;
      panicked := DropTimedOut(timedOut);
      if panicked {
        return;
      }
      panicked := RemoveCompleted(completed);
    }

    // -------------------------------------------------------------------
    // Whole ticks
    // -------------------------------------------------------------------

    method AgePeer(p: PeerId)
      requires Valid() && p in peers
      modifies this`peers
      ensures Valid() && View() == Aged(old(View()), p) && peers.Keys == old(peers.Keys)
    {
      hide MeshOk, Frame, Prophet.Age;
      peers := peers[p := peers[p].(prophet := Prophet.Age(Prophet.DEFAULT, peers[p].prophet))];
      assert View() == Aged(old(View()), p);
    }

    method ProcessProphetAging()
      requires Valid()
      modifies this
      ensures Valid() && View() == ProcessAging(old(View())) && peers.Keys == old(peers.Keys)
    {
      hide MeshOk, Frame, AgePeers, Aged, Sorted;
      var ids := Sorted(peers.Keys);
      ghost var st := View();
      for i := 0 to |ids|
        invariant Ok(st) && View() == st && st.peers.Keys == old(peers.Keys)
        invariant AgePeers(st, ids[i..]) == AgePeers(old(View()), ids)
      {
        AgePeersStep(st, ids, i);
        AgePeer(ids[i]);
        st := View();
      }
      AgePeersStep(st, ids, |ids|);
      stats := stats.(prophetAgingCycles := stats.prophetAgingCycles + 1);
    }

    /** One tick. It panics exactly when the transition rules say so; otherwise the new state is theirs, and the
        invariant of every run is kept. */
    method Step(flips: set<PeerId>) returns (panicked: bool)
      requires Valid()
      modifies this
      ensures panicked <==> SimSpec.Step(old(View()), flips).None?
      ensures !panicked ==> Valid() && View() == SimSpec.Step(old(View()), flips).value
      ensures !panicked && old(Inv(View(), [], DONE)) ==> Inv(View(), [], DONE)
    {
      hide MeshOk, Frame, Transitions, AwakeSignals, ProcessSends, RelayQueues, SimSpec.ProcessBackprops, ProcessAging, Sorted, Inv;
      ghost var st := View();
      tick := tick + 1;
      ProcessStateTransitions(flips);
      ProcessAwakeSignals();
      ProcessPendingSends();
      ProcessRelayQueues();
      assert View() == Routed(st, flips);
      panicked := ProcessBackprops();
      if panicked {
        return;
      }
      if config.agingInterval == 0 {
        return true;
      }
      if tick % config.agingInterval == 0 {
        ProcessProphetAging();
      }
      assert View() == SimSpec.Step(st, flips).value;
      if Inv(st, [], DONE) { StepKeepsInv(st, flips); }
    }

    /** run_ticks: `draws` holds the transition draws of each tick. */
    method RunTicks(draws: seq<set<PeerId>>) returns (panicked: bool)
      requires Valid()
      modifies this
      ensures panicked <==> Run(old(View()), Ticks(draws)).None?
      ensures !panicked ==> Valid() && View() == Run(old(View()), Ticks(draws)).value
    {
      hide MeshOk, SimSpec.Step, Run, Inv;
      RunStart(View());
      for i := 0 to |draws|
        invariant Valid() && Run(old(View()), Ticks(draws[..i])) == Some(View())
      {
        RunTick(old(View()), draws, i);
        panicked := Step(draws[i]);
        if panicked {
          RunStops(old(View()), draws, i + 1);
          return;
        }
      }
      assert draws[..|draws|] == draws;
      return false;
    }
  }
}
