/** Every phase of a tick keeps the invariant, and hands packets over instead of losing them. */
module SimPhases {
  import opened Common
  import opened SimTypes
  import opened SimSpec
  import opened SimInvariant
  import opened SimMoves
  import Prophet

  /** A packet that waits next to its destination stays where it is or reaches the inbox, and inboxes only grow. */
  ghost predicate Settles(st: State, r: State) {
    && r.peers.Keys == st.peers.Keys && r.adjacency == st.adjacency
    && (forall p, q :: p in st.peers && q in st.peers[p].relayQueue && Connected(st, p, q.destination) ==>
          q in r.peers[p].relayQueue || (q.destination in r.peers && q in r.peers[q.destination].inbox))
    && (forall p, q :: p in st.peers && q in st.peers[p].inbox ==> q in r.peers[p].inbox)
  }

  lemma SettlesChain(a: State, b: State, c: State)
    requires Settles(a, b) && Settles(b, c)
    ensures Settles(a, c)
  {
  }

  /** Packets of one peer's queue other than `taken` are still queued there. */
  ghost predicate KeepsOthers(st: State, r: State, p: PeerId, taken: SealedPacket) {
    p in st.peers && p in r.peers && forall q :: q in st.peers[p].relayQueue && q.id != taken.id ==> q in r.peers[p].relayQueue
  }

  /** The queued packets of one peer have pairwise different ids. */
  ghost predicate DistinctIds(q: seq<SealedPacket>) {
    forall i, j :: 0 <= i < j < |q| ==> q[i].id != q[j].id
  }

  lemma {:induction false} OnceEach(q: seq<SealedPacket>)
    requires forall id :: Ids(q)[id] <= 1
    ensures DistinctIds(q)
  {
    if q != [] {
      var front, last := q[..|q|-1], q[|q|-1];
      forall id ensures Ids(front)[id] <= 1 { assert Ids(q)[id] == Ids(front)[id] + multiset{last.id}[id]; }
      OnceEach(front);
      forall i | 0 <= i < |front| ensures front[i].id != last.id {
        IdsHas(front, front[i]);
        assert Ids(q)[last.id] == Ids(front)[last.id] + 1;
      }
    }
  }

  lemma QueueIdsDiffer(peers: Peers, p: PeerId)
    requires SingleCopy(peers, []) && p in peers
    ensures DistinctIds(peers[p].relayQueue)
  {
    hide Total;
    forall id ensures Ids(peers[p].relayQueue)[id] <= 1 { AtMostAsMany(peers, p, id); }
    OnceEach(peers[p].relayQueue);
  }

  // ---------------------------------------------------------------------
  // Finding a relay
  // ---------------------------------------------------------------------

  lemma SelectionKeepsInv(st: State, used: bool, hand: seq<SealedPacket>, dr: Draining)
    requires Inv(st, hand, dr)
    ensures Inv(st.(stats := CountSelection(st.stats, used)), hand, dr)
  {
    hide Total, SingleCopy, PeersOk, RelaysOk, LogOk, BackpropsOk, MeshOk, Requests, PacketOk, RelayCount,
         DeliveredCount, DroppedCount, DeliveriesIn, EventsOf, DirectOnes, HopsOf, LatencyOf, Messages, Ids, InNetwork;
  }

  /** With no hops left, an unvisited candidate means at least twelve peers. */
  lemma ExhaustedMeansTwelve(st: State, pk: SealedPacket, relay: PeerId)
    requires Ok(st) && PacketOk(st.peers.Keys, st.tick, pk) && pk.ttl == 0 && relay in st.peers && relay !in pk.visited
    ensures |st.adjacency| >= INITIAL_TTL + 2
  {
    FitsIn(pk.visited + {relay}, st.peers.Keys);
    assert |st.adjacency| == |st.adjacency.Keys|;
  }

  lemma FindRelayKeepsInv(st: State, pk: SealedPacket, current: PeerId, dr: Draining)
    requires Inv(st, [pk], dr) && Online(st, current) && current in pk.visited && !Connected(st, current, pk.destination)
    ensures Inv(FindRelayPath(st, pk, current), [], dr)
  {
    hide Inv, PacketOk, Candidates, ProphetChoice, SelectRelay, CountSelection, Sorted;
    assert Ok(st) && PacketOk(st.peers.Keys, st.tick, pk) by { HandInInv(st, pk, dr); }
    var c := Candidates(st, pk, Sorted(Neighbors(st, current)));
    var used := ProphetChoice(st, pk, current, c).Some?;
    var counted := st.(stats := CountSelection(st.stats, used));
    SelectionKeepsInv(st, used, [pk], dr);
    match SelectRelay(st, pk, current, c) {
      case None =>
        EnqueueKeepsInv(counted, current, pk, dr);
      case Some(relay) =>
        assert relay in Neighbors(st, current) && relay != pk.destination;
        if pk.ttl == 0 {
          ExhaustedMeansTwelve(st, pk, relay);
          DropKeepsInv(counted, pk, dr);
        } else {
          RelayKeepsInv(counted, pk, current, relay, dr);
        }
    }
  }

  lemma HandInInv(st: State, pk: SealedPacket, dr: Draining)
    requires Inv(st, [pk], dr)
    ensures Ok(st) && PacketOk(st.peers.Keys, st.tick, pk)
  {
    assert pk in [pk];
  }

  /** Queues and inboxes only gain packets. */
  ghost predicate Gains(st: State, r: State) {
    && r.peers.Keys == st.peers.Keys
    && forall p :: p in st.peers ==> st.peers[p].relayQueue <= r.peers[p].relayQueue && st.peers[p].inbox <= r.peers[p].inbox
  }

  lemma FindRelayGains(st: State, pk: SealedPacket, current: PeerId)
    requires Ok(st) && current in st.peers
    ensures Gains(st, FindRelayPath(st, pk, current))
  {
    hide Candidates, ProphetChoice, SelectRelay, CountSelection, Sorted, MeshOk, Enqueue, RelayTo;
    var c := Candidates(st, pk, Sorted(Neighbors(st, current)));
    var counted := st.(stats := CountSelection(st.stats, ProphetChoice(st, pk, current, c).Some?));
    EnqueueGains(counted, current, pk);
    var relay := SelectRelay(st, pk, current, c);
    if relay.Some? && pk.ttl > 0 {
      RelayGains(counted, pk, current, relay.value);
    }
  }

  lemma EnqueueGains(st: State, p: PeerId, pk: SealedPacket)
    requires Ok(st) && p in st.peers
    ensures Gains(st, Enqueue(st, p, pk))
  {
    hide MeshOk;
  }

  lemma RelayGains(st: State, pk: SealedPacket, current: PeerId, relay: PeerId)
    requires Ok(st) && current in st.peers && relay in st.peers && pk.ttl > 0
    ensures Gains(st, RelayTo(st, pk, current, relay))
  {
    hide MeshOk, Enqueue, Prophet.Encounter;
    var met := Emit(SetPeer(st, current, Meet(st.peers[current], relay)), Relay(current, relay, pk.destination, pk.id, st.tick));
    TableGains(st, current, Meet(st.peers[current], relay));
    EnqueueGains(met, relay, pk.(ttl := pk.ttl - 1, visited := pk.visited + {relay}));
    GainsChain(st, met, RelayTo(st, pk, current, relay));
  }

  lemma TableGains(st: State, p: PeerId, ps: PeerState)
    requires p in st.peers && ps.relayQueue == st.peers[p].relayQueue && ps.inbox == st.peers[p].inbox
    ensures Gains(st, st.(peers := st.peers[p := ps]))
  {
  }

  lemma GainsChain(a: State, b: State, c: State)
    requires Gains(a, b) && Gains(b, c)
    ensures Gains(a, c)
  {
  }

  lemma DeliverGains(st: State, pk: SealedPacket, via: PeerId)
    requires Ok(st) && via in st.peers && pk.destination in st.peers
    ensures Gains(st, DeliverPacket(st, pk, via))
    ensures var r := DeliverPacket(st, pk, via);
            && pk in r.peers[pk.destination].inbox
            && forall p :: p in st.peers ==> r.peers[p].relayQueue == st.peers[p].relayQueue
  {
    hide CountDelivery, StartBackProp, MeshOk, Frame, Prophet.Encounter;
    var met := SetPeer(st, via, Meet(st.peers[via], pk.destination));
    TableGains(st, via, Meet(st.peers[via], pk.destination));
    FileGains(met, pk);
  }

  lemma FileGains(st: State, pk: SealedPacket)
    requires pk.destination in st.peers
    ensures var r := st.(peers := st.peers[pk.destination := FileInInbox(st.peers[pk.destination], pk)]);
            && Gains(st, r) && pk in r.peers[pk.destination].inbox
            && forall p :: p in st.peers ==> r.peers[p].relayQueue == st.peers[p].relayQueue
  {
  }

  lemma GainsSettles(st: State, r: State)
    requires Gains(st, r) && r.adjacency == st.adjacency
    ensures Settles(st, r)
  {
    forall p, q | p in st.peers && q in st.peers[p].relayQueue ensures q in r.peers[p].relayQueue {
      InPrefix(st.peers[p].relayQueue, r.peers[p].relayQueue, q);
    }
    forall p, q | p in st.peers && q in st.peers[p].inbox ensures q in r.peers[p].inbox {
      InPrefix(st.peers[p].inbox, r.peers[p].inbox, q);
    }
  }

  lemma InPrefix<T>(a: seq<T>, b: seq<T>, x: T)
    requires a <= b && x in a
    ensures x in b
  {
    var i :| 0 <= i < |a| && a[i] == x;
    assert b[i] == x;
  }

  // ---------------------------------------------------------------------
  // Taking a packet and moving it on
  // ---------------------------------------------------------------------

  /** Delivering a queued packet to its neighbouring, online destination. */
  lemma HandOver(st: State, pk: SealedPacket, from: PeerId, dr: Draining)
    requires Inv(st, [], dr) && from in st.peers && pk in st.peers[from].relayQueue
    requires Connected(st, from, pk.destination) && Online(st, pk.destination)
    ensures var r := DeliverPacket(RemoveQueued(st, from, pk.id), pk, from);
            Inv(r, [], dr) && Settles(st, r) && KeepsOthers(st, r, from, pk) && pk in r.peers[pk.destination].inbox
  {
    hide Inv, Settles, DeliverPacket;
    assert Ok(st) && from in pk.visited && SingleCopy(st.peers, []) by { QueuedInInv(st, from, pk, dr); }
    var taken := RemoveQueued(st, from, pk.id);
    TakeKeepsInv(st, from, pk, dr);
    DeliverKeepsInv(taken, pk, from, dr);
    DeliverGains(taken, pk, from);
    HandOverSettles(st, pk, from);
  }

  lemma QueuedInInv(st: State, p: PeerId, pk: SealedPacket, dr: Draining)
    requires Inv(st, [], dr) && p in st.peers && pk in st.peers[p].relayQueue
    ensures Ok(st) && p in pk.visited && SingleCopy(st.peers, [])
  {
  }

  lemma HandOverSettles(st: State, pk: SealedPacket, from: PeerId)
    requires Ok(st) && from in st.peers && pk in st.peers[from].relayQueue && SingleCopy(st.peers, []) && pk.destination in st.peers
    ensures var r := DeliverPacket(RemoveQueued(st, from, pk.id), pk, from);
            Settles(st, r) && KeepsOthers(st, r, from, pk)
  {
    hide Total, DeliverPacket, SingleCopy, MeshOk, Retain;
    var taken := RemoveQueued(st, from, pk.id);
    var r := DeliverPacket(taken, pk, from);
    DeliverGains(taken, pk, from);
    QueueIdsDiffer(st.peers, from);
    RetainMembers(st.peers[from].relayQueue, pk.id);
    GainsSettles(taken, r);
    SameIdSamePacket(st.peers[from].relayQueue, pk);
  }

  lemma SameIdSamePacket(q: seq<SealedPacket>, pk: SealedPacket)
    requires DistinctIds(q) && pk in q
    ensures forall x :: x in q && x.id == pk.id ==> x == pk
  {
  }

  lemma PassOn(st: State, pk: SealedPacket, p: PeerId, dr: Draining)
    requires Inv(st, [], dr) && Online(st, p) && pk in st.peers[p].relayQueue && !Connected(st, p, pk.destination)
    ensures var r := FindRelayPath(RemoveQueued(st, p, pk.id), pk, p);
            Inv(r, [], dr) && Settles(st, r) && KeepsOthers(st, r, p, pk)
  {
    hide Inv, Settles, FindRelayPath;
    assert Ok(st) && p in pk.visited && SingleCopy(st.peers, []) by { QueuedInInv(st, p, pk, dr); }
    TakeKeepsInv(st, p, pk, dr);
    FindRelayKeepsInv(RemoveQueued(st, p, pk.id), pk, p, dr);
    PassOnSettles(st, pk, p);
  }

  lemma PassOnSettles(st: State, pk: SealedPacket, p: PeerId)
    requires Ok(st) && p in st.peers && pk in st.peers[p].relayQueue && SingleCopy(st.peers, []) && !Connected(st, p, pk.destination)
    ensures var r := FindRelayPath(RemoveQueued(st, p, pk.id), pk, p);
            Settles(st, r) && KeepsOthers(st, r, p, pk)
  {
    hide Total, FindRelayPath, SingleCopy, MeshOk, Retain;
    var taken := RemoveQueued(st, p, pk.id);
    FindRelayGains(taken, pk, p);
    QueueIdsDiffer(st.peers, p);
    RetainMembers(st.peers[p].relayQueue, pk.id);
    GainsSettles(taken, FindRelayPath(taken, pk, p));
    SameIdSamePacket(st.peers[p].relayQueue, pk);
  }

  // ---------------------------------------------------------------------
  // Awake signals
  // ---------------------------------------------------------------------

  lemma SettlesSame(st: State)
    ensures Settles(st, st)
  {
  }

  lemma {:induction false} DeliverAllKeepsInv(st: State, pks: seq<SealedPacket>, from: PeerId, dr: Draining)
    requires Inv(st, [], dr) && from in st.peers && DistinctIds(pks)
    requires forall pk :: pk in pks ==> pk.destination in st.peers
    requires forall pk :: pk in pks ==> pk in st.peers[from].relayQueue && Connected(st, from, pk.destination) && Online(st, pk.destination)
    ensures Inv(DeliverAll(st, pks, from), [], dr) && Settles(st, DeliverAll(st, pks, from))
    decreases |pks|
  {
    hide Inv, Settles, DeliverPacket, RemoveQueued, MeshOk;
    assert Ok(st) by { UnfoldInv(st, [], dr); }
    if pks == [] {
      SettlesSame(st);
    } else {
      var s := DeliverPacket(RemoveQueued(st, from, pks[0].id), pks[0], from);
      HandOver(st, pks[0], from, dr);
      forall pk | pk in pks[1..] ensures pk in s.peers[from].relayQueue { }
      DeliverAllKeepsInv(s, pks[1..], from, dr);
      SettlesChain(st, s, DeliverAll(st, pks, from));
    }
  }

  lemma {:induction false} AddressedDistinct(q: seq<SealedPacket>, to: PeerId)
    requires DistinctIds(q)
    ensures DistinctIds(AddressedTo(q, to))
  {
    if q != [] {
      AddressedDistinct(q[..|q|-1], to);
      var front := AddressedTo(q[..|q|-1], to);
      forall i | 0 <= i < |front| ensures front[i].id != q[|q|-1].id { assert front[i] in front; }
    }
  }

  lemma DeliverPendingKeepsInv(st: State, from: PeerId, to: PeerId, dr: Draining)
    requires Inv(st, [], dr) && from in st.peers && Connected(st, from, to) && Online(st, to)
    ensures Inv(DeliverPending(st, from, to), [], dr) && Settles(st, DeliverPending(st, from, to))
  {
    hide Inv, Settles, DeliverAll, MeshOk;
    assert Ok(st) && SingleCopy(st.peers, []) by { InvParts(st, dr); }
    QueueIdsDiffer(st.peers, from);
    AddressedDistinct(st.peers[from].relayQueue, to);
    DeliverAllKeepsInv(st, AddressedTo(st.peers[from].relayQueue, to), from, dr);
  }

  lemma InvParts(st: State, dr: Draining)
    requires Inv(st, [], dr)
    ensures Ok(st) && SingleCopy(st.peers, [])
  {
  }

  lemma {:induction false} AwakeNeighborsKeepsInv(st: State, neighbors: seq<PeerId>, p: PeerId, dr: Draining)
    requires Inv(st, [], dr) && Online(st, p) && forall n :: n in neighbors ==> n in st.peers && Connected(st, n, p)
    ensures Inv(AwakeNeighbors(st, neighbors, p), [], dr) && Settles(st, AwakeNeighbors(st, neighbors, p))
    decreases |neighbors|
  {
    hide Inv, Settles, DeliverPending, MeshOk;
    assert Ok(st) by { UnfoldInv(st, [], dr); }
    if neighbors == [] {
      SettlesSame(st);
    } else {
      var s := DeliverPending(st, neighbors[0], p);
      DeliverPendingKeepsInv(st, neighbors[0], p, dr);
      forall n | n in neighbors[1..] ensures n in s.peers && Connected(s, n, p) { assert n in neighbors; }
      AwakeNeighborsKeepsInv(s, neighbors[1..], p, dr);
      SettlesChain(st, s, AwakeNeighbors(st, neighbors, p));
    }
  }

  lemma ConnectionsAreMutual(st: State, p: PeerId)
    requires Ok(st) && p in st.peers
    ensures forall n :: n in Sorted(st.peers[p].connections) ==> n in st.peers && Connected(st, n, p)
  {
    hide Sorted;
    forall n | n in Sorted(st.peers[p].connections) ensures n in st.peers && Connected(st, n, p) {
      assert n in st.adjacency[p];
    }
  }

  lemma {:induction false} AwakeSignalsKeepsInv(st: State, ids: seq<PeerId>, dr: Draining)
    requires Inv(st, [], dr) && forall p :: p in ids ==> p in st.peers
    ensures Inv(AwakeSignals(st, ids), [], dr) && Settles(st, AwakeSignals(st, ids))
    decreases |ids|
  {
    hide Inv, Settles, AwakeNeighbors, MeshOk, Sorted;
    assert Ok(st) by { UnfoldInv(st, [], dr); }
    if ids == [] {
      SettlesSame(st);
    } else {
      var p := ids[0];
      var s := st;
      SettlesSame(st);
      if JustWoke(st, p) {
        ConnectionsAreMutual(st, p);
        s := AwakeNeighbors(st, Sorted(st.peers[p].connections), p);
        AwakeNeighborsKeepsInv(st, Sorted(st.peers[p].connections), p, dr);
      }
      AwakeSignalsKeepsInv(s, ids[1..], dr);
      SettlesChain(st, s, AwakeSignals(st, ids));
    }
  }

  // ---------------------------------------------------------------------
  // Pending sends
  // ---------------------------------------------------------------------

  lemma MintFacts(st: State, m: Message)
    requires Ok(st) && m.from in st.peers
    ensures var r := Mint(st, m); Gains(st, r.0) && r.1 == Minted(st, m) && m.from in r.1.visited && r.1.destination == m.to
  {
    hide MeshOk;
  }

  lemma RouteKeepsInv(st: State, s: PendingSend, dr: Draining)
    requires Inv(st, [], Next(s, dr)) && !dr.late && !HasExpired(st, s)
    ensures Inv(RouteMessage(st, s), [], dr)
  {
    hide Inv, Mint, DeliverPacket, Enqueue, FindRelayPath, DropSend, MeshOk, Minted;
    assert Ok(st) by { UnfoldInv(st, [], Next(s, dr)); }
    var m := s.message;
    if !Online(st, m.from) {
      if st.config.maxSenderRetries.Some? && s.retryCount >= st.config.maxSenderRetries.value {
        DropSendKeepsInv(st, s, SenderOffline, dr);
      } else {
        RetryKeepsInv(st, s, dr);
      }
    } else {
      var (minted, pk) := Mint(st, m);
      MintFacts(st, m);
      MintKeepsInv(st, s, dr);
      if Connected(minted, m.from, m.to) && Online(minted, m.to) {
        DeliverKeepsInv(minted, pk, m.from, dr);
      } else if Connected(minted, m.from, m.to) {
        EnqueueKeepsInv(minted, m.from, pk, dr);
      } else {
        FindRelayKeepsInv(minted, pk, m.from, dr);
      }
    }
  }

  lemma RouteGains(st: State, s: PendingSend)
    requires Ok(st)
    ensures Gains(st, RouteMessage(st, s))
  {
    hide Mint, DeliverPacket, Enqueue, FindRelayPath, MeshOk, Minted;
    var m := s.message;
    if Online(st, m.from) {
      var (minted, pk) := Mint(st, m);
      MintFacts(st, m);
      if Connected(minted, m.from, m.to) && Online(minted, m.to) {
        DeliverGains(minted, pk, m.from);
      } else if Connected(minted, m.from, m.to) {
        EnqueueGains(minted, m.from, pk);
      } else {
        FindRelayGains(minted, pk, m.from);
      }
      GainsChain(st, minted, RouteMessage(st, s));
    }
  }

  lemma ProcessSendKeepsInv(st: State, s: PendingSend, dr: Draining)
    requires Inv(st, [], Next(s, dr)) && !dr.late
    ensures Inv(ProcessSend(st, s), [], dr) && Settles(st, ProcessSend(st, s))
  {
    hide Inv, RouteMessage, DropSend, MeshOk, Settles;
    assert Ok(st) by { UnfoldInv(st, [], Next(s, dr)); }
    if HasExpired(st, s) {
      DropSendKeepsInv(st, s, Expired, dr);
      DropSettles(st, s.message, Expired);
    } else {
      var told := Emit(st, Send(s.message, st.tick));
      AnnounceKeepsInv(st, s.message, [], Next(s, dr));
      RouteKeepsInv(told, s, dr);
      RouteGains(told, s);
      GainsSettles(told, RouteMessage(told, s));
      AnnounceSettles(st, told, RouteMessage(told, s));
    }
  }

  lemma DropSettles(st: State, m: Message, reason: DropReason)
    ensures Settles(st, DropSend(st, m, reason))
  {
  }

  lemma AnnounceSettles(st: State, told: State, r: State)
    requires told.peers == st.peers && told.adjacency == st.adjacency && Settles(told, r)
    ensures Settles(st, r)
  {
  }

  lemma {:induction false} ProcessSendsKeepsInv(st: State, sends: seq<PendingSend>)
    requires Inv(st, [], Draining(sends, false))
    ensures Inv(ProcessSends(st, sends), [], DONE) && Settles(st, ProcessSends(st, sends))
    decreases |sends|
  {
    hide Inv, ProcessSend, MeshOk, Settles;
    assert Ok(st) by { UnfoldInv(st, [], Draining(sends, false)); }
    if sends == [] {
      SettlesSame(st);
    } else {
      var rest := Draining(sends[1..], false);
      assert Draining(sends, false) == Next(sends[0], rest);
      ProcessSendKeepsInv(st, sends[0], rest);
      ProcessSendsKeepsInv(ProcessSend(st, sends[0]), sends[1..]);
      SettlesChain(st, ProcessSend(st, sends[0]), ProcessSends(st, sends));
    }
  }

  // ---------------------------------------------------------------------
  // Relay queues
  // ---------------------------------------------------------------------

  /** The packet waits at an online peer next to its online destination. */
  ghost predicate Deliverable(st: State, p: PeerId, pk: SealedPacket) {
    Online(st, p) && pk in st.peers[p].relayQueue && Connected(st, p, pk.destination) && Online(st, pk.destination)
  }

  ghost predicate Arrived(st: State, pk: SealedPacket) {
    pk.destination in st.peers && pk in st.peers[pk.destination].inbox
  }

  lemma StaysArrived(st: State, r: State, pk: SealedPacket)
    requires Settles(st, r) && Arrived(st, pk)
    ensures Arrived(r, pk)
  {
  }

  lemma ForwardOneKeepsInv(st: State, pk: SealedPacket, p: PeerId)
    requires Inv(st, [], DONE) && Online(st, p) && pk in st.peers[p].relayQueue
    ensures var r := ForwardOne(st, pk, p);
            && Inv(r, [], DONE) && Settles(st, r) && KeepsOthers(st, r, p, pk)
            && (Deliverable(st, p, pk) ==> Arrived(r, pk))
  {
    hide Inv, Settles, DeliverPacket, FindRelayPath, RemoveQueued, MeshOk;
    assert Ok(st) by { UnfoldInv(st, [], DONE); }
    if Connected(st, p, pk.destination) {
      if Online(st, pk.destination) {
        HandOver(st, pk, p, DONE);
      } else {
        SettlesSame(st);
      }
    } else {
      PassOn(st, pk, p, DONE);
    }
  }

  lemma StillDeliverable(st: State, s: State, p: PeerId, pk: SealedPacket)
    requires Deliverable(st, p, pk) && Frame(st, s) && pk in s.peers[p].relayQueue
    ensures Deliverable(s, p, pk)
  {
  }

  lemma {:induction false} ForwardAllKeepsInv(st: State, pks: seq<SealedPacket>, p: PeerId)
    requires Inv(st, [], DONE) && Online(st, p) && DistinctIds(pks) && forall pk :: pk in pks ==> pk in st.peers[p].relayQueue
    ensures var r := ForwardAll(st, pks, p);
            && Inv(r, [], DONE) && Settles(st, r)
            && forall pk :: pk in pks && Deliverable(st, p, pk) ==> Arrived(r, pk)
    decreases |pks|
  {
    hide Inv, Settles, ForwardOne, MeshOk, Deliverable, Arrived;
    assert Ok(st) by { UnfoldInv(st, [], DONE); }
    if pks == [] {
      SettlesSame(st);
    } else {
      var s := ForwardOne(st, pks[0], p);
      ForwardOneKeepsInv(st, pks[0], p);
      forall pk | pk in pks[1..] ensures pk in s.peers[p].relayQueue { }
      ForwardAllKeepsInv(s, pks[1..], p);
      var r := ForwardAll(st, pks, p);
      SettlesChain(st, s, r);
      forall pk | pk in pks && Deliverable(st, p, pk) ensures Arrived(r, pk) {
        if pk == pks[0] {
          StaysArrived(s, r, pk);
        } else {
          assert pk in pks[1..];
          StillDeliverable(st, s, p, pk);
        }
      }
    }
  }

  /** After the relay phase every packet that was deliverable when it began has arrived. */
  lemma {:induction false} RelayQueuesKeepsInv(st: State, ids: seq<PeerId>)
    requires Inv(st, [], DONE) && forall p :: p in ids ==> p in st.peers
    ensures var r := RelayQueues(st, ids);
            && Inv(r, [], DONE) && Settles(st, r)
            && forall p, pk :: p in ids && Deliverable(st, p, pk) ==> Arrived(r, pk)
    decreases |ids|
  {
    hide Inv, Settles, ForwardAll, MeshOk, Deliverable, Arrived;
    assert Ok(st) && SingleCopy(st.peers, []) by { InvParts(st, DONE); }
    if ids == [] {
      SettlesSame(st);
    } else {
      var p := ids[0];
      var s := st;
      SettlesSame(st);
      if st.peers[p].online {
        QueueIdsDiffer(st.peers, p);
        s := ForwardAll(st, st.peers[p].relayQueue, p);
        ForwardAllKeepsInv(st, st.peers[p].relayQueue, p);
      }
      RelayQueuesKeepsInv(s, ids[1..]);
      var r := RelayQueues(st, ids);
      SettlesChain(st, s, r);
      forall x, pk | x in ids && Deliverable(st, x, pk) ensures Arrived(r, pk) {
        if x == p {
          DeliverableIs(st, x, pk);
          StaysArrived(s, r, pk);
        } else {
          assert x in ids[1..];
          SettledOrWaiting(st, s, x, pk);
          if Arrived(s, pk) { StaysArrived(s, r, pk); }
        }
      }
    }
  }

  lemma DeliverableIs(st: State, p: PeerId, pk: SealedPacket)
    requires Deliverable(st, p, pk)
    ensures Online(st, p) && pk in st.peers[p].relayQueue
  {
  }

  lemma SettledOrWaiting(st: State, r: State, p: PeerId, pk: SealedPacket)
    requires Settles(st, r) && Frame(st, r) && Deliverable(st, p, pk)
    ensures Arrived(r, pk) || Deliverable(r, p, pk)
  {
  }
}
