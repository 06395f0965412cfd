/** The elementary moves of a packet or a pending send keep the invariant. */
module SimMoves {
  import opened Common
  import opened SimTypes
  import opened SimSpec
  import opened SimInvariant

  type Peers = map<PeerId, PeerState>
  type Adjacency = map<PeerId, set<PeerId>>
  type Log = seq<NetworkEvent>
  type Handings = seq<Handing>

  lemma OneInHand(pk: SealedPacket)
    ensures Messages([pk]) == multiset{pk.Content()} && Ids([pk]) == multiset{pk.id}
    ensures Messages([]) == multiset{} && Ids([]) == multiset{}
  {
    BagAppend([], pk);
    assert [] + [pk] == [pk];
  }

  // ---------------------------------------------------------------------
  // One peer changes, or one event is logged: clause by clause
  // ---------------------------------------------------------------------

  lemma PeersOkUpdate(peers: Peers, handed: Handings, tick: nat, p: PeerId, ps: PeerState)
    requires p in peers && PeersOk(peers, handed, tick)
    requires QueueOk(peers.Keys, tick, p, ps.relayQueue) && InboxOk(peers.Keys, handed, tick, p, ps.inbox)
    ensures PeersOk(peers[p := ps], handed, tick)
  {
    hide QueueOk, InboxOk;
    assert peers[p := ps].Keys == peers.Keys;
  }

  lemma RelaysOkUpdate(peers: Peers, log: Log, p: PeerId, ps: PeerState)
    requires p in peers && RelaysOk(peers, log) && ps.sequence >= peers[p].sequence
    requires Counted(log, ps.relayQueue) && Counted(log, ps.inbox)
    ensures RelaysOk(peers[p := ps], log)
  {
    hide Counted, RelayCount;
    var after := peers[p := ps];
    assert after.Keys == peers.Keys;
    assert |after| == |after.Keys| && |peers| == |peers.Keys|;
    forall id | !Issued(after, id) ensures !Issued(peers, id) { }
  }

  /** A silent event is neither a relay, a delivery nor a change of an online flag. */
  predicate Silent(e: NetworkEvent) { e.Send? || e.Dropped? || e.BackProp? }

  lemma RelaysOkEvent(peers: Peers, log: Log, e: NetworkEvent)
    requires RelaysOk(peers, log) && !e.Relay?
    ensures RelaysOk(peers, log + [e])
    ensures forall q :: Counted(log, q) ==> Counted(log + [e], q)
  {
    LogStep(map[], log, e);
  }

  /** What an event does to a peer's delivered list and online flag. */
  ghost predicate Reflects(was: PeerState, now: PeerState, p: PeerId, e: NetworkEvent) {
    && now.delivered == was.delivered + (if e.Delivered? && e.to == p then [e.packetId] else [])
    && IdList(now.inbox) == IdList(was.inbox) + (if e.Delivered? && e.to == p then [e.packetId] else [])
    && now.online == if e.Awake? && e.peer == p then true else if e.Sleep? && e.peer == p then false else was.online
  }

  lemma LogOkEvent(peers: Peers, after: Peers, adjacency: Adjacency, log: Log, e: NetworkEvent)
    requires LogOk(peers, adjacency, log) && EventSound(adjacency, log, e) && after.Keys == peers.Keys
    requires forall p :: p in peers ==> Reflects(peers[p], after[p], p, e)
    ensures LogOk(after, adjacency, log + [e])
  {
    hide IdList, EventSound;
    LogStep(adjacency, log, e);
  }

  lemma LogOkSilent(peers: Peers, adjacency: Adjacency, log: Log, e: NetworkEvent)
    requires LogOk(peers, adjacency, log) && EventSound(adjacency, log, e) && (Silent(e) || e.Relay?)
    ensures LogOk(peers, adjacency, log + [e])
  {
    LogOkEvent(peers, peers, adjacency, log, e);
  }

  lemma LogOkSame(peers: Peers, adjacency: Adjacency, log: Log, p: PeerId, ps: PeerState)
    requires p in peers && LogOk(peers, adjacency, log)
    requires ps.delivered == peers[p].delivered && ps.inbox == peers[p].inbox && ps.online == peers[p].online
    ensures LogOk(peers[p := ps], adjacency, log)
  {
    hide DeliveredTo, AwakeIn, LogSound, IdList;
  }

  /** Nobody's sequence counter moves. */
  ghost predicate SameCounters(a: Peers, b: Peers) {
    a.Keys == b.Keys && forall p :: p in a ==> a[p].sequence == b[p].sequence
  }

  lemma CopiesMove(a: Peers, b: Peers, queued: multiset<PacketId>, filed: multiset<PacketId>, held: multiset<PacketId>,
                   queued': multiset<PacketId>, filed': multiset<PacketId>, held': multiset<PacketId>)
    requires SameCounters(a, b) && CopiesOk(a, queued, filed, held)
    requires queued + filed + held == queued' + filed' + held'
    ensures CopiesOk(b, queued', filed', held')
  {
    forall id ensures queued'[id] + filed'[id] + held'[id] <= if Issued(b, id) then 1 else 0 {
      assert (queued + filed + held)[id] == (queued' + filed' + held')[id];
      assert Issued(a, id) == Issued(b, id);
    }
  }

  /** Under SingleCopy the packet in hand is nowhere else. */
  lemma HandIsAlone(peers: Peers, pk: SealedPacket)
    requires SingleCopy(peers, [pk])
    ensures Issued(peers, pk.id) && pk.id !in Total(peers).queuedIds && pk.id !in Total(peers).filedIds
    ensures forall p, q :: p in peers && (q in peers[p].relayQueue || q in peers[p].inbox) ==> q.id != pk.id
  {
    hide Total;
    OneInHand(pk);
    forall p, q | p in peers && (q in peers[p].relayQueue || q in peers[p].inbox) ensures q.id != pk.id {
      TotalHas(peers, p, q);
    }
  }

  // ---------------------------------------------------------------------
  // Only a routing table changes
  // ---------------------------------------------------------------------

  lemma TableKeepsInv(st: State, p: PeerId, ps: PeerState, hand: seq<SealedPacket>, dr: Draining)
    requires Inv(st, hand, dr) && p in st.peers && ps == st.peers[p].(prophet := ps.prophet)
    ensures Inv(SetPeer(st, p, ps), hand, dr)
  {
    hide Total, PeersOk, RelaysOk, LogOk, BackpropsOk, MeshOk, Frame, Requests, Messages, CopiesOk, Ids;
    TotalSame(st.peers, p, ps);
    PeersOkAt(st.peers, st.handed, st.tick, p);
    PeersOkUpdate(st.peers, st.handed, st.tick, p, ps);
    RelaysOkAt(st.peers, st.log, p);
    RelaysOkUpdate(st.peers, st.log, p, ps);
    LogOkSame(st.peers, st.adjacency, st.log, p, ps);
    var t := Total(st.peers);
    CopiesMove(st.peers, st.peers[p := ps], t.queuedIds, t.filedIds, Ids(hand), t.queuedIds, t.filedIds, Ids(hand));
  }

  lemma PeersOkAt(peers: Peers, handed: Handings, tick: nat, p: PeerId)
    requires p in peers && PeersOk(peers, handed, tick)
    ensures QueueOk(peers.Keys, tick, p, peers[p].relayQueue) && InboxOk(peers.Keys, handed, tick, p, peers[p].inbox)
  {
  }

  lemma RelaysOkAt(peers: Peers, log: Log, p: PeerId)
    requires p in peers && RelaysOk(peers, log)
    ensures Counted(log, peers[p].relayQueue) && Counted(log, peers[p].inbox)
  {
  }

  // ---------------------------------------------------------------------
  // Out of a queue
  // ---------------------------------------------------------------------

  function Without(ps: PeerState, id: PacketId): PeerState { ps.(relayQueue := Retain(ps.relayQueue, id)) }

  lemma TakeTotals(peers: Peers, p: PeerId, pk: SealedPacket)
    requires p in peers && pk in peers[p].relayQueue && SingleCopy(peers, [])
    ensures var t, u := Total(peers), Total(peers[p := Without(peers[p], pk.id)]);
            && t.queued == u.queued + multiset{pk.Content()} && t.filed == u.filed
            && t.queuedIds == u.queuedIds + multiset{pk.id} && t.filedIds == u.filedIds
  {
    hide Total;
    OneInHand(pk);
    assert Total(peers).queuedIds[pk.id] <= 1;
    TotalRetained(peers, p, Without(peers[p], pk.id), pk);
  }

  lemma TakeKeepsNetwork(peers: Peers, p: PeerId, pk: SealedPacket)
    requires p in peers && pk in peers[p].relayQueue && SingleCopy(peers, [])
    ensures InNetwork(peers[p := Without(peers[p], pk.id)], [pk]) == InNetwork(peers, [])
  {
    hide Total;
    TakeTotals(peers, p, pk);
    OneInHand(pk);
  }

  lemma TakeKeepsSingleCopy(peers: Peers, p: PeerId, pk: SealedPacket)
    requires p in peers && pk in peers[p].relayQueue && SingleCopy(peers, [])
    ensures SingleCopy(peers[p := Without(peers[p], pk.id)], [pk])
  {
    hide Total;
    TakeTotals(peers, p, pk);
    OneInHand(pk);
    var after := peers[p := Without(peers[p], pk.id)];
    var t, u := Total(peers), Total(after);
    CopiesMove(peers, after, t.queuedIds, t.filedIds, Ids([]), u.queuedIds, u.filedIds, Ids([pk]));
  }

  lemma TakeKeepsPeers(st: State, p: PeerId, pk: SealedPacket)
    requires p in st.peers && pk in st.peers[p].relayQueue
    requires PeersOk(st.peers, st.handed, st.tick) && RelaysOk(st.peers, st.log)
    ensures PeersOk(st.peers[p := Without(st.peers[p], pk.id)], st.handed, st.tick)
    ensures RelaysOk(st.peers[p := Without(st.peers[p], pk.id)], st.log)
    ensures HandOk(st, [pk])
  {
    hide PeersOk, RelaysOk, PacketOk;
    PeersOkAt(st.peers, st.handed, st.tick, p);
    RelaysOkAt(st.peers, st.log, p);
    RetainMembers(st.peers[p].relayQueue, pk.id);
    PeersOkUpdate(st.peers, st.handed, st.tick, p, Without(st.peers[p], pk.id));
    RelaysOkUpdate(st.peers, st.log, p, Without(st.peers[p], pk.id));
  }

  /** retain(|p| p.id != id) takes exactly one packet out of the queue and nothing else. */
  lemma TakeKeepsInv(st: State, p: PeerId, pk: SealedPacket, dr: Draining)
    requires Inv(st, [], dr) && p in st.peers && pk in st.peers[p].relayQueue
    ensures Inv(RemoveQueued(st, p, pk.id), [pk], dr)
  {
    hide Total, InNetwork, SingleCopy, PeersOk, RelaysOk, LogOk, BackpropsOk, MeshOk, Requests, Retain, PacketOk, Counted;
    TakeTotals(st.peers, p, pk);
    TakeKeepsNetwork(st.peers, p, pk);
    TakeKeepsSingleCopy(st.peers, p, pk);
    TakeKeepsPeers(st, p, pk);
    LogOkSame(st.peers, st.adjacency, st.log, p, Without(st.peers[p], pk.id));
  }

  // ---------------------------------------------------------------------
  // Into a queue
  // ---------------------------------------------------------------------

  function With(ps: PeerState, pk: SealedPacket): PeerState { ps.(relayQueue := ps.relayQueue + [pk]) }

  lemma EnqueueTotals(peers: Peers, p: PeerId, pk: SealedPacket)
    requires p in peers
    ensures var t, u := Total(peers), Total(peers[p := With(peers[p], pk)]);
            && u.queued == t.queued + multiset{pk.Content()} && u.filed == t.filed
            && u.queuedIds == t.queuedIds + multiset{pk.id} && u.filedIds == t.filedIds
  {
    hide Total;
    TotalEnqueued(peers, p, With(peers[p], pk), pk);
  }

  lemma EnqueueKeepsNetwork(peers: Peers, p: PeerId, pk: SealedPacket)
    requires p in peers
    ensures InNetwork(peers[p := With(peers[p], pk)], []) == InNetwork(peers, [pk])
  {
    hide Total;
    EnqueueTotals(peers, p, pk);
    OneInHand(pk);
  }

  lemma EnqueueKeepsSingleCopy(peers: Peers, p: PeerId, pk: SealedPacket)
    requires p in peers && SingleCopy(peers, [pk])
    ensures SingleCopy(peers[p := With(peers[p], pk)], [])
  {
    hide Total;
    EnqueueTotals(peers, p, pk);
    OneInHand(pk);
    var after := peers[p := With(peers[p], pk)];
    var t, u := Total(peers), Total(after);
    CopiesMove(peers, after, t.queuedIds, t.filedIds, Ids([pk]), u.queuedIds, u.filedIds, Ids([]));
  }

  lemma EnqueueKeepsPeers(st: State, p: PeerId, pk: SealedPacket)
    requires p in st.peers && p in pk.visited && HandOk(st, [pk])
    requires PeersOk(st.peers, st.handed, st.tick) && RelaysOk(st.peers, st.log)
    ensures PeersOk(st.peers[p := With(st.peers[p], pk)], st.handed, st.tick)
    ensures RelaysOk(st.peers[p := With(st.peers[p], pk)], st.log)
  {
    hide PeersOk, RelaysOk, PacketOk, RelayCount;
    assert pk in [pk];
    PeersOkAt(st.peers, st.handed, st.tick, p);
    RelaysOkAt(st.peers, st.log, p);
    PeersOkUpdate(st.peers, st.handed, st.tick, p, With(st.peers[p], pk));
    RelaysOkUpdate(st.peers, st.log, p, With(st.peers[p], pk));
  }

  lemma EnqueueKeepsInv(st: State, p: PeerId, pk: SealedPacket, dr: Draining)
    requires Inv(st, [pk], dr) && p in st.peers && p in pk.visited
    ensures Inv(Enqueue(st, p, pk), [], dr)
  {
    hide Total, InNetwork, SingleCopy, PeersOk, RelaysOk, LogOk, BackpropsOk, MeshOk, Requests, PacketOk, RelayCount;
    EnqueueTotals(st.peers, p, pk);
    EnqueueKeepsNetwork(st.peers, p, pk);
    EnqueueKeepsSingleCopy(st.peers, p, pk);
    EnqueueKeepsPeers(st, p, pk);
    LogOkSame(st.peers, st.adjacency, st.log, p, With(st.peers[p], pk));
  }

  // ---------------------------------------------------------------------
  // Into an inbox
  // ---------------------------------------------------------------------

  lemma FileTotals(peers: Peers, p: PeerId, pk: SealedPacket)
    requires p in peers
    ensures var t, u := Total(peers), Total(peers[p := FileInInbox(peers[p], pk)]);
            && u.queued == t.queued && u.filed == t.filed + multiset{pk.Content()}
            && u.queuedIds == t.queuedIds && u.filedIds == t.filedIds + multiset{pk.id}
  {
    hide Total;
    TotalFiled(peers, p, FileInInbox(peers[p], pk), pk);
  }

  lemma FileKeepsNetwork(peers: Peers, p: PeerId, pk: SealedPacket)
    requires p in peers
    ensures InNetwork(peers[p := FileInInbox(peers[p], pk)], []) == InNetwork(peers, [pk])
  {
    hide Total;
    FileTotals(peers, p, pk);
    OneInHand(pk);
  }

  lemma FileKeepsSingleCopy(peers: Peers, p: PeerId, pk: SealedPacket)
    requires p in peers && SingleCopy(peers, [pk])
    ensures SingleCopy(peers[p := FileInInbox(peers[p], pk)], [])
  {
    hide Total;
    FileTotals(peers, p, pk);
    OneInHand(pk);
    var after := peers[p := FileInInbox(peers[p], pk)];
    var t, u := Total(peers), Total(after);
    CopiesMove(peers, after, t.queuedIds, t.filedIds, Ids([pk]), u.queuedIds, u.filedIds, Ids([]));
  }

  lemma MoreHandings(peers: Peers, handed: Handings, tick: nat, h: Handing)
    requires PeersOk(peers, handed, tick)
    ensures PeersOk(peers, handed + [h], tick)
  {
    hide PacketOk;
    forall p | p in peers ensures QueueOk(peers.Keys, tick, p, peers[p].relayQueue) && InboxOk(peers.Keys, handed + [h], tick, p, peers[p].inbox) {
      StillRecorded(peers.Keys, handed, tick, p, peers[p].inbox, h);
    }
  }

  lemma StillRecorded(keys: set<PeerId>, handed: Handings, tick: nat, p: PeerId, q: seq<SealedPacket>, h: Handing)
    requires InboxOk(keys, handed, tick, p, q)
    ensures InboxOk(keys, handed + [h], tick, p, q)
  {
    hide PacketOk;
    forall pk | pk in q ensures Recorded(handed + [h], pk) {
      assert Recorded(handed, pk);
      var v, t :| Handing(pk, v, t) in handed;
      assert Handing(pk, v, t) in handed + [h];
    }
  }

  lemma FileKeepsPeers(st: State, pk: SealedPacket, via: PeerId)
    requires pk.destination in st.peers && HandOk(st, [pk])
    requires PeersOk(st.peers, st.handed, st.tick) && RelaysOk(st.peers, st.log)
    ensures PeersOk(st.peers[pk.destination := FileInInbox(st.peers[pk.destination], pk)], st.handed + [Handing(pk, via, st.tick)], st.tick)
    ensures RelaysOk(st.peers[pk.destination := FileInInbox(st.peers[pk.destination], pk)], st.log)
  {
    hide PeersOk, RelaysOk, PacketOk, RelayCount;
    var p, handed := pk.destination, st.handed + [Handing(pk, via, st.tick)];
    assert pk in [pk];
    assert Recorded(handed, pk) by { assert Handing(pk, via, st.tick) in handed; }
    MoreHandings(st.peers, st.handed, st.tick, Handing(pk, via, st.tick));
    hide Recorded;
    PeersOkAt(st.peers, handed, st.tick, p);
    RelaysOkAt(st.peers, st.log, p);
    PeersOkUpdate(st.peers, handed, st.tick, p, FileInInbox(st.peers[p], pk));
    RelaysOkUpdate(st.peers, st.log, p, FileInInbox(st.peers[p], pk));
  }

  lemma FileKeepsLog(peers: Peers, adjacency: Adjacency, log: Log, pk: SealedPacket, tick: nat)
    requires pk.destination in peers && LogOk(peers, adjacency, log) && peers[pk.destination].online
    ensures LogOk(peers[pk.destination := FileInInbox(peers[pk.destination], pk)], adjacency,
                  log + [Delivered(pk.id, pk.destination, tick)])
  {
    hide LogOk, Reflects;
    var p := pk.destination;
    var after := peers[p := FileInInbox(peers[p], pk)];
    var e := Delivered(pk.id, p, tick);
    assert EventSound(adjacency, log, e) by { AwakeOnes(peers, adjacency, log, p); }
    forall x | x in peers ensures Reflects(peers[x], after[x], x, e) {
      if x == p { FileReflects(peers[p], pk, tick); } else { OthersReflect(peers[x], x, e); }
    }
    LogOkEvent(peers, after, adjacency, log, e);
  }

  lemma AwakeOnes(peers: Peers, adjacency: Adjacency, log: Log, p: PeerId)
    requires p in peers && LogOk(peers, adjacency, log) && peers[p].online
    ensures AwakeIn(log, p)
  {
  }

  lemma FileReflects(was: PeerState, pk: SealedPacket, tick: nat)
    ensures Reflects(was, FileInInbox(was, pk), pk.destination, Delivered(pk.id, pk.destination, tick))
  {
    hide IdList, Messages, Ids;
    BagAppend(was.inbox, pk);
  }

  lemma OthersReflect(was: PeerState, p: PeerId, e: NetworkEvent)
    requires e.Delivered? && e.to != p
    ensures Reflects(was, was, p, e)
  {
    hide IdList;
  }

  lemma FileKeepsBackprops(bs: seq<BackPropState>, tick: nat, filed: multiset<PacketId>, pk: SealedPacket)
    requires BackpropsOk(bs, tick, filed) && pk.id !in filed
    ensures BackpropsOk(StartBackProp(bs, pk, tick), tick, filed + multiset{pk.id})
  {
  }

  function Filed(st: State, pk: SealedPacket, via: PeerId): State
    requires Ok(st) && pk.destination in st.peers
  {
    SetPeer(st, pk.destination, FileInInbox(st.peers[pk.destination], pk)).(
      log := st.log + [Delivered(pk.id, pk.destination, st.tick)],
      stats := CountDelivery(st.stats, |pk.visited|, if st.tick >= pk.createdAt then st.tick - pk.createdAt else 0),
      backprops := StartBackProp(st.backprops, pk, st.tick),
      handed := st.handed + [Handing(pk, via, st.tick)])
  }

  /** `via` may hand the packet over. */
  ghost predicate MayHand(adjacency: Adjacency, pk: SealedPacket, via: PeerId) {
    via in pk.visited && via in adjacency && pk.destination in adjacency[via]
  }

  lemma FileKeepsInv(st: State, pk: SealedPacket, via: PeerId, dr: Draining)
    requires Inv(st, [pk], dr) && Online(st, pk.destination) && MayHand(st.adjacency, pk, via)
    ensures Inv(Filed(st, pk, via), [], dr)
  {
    hide Total, InNetwork, SingleCopy, PeersOk, RelaysOk, LogOk, BackpropsOk, MeshOk, Requests, PacketOk, RelayCount,
         StartBackProp, StatsOk, HandingsOk, MayHand;
    var p := pk.destination;
    var e := Delivered(pk.id, p, st.tick);
    FileTotals(st.peers, p, pk);
    FileKeepsNetwork(st.peers, p, pk);
    FileKeepsSingleCopy(st.peers, p, pk);
    FileKeepsPeers(st, pk, via);
    FileKeepsHandings(st.adjacency, st.handed, pk, via, st.tick);
    RelaysOkEvent(Filed(st, pk, via).peers, st.log, e);
    FileKeepsLog(st.peers, st.adjacency, st.log, pk, st.tick);
    HandIsAlone(st.peers, pk);
    FileKeepsBackprops(st.backprops, st.tick, Total(st.peers).filedIds, pk);
    FileKeepsStats(st, pk, via);
  }

  lemma FileKeepsHandings(adjacency: Adjacency, handed: Handings, pk: SealedPacket, via: PeerId, tick: nat)
    requires HandingsOk(adjacency, handed) && MayHand(adjacency, pk, via)
    ensures HandingsOk(adjacency, handed + [Handing(pk, via, tick)])
  {
  }

  lemma FileKeepsStats(st: State, pk: SealedPacket, via: PeerId)
    requires Ok(st) && pk.destination in st.peers && StatsOk(st) && HandOk(st, [pk])
    ensures StatsOk(Filed(st, pk, via))
  {
    hide Total, MeshOk, DeliveredCount, DroppedCount, DeliveriesIn, EventsOf, DirectOnes, HopsOf, LatencyOf, StartBackProp, Counted;
    FileTotals(st.peers, pk.destination, pk);
    LogStep(st.adjacency, st.log, Delivered(pk.id, pk.destination, st.tick));
    OneMoreHanded(st.handed, Handing(pk, via, st.tick));
    assert pk in [pk];
  }

  lemma DeliverKeepsInv(st: State, pk: SealedPacket, via: PeerId, dr: Draining)
    requires Inv(st, [pk], dr) && via in pk.visited && Connected(st, via, pk.destination) && Online(st, pk.destination)
    requires via in st.peers
    ensures Inv(DeliverPacket(st, pk, via), [], dr)
  {
    hide Inv;
    assert Ok(st) by { UnfoldInv(st, [pk], dr); }
    var met := SetPeer(st, via, Meet(st.peers[via], pk.destination));
    TableKeepsInv(st, via, Meet(st.peers[via], pk.destination), [pk], dr);
    FileKeepsInv(met, pk, via, dr);
  }

  lemma UnfoldInv(st: State, hand: seq<SealedPacket>, dr: Draining)
    requires Inv(st, hand, dr)
    ensures Ok(st)
  {
  }

  // ---------------------------------------------------------------------
  // One hop further
  // ---------------------------------------------------------------------

  function Stamped(pk: SealedPacket, relay: PeerId): SealedPacket
    requires pk.ttl > 0
  {
    pk.(ttl := pk.ttl - 1, visited := pk.visited + {relay})
  }

  lemma StampKeepsPacket(keys: set<PeerId>, tick: nat, pk: SealedPacket, relay: PeerId)
    requires PacketOk(keys, tick, pk) && pk.ttl > 0 && relay in keys && relay !in pk.visited && relay != pk.destination
    ensures PacketOk(keys, tick, Stamped(pk, relay)) && |Stamped(pk, relay).visited| == |pk.visited| + 1
    ensures |pk.visited| < |keys| && |pk.visited| <= INITIAL_TTL
  {
    FitsIn(pk.visited + {relay}, keys);
  }

  lemma FitsIn<T>(a: set<T>, b: set<T>)
    requires a <= b
    ensures |a| <= |b|
  {
    assert b == a + (b - a);
  }

  /** Logging a relay of the packet in hand disturbs no other packet's count. */
  lemma StampKeepsRelays(peers: Peers, log: Log, pk: SealedPacket, e: NetworkEvent)
    requires RelaysOk(peers, log) && SingleCopy(peers, [pk]) && Counted(log, [pk]) && e.Relay? && e.packetId == pk.id
    requires |pk.visited| < |peers| && |pk.visited| <= INITIAL_TTL
    ensures RelaysOk(peers, log + [e]) && RelayCount(log + [e], pk.id) == |pk.visited|
  {
    hide RelayCount, SingleCopy, CountsOk;
    HandIsAlone(peers, pk);
    assert pk in [pk];
    StampKeepsCounts(peers, log, pk.id, e, |pk.visited|);
    forall p | p in peers ensures Counted(log + [e], peers[p].relayQueue) && Counted(log + [e], peers[p].inbox) {
      OthersStayCounted(log, e, peers[p].relayQueue);
      OthersStayCounted(log, e, peers[p].inbox);
    }
  }

  lemma StampKeepsCounts(peers: Peers, log: Log, id: PacketId, e: NetworkEvent, n: nat)
    requires CountsOk(peers, log) && Issued(peers, id) && e.Relay? && e.packetId == id
    requires RelayCount(log, id) == n - 1 && n < |peers| && n <= INITIAL_TTL
    ensures CountsOk(peers, log + [e]) && RelayCount(log + [e], id) == n
  {
    hide RelayCount, AwakeIn, DeliveredTo, LogSound;
    LogStep(map[], log, e);
  }

  lemma OthersStayCounted(log: Log, e: NetworkEvent, q: seq<SealedPacket>)
    requires Counted(log, q) && e.Relay? && forall pk :: pk in q ==> pk.id != e.packetId
    ensures Counted(log + [e], q)
  {
    LogStep(map[], log, e);
  }

  lemma StampKeepsInv(st: State, pk: SealedPacket, from: PeerId, relay: PeerId, dr: Draining)
    requires Inv(st, [pk], dr) && pk.ttl > 0 && relay !in pk.visited && relay != pk.destination
    requires Online(st, from) && Online(st, relay) && Connected(st, from, relay)
    ensures Inv(Emit(st, Relay(from, relay, pk.destination, pk.id, st.tick)), [Stamped(pk, relay)], dr)
  {
    hide Total, SingleCopy, PeersOk, RelaysOk, LogOk, BackpropsOk, MeshOk, Requests, PacketOk, RelayCount,
         DeliveredCount, DroppedCount, DeliveriesIn, EventsOf, DirectOnes, HopsOf, LatencyOf, Messages, Ids, Stamped;
    var e := Relay(from, relay, pk.destination, pk.id, st.tick);
    assert pk in [pk];
    StampKeepsPacket(st.peers.Keys, st.tick, pk, relay);
    StampKeepsRelays(st.peers, st.log, pk, e);
    StampKeepsContent(st.peers, pk, relay);
    OnlineInLog(st, from);
    OnlineInLog(st, relay);
    LogOkSilent(st.peers, st.adjacency, st.log, e);
    LogStep(st.adjacency, st.log, e);
  }

  lemma StampKeepsContent(peers: Peers, pk: SealedPacket, relay: PeerId)
    requires pk.ttl > 0
    ensures Messages([Stamped(pk, relay)]) == Messages([pk]) && Stamped(pk, relay).id == pk.id
    ensures SingleCopy(peers, [pk]) ==> SingleCopy(peers, [Stamped(pk, relay)])
  {
    hide Total;
    OneInHand(pk);
    OneInHand(Stamped(pk, relay));
  }

  lemma OnlineInLog(st: State, p: PeerId)
    requires Online(st, p) && LogOk(st.peers, st.adjacency, st.log)
    ensures AwakeIn(st.log, p)
  {
  }

  lemma RelayKeepsInv(st: State, pk: SealedPacket, current: PeerId, relay: PeerId, dr: Draining)
    requires Inv(st, [pk], dr) && pk.ttl > 0 && relay !in pk.visited && relay != pk.destination
    requires Online(st, current) && Online(st, relay) && Connected(st, current, relay)
    ensures Inv(RelayTo(st, pk, current, relay), [], dr)
  {
    hide Inv;
    assert Ok(st) by { UnfoldInv(st, [pk], dr); }
    var met := SetPeer(st, current, Meet(st.peers[current], relay));
    TableKeepsInv(st, current, Meet(st.peers[current], relay), [pk], dr);
    StampKeepsInv(met, pk, current, relay, dr);
    EnqueueKeepsInv(Emit(met, Relay(current, relay, pk.destination, pk.id, st.tick)), relay, Stamped(pk, relay), dr);
  }

  // ---------------------------------------------------------------------
  // Out of the network
  // ---------------------------------------------------------------------

  lemma DropKeepsInv(st: State, pk: SealedPacket, dr: Draining)
    requires Inv(st, [pk], dr) && |st.adjacency| >= INITIAL_TTL + 2
    ensures Inv(DropPacket(st, pk, TtlExpired), [], dr)
  {
    hide Total, SingleCopy, PeersOk, RelaysOk, LogOk, BackpropsOk, MeshOk, Requests, PacketOk, RelayCount,
         DeliveredCount, DroppedCount, DeliveriesIn, EventsOf, DirectOnes, HopsOf, LatencyOf, Messages, Ids;
    var e := Dropped(pk.id, TtlExpired, st.tick);
    OneInHand(pk);
    RelaysOkEvent(st.peers, st.log, e);
    LogOkSilent(st.peers, st.adjacency, st.log, e);
    LogStep(st.adjacency, st.log, e);
    LetGo(st.peers, pk);
  }

  lemma LetGo(peers: Peers, pk: SealedPacket)
    requires SingleCopy(peers, [pk])
    ensures SingleCopy(peers, [])
  {
    hide Total;
    OneInHand(pk);
  }

  // ---------------------------------------------------------------------
  // Pending sends
  // ---------------------------------------------------------------------

  lemma RequestsCons(s: PendingSend, dr: Draining)
    ensures Requests(Next(s, dr).rest) == multiset{s.message} + Requests(dr.rest)
  {
    RequestsFirst(Next(s, dr).rest);
    assert Next(s, dr).rest[1..] == dr.rest;
  }

  lemma PendingRest(st: State, s: PendingSend, dr: Draining)
    requires PendingOk(st, Next(s, dr))
    ensures PendingOk(st, dr) && SendOk(st.config, st.tick - 1, s)
  {
    assert s in Next(s, dr).rest;
    assert forall x :: x in dr.rest ==> x in Next(s, dr).rest;
  }

  lemma AnnounceKeepsInv(st: State, m: Message, hand: seq<SealedPacket>, dr: Draining)
    requires Inv(st, hand, dr)
    ensures Inv(Emit(st, Send(m, st.tick)), hand, dr)
  {
    hide Total, SingleCopy, PeersOk, RelaysOk, LogOk, BackpropsOk, MeshOk, Requests, PacketOk, RelayCount,
         DeliveredCount, DroppedCount, DeliveriesIn, EventsOf, DirectOnes, HopsOf, LatencyOf, Messages, Ids, InNetwork;
    var e := Send(m, st.tick);
    RelaysOkEvent(st.peers, st.log, e);
    LogOkSilent(st.peers, st.adjacency, st.log, e);
    LogStep(st.adjacency, st.log, e);
  }

  lemma DropSendKeepsInv(st: State, s: PendingSend, reason: DropReason, dr: Draining)
    requires Inv(st, [], Next(s, dr)) && (reason == SenderOffline || (reason == Expired && HasExpired(st, s)))
    ensures Inv(DropSend(st, s.message, reason), [], dr)
  {
    hide Total, SingleCopy, PeersOk, RelaysOk, LogOk, BackpropsOk, MeshOk, Requests, PacketOk, RelayCount,
         DeliveredCount, DroppedCount, DeliveriesIn, EventsOf, DirectOnes, HopsOf, LatencyOf, Messages, Ids, InNetwork;
    var e := Dropped(PacketId(s.message.from, 0), reason, st.tick);
    RequestsCons(s, dr);
    PendingRest(st, s, dr);
    RelaysOkEvent(st.peers, st.log, e);
    LogOkSilent(st.peers, st.adjacency, st.log, e);
    LogStep(st.adjacency, st.log, e);
  }

  lemma RetryKeepsInv(st: State, s: PendingSend, dr: Draining)
    requires Inv(st, [], Next(s, dr)) && !dr.late && !HasExpired(st, s)
    requires st.config.maxSenderRetries.Some? ==> s.retryCount < st.config.maxSenderRetries.value
    ensures Inv(st.(pending := st.pending + [s.(retryCount := s.retryCount + 1)]), [], dr)
  {
    hide Total, SingleCopy, PeersOk, RelaysOk, LogOk, BackpropsOk, MeshOk, Requests, PacketOk, RelayCount,
         DeliveredCount, DroppedCount, DeliveriesIn, EventsOf, DirectOnes, HopsOf, LatencyOf, Messages, Ids, InNetwork;
    RequestsCons(s, dr);
    RequestsAppend(st.pending, s.(retryCount := s.retryCount + 1));
    PendingRest(st, s, dr);
  }

  function Minted(st: State, m: Message): SealedPacket
    requires Ok(st) && m.from in st.peers
  {
    Mint(st, m).1
  }

  lemma MintPacket(st: State, m: Message)
    requires Ok(st) && m.from in st.peers && RelaysOk(st.peers, st.log)
    ensures var pk := Minted(st, m);
            && pk.Content() == m && pk.id == PacketId(m.from, st.peers[m.from].sequence) && pk.visited == {m.from}
            && PacketOk(st.peers.Keys, st.tick, pk) && RelayCount(st.log, pk.id) == 0
  {
    assert !Issued(st.peers, Minted(st, m).id);
  }

  lemma MintCopies(a: Peers, b: Peers, p: PeerId, queued: multiset<PacketId>, filed: multiset<PacketId>)
    requires p in a && a.Keys == b.Keys && b[p].sequence == a[p].sequence + 1
    requires forall q :: q in a && q != p ==> a[q].sequence == b[q].sequence
    requires CopiesOk(a, queued, filed, multiset{})
    ensures CopiesOk(b, queued, filed, multiset{PacketId(p, a[p].sequence)})
  {
    forall id ensures queued[id] + filed[id] + multiset{PacketId(p, a[p].sequence)}[id] <= if Issued(b, id) then 1 else 0 {
      assert Issued(b, id) <==> Issued(a, id) || id == PacketId(p, a[p].sequence);
    }
  }

  lemma MintKeepsPeers(st: State, m: Message)
    requires Ok(st) && m.from in st.peers && PeersOk(st.peers, st.handed, st.tick) && RelaysOk(st.peers, st.log)
    requires LogOk(st.peers, st.adjacency, st.log) && SingleCopy(st.peers, [])
    ensures var r := Mint(st, m).0;
            && PeersOk(r.peers, r.handed, r.tick) && RelaysOk(r.peers, r.log) && LogOk(r.peers, r.adjacency, r.log)
            && Total(r.peers) == Total(st.peers) && SingleCopy(r.peers, [Minted(st, m)])
  {
    hide PeersOk, RelaysOk, LogOk, Total, MeshOk, CopiesOk;
    var p := m.from;
    var ps := st.peers[p].(sequence := st.peers[p].sequence + 1);
    PeersOkAt(st.peers, st.handed, st.tick, p);
    RelaysOkAt(st.peers, st.log, p);
    PeersOkUpdate(st.peers, st.handed, st.tick, p, ps);
    RelaysOkUpdate(st.peers, st.log, p, ps);
    LogOkSame(st.peers, st.adjacency, st.log, p, ps);
    TotalSame(st.peers, p, ps);
    OneInHand(Minted(st, m));
    MintPacket(st, m);
    MintCopies(st.peers, st.peers[p := ps], p, Total(st.peers).queuedIds, Total(st.peers).filedIds);
  }

  lemma MintKeepsInv(st: State, s: PendingSend, dr: Draining)
    requires Inv(st, [], Next(s, dr)) && s.message.from in st.peers
    ensures Inv(Mint(st, s.message).0, [Minted(st, s.message)], dr)
  {
    hide Total, SingleCopy, PeersOk, RelaysOk, LogOk, BackpropsOk, MeshOk, Requests, PacketOk, RelayCount,
         DeliveredCount, DroppedCount, DeliveriesIn, EventsOf, DirectOnes, HopsOf, LatencyOf, Messages, Ids, HandedOk, HandingsOk;
    MintKeepsPeers(st, s.message);
    MintPacket(st, s.message);
    RequestsCons(s, dr);
    PendingRest(st, s, dr);
    OneInHand(Minted(st, s.message));
  }
}
