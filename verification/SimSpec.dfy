/** The transition rules of the engine as functions on states (simulation/src/simulation.rs).
    Class Simulation performs the same steps in place and is proved equal to these functions. */
module SimSpec {
  import opened Common
  import opened SimTypes
  import Prophet

  ghost predicate Ok(st: State) { MeshOk(st.peers, st.adjacency) }

  /** The parts of a state that only wake/sleep transitions and the clock may change. */
  ghost predicate Frame(st: State, r: State) {
    && r.peers.Keys == st.peers.Keys
    && r.adjacency == st.adjacency && r.tick == st.tick && r.config == st.config && r.sent == st.sent
    && (forall p :: p in st.peers ==>
          && r.peers[p].id == st.peers[p].id && r.peers[p].connections == st.peers[p].connections
          && r.peers[p].online == st.peers[p].online && r.peers[p].lastOnlineTick == st.peers[p].lastOnlineTick)
  }

  /** A frame step that also leaves the pending sends alone. */
  ghost predicate Quiet(st: State, r: State) { Frame(st, r) && r.pending == st.pending }

  predicate Online(st: State, p: PeerId) { p in st.peers && st.peers[p].online }

  predicate Connected(st: State, a: PeerId, b: PeerId) { a in st.adjacency && b in st.adjacency[a] }

  function Neighbors(st: State, p: PeerId): set<PeerId> { if p in st.adjacency then st.adjacency[p] else {} }

  function MutualPeers(st: State, a: PeerId, b: PeerId): set<PeerId> { Neighbors(st, a) * Neighbors(st, b) }

  function Emit(st: State, e: NetworkEvent): State { st.(log := st.log + [e]) }

  function Meet(ps: PeerState, other: PeerId): PeerState {
    ps.(prophet := Prophet.Encounter(Prophet.DEFAULT, ps.id, ps.prophet, other))
  }

  /** Replaces a peer's mutable part. */
  function SetPeer(st: State, p: PeerId, ps: PeerState): (r: State)
    requires Ok(st) && p in st.peers
    requires ps.id == st.peers[p].id && ps.connections == st.peers[p].connections
    requires ps.online == st.peers[p].online && ps.lastOnlineTick == st.peers[p].lastOnlineTick
    ensures Ok(r) && Quiet(st, r)
  {
    st.(peers := st.peers[p := ps])
  }

  /** Vec::retain(|p| p.id != id). */
  function Retain(q: seq<SealedPacket>, id: PacketId): seq<SealedPacket> {
    if q == [] then []
    else Retain(q[..|q|-1], id) + if q[|q|-1].id != id then [q[|q|-1]] else []
  }

  function RemoveQueued(st: State, p: PeerId, id: PacketId): (r: State)
    requires Ok(st) && p in st.peers
    ensures Ok(r) && Quiet(st, r)
  {
    SetPeer(st, p, st.peers[p].(relayQueue := Retain(st.peers[p].relayQueue, id)))
  }

  function Enqueue(st: State, p: PeerId, pk: SealedPacket): (r: State)
    requires Ok(st) && p in st.peers
    ensures Ok(r) && Quiet(st, r)
  {
    SetPeer(st, p, st.peers[p].(relayQueue := st.peers[p].relayQueue + [pk]))
  }

  // ---------------------------------------------------------------------
  // Delivery
  // ---------------------------------------------------------------------

  function CountDelivery(s: SimStats, hops: nat, latency: nat): SimStats {
    s.(messagesDelivered := s.messagesDelivered + 1, totalHops := s.totalHops + hops,
       directDeliveries := s.directDeliveries + (if hops == 1 then 1 else 0),
       relayedDeliveries := s.relayedDeliveries + (if hops == 1 then 0 else 1),
       totalDeliveryLatency := s.totalDeliveryLatency + latency)
  }

  function StartBackProp(bs: seq<BackPropState>, pk: SealedPacket, tick: nat): seq<BackPropState> {
    if |pk.visited| > 1 then bs + [BackPropState(pk.id, Sorted(pk.visited), 0, tick)] else bs
  }

  function FileInInbox(ps: PeerState, pk: SealedPacket): PeerState {
    ps.(inbox := ps.inbox + [pk], delivered := ps.delivered + [pk.id])
  }

  function DeliverPacket(st: State, pk: SealedPacket, via: PeerId): (r: State)
    requires Ok(st) && via in st.peers && pk.destination in st.peers
    ensures Ok(r) && Quiet(st, r)
  {
    var met := SetPeer(st, via, Meet(st.peers[via], pk.destination));
    var filed := SetPeer(met, pk.destination, FileInInbox(met.peers[pk.destination], pk));
    filed.(log := st.log + [Delivered(pk.id, pk.destination, st.tick)],
           stats := CountDelivery(st.stats, |pk.visited|, if st.tick >= pk.createdAt then st.tick - pk.createdAt else 0),
           backprops := StartBackProp(st.backprops, pk, st.tick), handed := st.handed + [Handing(pk, via, st.tick)])
  }

  function AddressedTo(q: seq<SealedPacket>, to: PeerId): (r: seq<SealedPacket>)
    ensures forall pk :: pk in r <==> pk in q && pk.destination == to
  {
    if q == [] then []
    else AddressedTo(q[..|q|-1], to) + if q[|q|-1].destination == to then [q[|q|-1]] else []
  }

  function DeliverAll(st: State, pks: seq<SealedPacket>, from: PeerId): (r: State)
    requires Ok(st) && from in st.peers
    requires forall pk :: pk in pks ==> pk.destination in st.peers
    ensures Ok(r) && Quiet(st, r)
    decreases |pks|
  {
    if pks == [] then st
    else DeliverAll(DeliverPacket(RemoveQueued(st, from, pks[0].id), pks[0], from), pks[1..], from)
  }

  function DeliverPending(st: State, from: PeerId, to: PeerId): (r: State)
    requires Ok(st) && from in st.peers && to in st.peers
    ensures Ok(r) && Quiet(st, r)
  {
    DeliverAll(st, AddressedTo(st.peers[from].relayQueue, to), from)
  }

  function AwakeNeighbors(st: State, neighbors: seq<PeerId>, p: PeerId): (r: State)
    requires Ok(st) && p in st.peers && forall n :: n in neighbors ==> n in st.peers
    ensures Ok(r) && Quiet(st, r)
    decreases |neighbors|
  {
    if neighbors == [] then st else AwakeNeighbors(DeliverPending(st, neighbors[0], p), neighbors[1..], p)
  }

  predicate JustWoke(st: State, p: PeerId)
    requires p in st.peers
  {
    st.peers[p].online && st.peers[p].lastOnlineTick == Some(st.tick)
  }

  function AwakeSignals(st: State, ids: seq<PeerId>): (r: State)
    requires Ok(st) && forall p :: p in ids ==> p in st.peers
    ensures Ok(r) && Quiet(st, r)
    decreases |ids|
  {
    if ids == [] then st
    else
      var p := ids[0];
      var r := if JustWoke(st, p) then AwakeNeighbors(st, Sorted(st.peers[p].connections), p) else st;
      AwakeSignals(r, ids[1..])
  }

  // ---------------------------------------------------------------------
  // Relaying
  // ---------------------------------------------------------------------

  /** Online neighbours, in order, that have not handled the packet. */
  function Candidates(st: State, pk: SealedPacket, neighbors: seq<PeerId>): (r: seq<PeerId>)
    ensures forall n :: n in r <==> n in neighbors && n !in pk.visited && Online(st, n)
  {
    if neighbors == [] then []
    else
      var n := neighbors[|neighbors| - 1];
      Candidates(st, pk, neighbors[..|neighbors|-1]) + if n !in pk.visited && Online(st, n) then [n] else []
  }

  function FirstIn(c: seq<PeerId>, s: set<PeerId>): (r: Option<PeerId>)
    ensures r.Some? ==> r.value in c && r.value in s
    ensures r.None? ==> forall n :: n in c ==> n !in s
  {
    if c == [] then None else if c[0] in s then Some(c[0]) else FirstIn(c[1..], s)
  }

  function First(c: seq<PeerId>): Option<PeerId> { if c == [] then None else Some(c[0]) }

  function ProphetChoice(st: State, pk: SealedPacket, current: PeerId, c: seq<PeerId>): (r: Option<PeerId>)
    requires current in st.peers
    ensures r.Some? ==> r.value in c
  {
    Prophet.BestCandidate(st.peers[current].id, st.peers[current].prophet, pk.destination, c)
  }

  /** Preference order: PRoPHET, routing hints, neighbours of the destination, first candidate. */
  function SelectRelay(st: State, pk: SealedPacket, current: PeerId, c: seq<PeerId>): (r: Option<PeerId>)
    requires current in st.peers
    ensures r.Some? ==> r.value in c
    ensures r.None? <==> c == []
  {
    var prophet := ProphetChoice(st, pk, current, c);
    if prophet.Some? then prophet
    else
      var hint := FirstIn(c, pk.routingHints);
      if hint.Some? then hint
      else
        var near := FirstIn(c, Neighbors(st, pk.destination));
        if near.Some? then near else First(c)
  }

  function CountSelection(s: SimStats, used: bool): SimStats {
    if used then s.(prophetRelaySelections := s.prophetRelaySelections + 1) else s
  }

  function DropPacket(st: State, pk: SealedPacket, reason: DropReason): State {
    st.(log := st.log + [Dropped(pk.id, reason, st.tick)],
        stats := st.stats.(messagesDropped := st.stats.messagesDropped + 1),
        dropped := st.dropped + [pk.Content()])
  }

  function RelayTo(st: State, pk: SealedPacket, current: PeerId, relay: PeerId): (r: State)
    requires Ok(st) && current in st.peers && relay in st.peers && pk.ttl > 0
    ensures Ok(r) && Quiet(st, r)
  {
    var sent := pk.(ttl := pk.ttl - 1, visited := pk.visited + {relay});
    var met := SetPeer(st, current, Meet(st.peers[current], relay));
    Enqueue(Emit(met, Relay(current, relay, pk.destination, pk.id, st.tick)), relay, sent)
  }

  function FindRelayPath(st: State, pk: SealedPacket, current: PeerId): (r: State)
    requires Ok(st) && current in st.peers
    ensures Ok(r) && Quiet(st, r)
  {
    var c := Candidates(st, pk, Sorted(Neighbors(st, current)));
    var counted := st.(stats := CountSelection(st.stats, ProphetChoice(st, pk, current, c).Some?));
    match SelectRelay(st, pk, current, c)
    case Some(relay) => if pk.ttl == 0 then DropPacket(counted, pk, TtlExpired) else RelayTo(counted, pk, current, relay)
    case None => if c == [] then Enqueue(counted, current, pk) else DropPacket(counted, pk, NoRoute)
  }

  // ---------------------------------------------------------------------
  // Pending sends
  // ---------------------------------------------------------------------

  function DropSend(st: State, m: Message, reason: DropReason): State {
    st.(log := st.log + [Dropped(PacketId(m.from, 0), reason, st.tick)],
        stats := st.stats.(messagesDropped := st.stats.messagesDropped + 1,
                           messagesExpired := st.stats.messagesExpired + (if reason == Expired then 1 else 0)),
        dropped := st.dropped + [m])
  }

  /** next_packet_id and SealedPacket::new for an online sender. */
  function Mint(st: State, m: Message): (r: (State, SealedPacket))
    requires Ok(st) && m.from in st.peers
    ensures Ok(r.0) && Quiet(st, r.0)
  {
    var ps := st.peers[m.from];
    (SetPeer(st, m.from, ps.(sequence := ps.sequence + 1)),
     NewPacket(PacketId(ps.id, ps.sequence), m, MutualPeers(st, m.from, m.to), st.tick))
  }

  function RouteMessage(st: State, send: PendingSend): (r: State)
    requires Ok(st)
    ensures Ok(r) && Frame(st, r)
  {
    var m := send.message;
    if !Online(st, m.from) then
      if st.config.maxSenderRetries.Some? && send.retryCount >= st.config.maxSenderRetries.value
      then DropSend(st, m, SenderOffline)
      else st.(pending := st.pending + [send.(retryCount := send.retryCount + 1)])
    else
      var (minted, pk) := Mint(st, m);
      if Connected(minted, m.from, m.to) && Online(minted, m.to) then DeliverPacket(minted, pk, m.from)
      else if Connected(minted, m.from, m.to) then Enqueue(minted, m.from, pk)
      else FindRelayPath(minted, pk, m.from)
  }

  predicate HasExpired(st: State, send: PendingSend) {
    st.config.messageTimeout.Some? && st.tick - send.createdTick > st.config.messageTimeout.value
  }

  function ProcessSend(st: State, send: PendingSend): (r: State)
    requires Ok(st)
    ensures Ok(r) && Frame(st, r)
  {
    if HasExpired(st, send) then DropSend(st, send.message, Expired)
    else RouteMessage(Emit(st, Send(send.message, st.tick)), send)
  }

  function ProcessSends(st: State, sends: seq<PendingSend>): (r: State)
    requires Ok(st)
    ensures Ok(r) && Frame(st, r)
    decreases |sends|
  {
    if sends == [] then st else ProcessSends(ProcessSend(st, sends[0]), sends[1..])
  }

  // ---------------------------------------------------------------------
  // Relay queues
  // ---------------------------------------------------------------------

  function ForwardOne(st: State, pk: SealedPacket, p: PeerId): (r: State)
    requires Ok(st) && p in st.peers
    ensures Ok(r) && Quiet(st, r)
  {
    if Connected(st, p, pk.destination) && Online(st, pk.destination) then
      DeliverPacket(RemoveQueued(st, p, pk.id), pk, p)
    else if !Connected(st, p, pk.destination) then
      FindRelayPath(RemoveQueued(st, p, pk.id), pk, p)
    else st
  }

  function ForwardAll(st: State, pks: seq<SealedPacket>, p: PeerId): (r: State)
    requires Ok(st) && p in st.peers
    ensures Ok(r) && Quiet(st, r)
    decreases |pks|
  {
    if pks == [] then st else ForwardAll(ForwardOne(st, pks[0], p), pks[1..], p)
  }

  function RelayQueues(st: State, ids: seq<PeerId>): (r: State)
    requires Ok(st) && forall p :: p in ids ==> p in st.peers
    ensures Ok(r) && Quiet(st, r)
    decreases |ids|
  {
    if ids == [] then st
    else
      var p := ids[0];
      var r := if st.peers[p].online then ForwardAll(st, st.peers[p].relayQueue, p) else st;
      RelayQueues(r, ids[1..])
  }

  // ---------------------------------------------------------------------
  // Back-propagation
  // ---------------------------------------------------------------------

  predicate TimedOut(st: State, b: BackPropState) {
    st.config.backpropTimeout.Some? && st.tick - b.deliveredTick > st.config.backpropTimeout.value
  }

  predicate Completed(st: State, b: BackPropState) { !TimedOut(st, b) && b.index >= |b.path| - 1 }

  /** The confirmation can take one more hop towards the front of the path. */
  predicate CanAdvance(st: State, b: BackPropState) {
    && !TimedOut(st, b) && b.index < |b.path| - 1
    && Online(st, b.path[|b.path| - 1 - b.index]) && Online(st, b.path[|b.path| - 2 - b.index])
  }

  function Advance(st: State, b: BackPropState): BackPropState {
    if CanAdvance(st, b) then b.(index := b.index + 1) else b
  }

  function AdvanceAll(st: State, bs: seq<BackPropState>): (r: seq<BackPropState>)
    ensures |r| == |bs| && forall i :: 0 <= i < |bs| ==> r[i] == Advance(st, bs[i])
  {
    seq(|bs|, i requires 0 <= i < |bs| => Advance(st, bs[i]))
  }

  function HopEvents(st: State, bs: seq<BackPropState>): (r: seq<NetworkEvent>)
    ensures forall e :: e in r ==> e.BackProp? && e.from == e.via && Online(st, e.from) && Online(st, e.to)
  {
    if bs == [] then []
    else
      var n := |bs| - 1;
      var b := bs[n];
      HopEvents(st, bs[..n]) +
      if CanAdvance(st, b) then
        [BackProp(b.packetId, b.path[|b.path| - 1 - b.index], b.path[|b.path| - 1 - b.index], b.path[|b.path| - 2 - b.index], st.tick)]
      else []
  }

  /** Positions of the timed-out entries, ascending. */
  function TimedOutAt(st: State, bs: seq<BackPropState>): seq<nat> {
    if bs == [] then []
    else TimedOutAt(st, bs[..|bs|-1]) + if TimedOut(st, bs[|bs|-1]) then [|bs| - 1] else []
  }

  /** Positions of the completed entries, ascending. */
  function CompletedAt(st: State, bs: seq<BackPropState>): seq<nat> {
    if bs == [] then []
    else CompletedAt(st, bs[..|bs|-1]) + if Completed(st, bs[|bs|-1]) then [|bs| - 1] else []
  }

  function RemoveAt<T>(s: seq<T>, k: nat): seq<T>
    requires k < |s|
  {
    s[..k] + s[k+1..]
  }

  /** Removes the timed-out entries, last position first; None when Vec::remove would panic. */
  function DropTimedOut(st: State, at: seq<nat>): (r: Option<State>)
    requires Ok(st)
    ensures r.Some? ==> Ok(r.value) && Quiet(st, r.value)
    decreases |at|
  {
    if at == [] then Some(st)
    else
      var k := at[|at| - 1];
      if k >= |st.backprops| then None
      else
        DropTimedOut(st.(backprops := RemoveAt(st.backprops, k),
                         stats := st.stats.(backpropsTimedOut := st.stats.backpropsTimedOut + 1)), at[..|at|-1])
  }

  function CleanQueues(st: State, relays: seq<PeerId>, id: PacketId): (r: State)
    requires Ok(st)
    ensures Ok(r) && Quiet(st, r)
    decreases |relays|
  {
    if relays == [] then st
    else CleanQueues(if relays[0] in st.peers then RemoveQueued(st, relays[0], id) else st, relays[1..], id)
  }

  function FinishBackProp(st: State, b: BackPropState): (r: State)
    requires Ok(st)
    ensures Ok(r) && Quiet(st, r)
  {
    var latency := if st.tick >= b.deliveredTick then st.tick - b.deliveredTick else 0;
    var counted := st.(stats := st.stats.(totalBackpropLatency := st.stats.totalBackpropLatency + latency,
                                          backpropsCompleted := st.stats.backpropsCompleted + 1));
    if |b.path| > 2 then CleanQueues(counted, b.path[1..|b.path|-1], b.packetId) else counted
  }

  /** Removes the entries at the recorded positions, last first; None when Vec::remove would panic. */
  function RemoveCompleted(st: State, at: seq<nat>): (r: Option<State>)
    requires Ok(st)
    ensures r.Some? ==> Ok(r.value) && Quiet(st, r.value)
    decreases |at|
  {
    if at == [] then Some(st)
    else
      var k := at[|at| - 1];
      if k >= |st.backprops| then None
      else
        var b := st.backprops[k];
        RemoveCompleted(FinishBackProp(st.(backprops := RemoveAt(st.backprops, k)), b), at[..|at|-1])
  }

  /** The whole phase: positions are recorded before anything is removed. */
  function ProcessBackprops(st: State): (r: Option<State>)
    requires Ok(st)
    ensures r.Some? ==> Ok(r.value) && Quiet(st, r.value)
  {
    var bs := st.backprops;
    var scanned := st.(backprops := AdvanceAll(st, bs), log := st.log + HopEvents(st, bs));
    match DropTimedOut(scanned, TimedOutAt(st, bs))
    case None => None
    case Some(r) => RemoveCompleted(r, CompletedAt(st, bs))
  }

  // ---------------------------------------------------------------------
  // Clock, transitions and whole steps
  // ---------------------------------------------------------------------

  function SetOnline(st: State, p: PeerId, online: bool): (r: State)
    requires Ok(st) && p in st.peers
    ensures Ok(r)
  {
    var ps := st.peers[p];
    st.(peers := st.peers[p := ps.(online := online,
                                   lastOnlineTick := if online then Some(st.tick) else ps.lastOnlineTick)],
        log := st.log + [if online then Awake(p, st.tick) else Sleep(p, st.tick)])
  }

  /** A wake or sleep transition. */
  function Flipped(st: State, p: PeerId): (r: State)
    requires Ok(st) && p in st.peers
    ensures Ok(r) && r.peers.Keys == st.peers.Keys && r.tick == st.tick
    ensures r.adjacency == st.adjacency && r.config == st.config && r.sent == st.sent
  {
    var woke := !st.peers[p].online;
    var s := SetOnline(st, p, woke);
    s.(stats := if woke then s.stats.(wakeEvents := s.stats.wakeEvents + 1)
                else s.stats.(sleepEvents := s.stats.sleepEvents + 1))
  }

  /** `flips` is the set of peers whose random draw asks for a transition this tick. */
  function Transitions(st: State, ids: seq<PeerId>, flips: set<PeerId>): (r: State)
    requires Ok(st) && forall p :: p in ids ==> p in st.peers
    ensures Ok(r) && r.peers.Keys == st.peers.Keys && r.tick == st.tick
    ensures r.adjacency == st.adjacency && r.config == st.config && r.sent == st.sent
    decreases |ids|
  {
    if ids == [] then st else Transitions(if ids[0] in flips then Flipped(st, ids[0]) else st, ids[1..], flips)
  }

  function AgePeers(st: State, ids: seq<PeerId>): (r: State)
    requires Ok(st) && forall p :: p in ids ==> p in st.peers
    ensures Ok(r) && Quiet(st, r)
    decreases |ids|
  {
    if ids == [] then st
    else
      var ps := st.peers[ids[0]];
      AgePeers(SetPeer(st, ids[0], ps.(prophet := Prophet.Age(Prophet.DEFAULT, ps.prophet))), ids[1..])
  }

  function ProcessAging(st: State): (r: State)
    requires Ok(st)
    ensures Ok(r) && Quiet(st, r)
  {
    var aged := AgePeers(st, Sorted(st.peers.Keys));
    aged.(stats := aged.stats.(prophetAgingCycles := aged.stats.prophetAgingCycles + 1))
  }

  /** The state once the tick's wake and sleep transitions have happened. */
  function Woken(st: State, flips: set<PeerId>): (r: State)
    requires Ok(st)
    ensures Ok(r) && r.peers.Keys == st.peers.Keys && r.sent == st.sent && r.config == st.config
  {
    Transitions(st.(tick := st.tick + 1), Sorted(st.peers.Keys), flips)
  }

  /** Phases 2 and 3: awake signals, then the pending sends. */
  function Dispatched(st: State): (r: State)
    requires Ok(st)
    ensures Ok(r) && Frame(st, r)
  {
    var signalled := AwakeSignals(st, Sorted(st.peers.Keys));
    var r := ProcessSends(signalled.(pending := []), signalled.pending);
    FrameChain(st, signalled, signalled.(pending := []), r);
    r
  }

  lemma FrameChain(a: State, b: State, b': State, c: State)
    requires Frame(a, b) && b' == b.(pending := []) && Frame(b', c)
    ensures Frame(a, c)
  {
  }

  /** The state after the first four phases of a tick. */
  function Routed(st: State, flips: set<PeerId>): (r: State)
    requires Ok(st)
    ensures Ok(r) && r.sent == st.sent && r.config == st.config
  {
    RelayQueues(Dispatched(Woken(st, flips)), Sorted(st.peers.Keys))
  }

  /** The last two phases: back-propagation, and periodically aging. */
  function Concluded(st: State): (r: Option<State>)
    requires Ok(st)
    ensures r.Some? ==> Ok(r.value) && r.value.sent == st.sent
  {
    match ProcessBackprops(st)
    case None => None
    case Some(s) =>
      if s.config.agingInterval == 0 then None
      else Some(if s.tick % s.config.agingInterval == 0 then ProcessAging(s) else s)
  }

  /** One tick; None when the program panics. */
  function Step(st: State, flips: set<PeerId>): (r: Option<State>)
    requires Ok(st)
    ensures r.Some? ==> Ok(r.value) && r.value.sent == st.sent
  {
    Concluded(Routed(st, flips))
  }

  function SendMessage(st: State, m: Message): (r: State)
    requires Ok(st)
    ensures Ok(r)
  {
    st.(pending := st.pending + [PendingSend(m, st.tick, 0)], sent := st.sent + [m],
        stats := st.stats.(messagesSent := st.stats.messagesSent + 1))
  }

  function Force(st: State, p: PeerId, online: bool): (r: State)
    requires Ok(st)
    ensures Ok(r)
  {
    if p in st.peers && st.peers[p].online != online then SetOnline(st, p, online) else st
  }

  function Draw(st: State, p: PeerId, online: bool): (r: State)
    requires Ok(st) && p in st.peers
    ensures Ok(r) && r.peers.Keys == st.peers.Keys
  {
    var ps := st.peers[p];
    if online then st.(peers := st.peers[p := ps.(online := true, lastOnlineTick := Some(0))], log := st.log + [Awake(p, 0)])
    else st.(peers := st.peers[p := ps.(online := false)])
  }

  /** Simulation::initialize: `on` is the set of peers whose draw comes up online. It runs at tick 0. */
  function Initialize(st: State, ids: seq<PeerId>, on: set<PeerId>): (r: State)
    requires Ok(st) && forall p :: p in ids ==> p in st.peers
    ensures Ok(r) && r.peers.Keys == st.peers.Keys
    decreases |ids|
  {
    if ids == [] then st else Initialize(Draw(st, ids[0], ids[0] in on), ids[1..], on)
  }

  function NewState(peers: map<PeerId, PeerState>, adjacency: map<PeerId, set<PeerId>>, config: SimConfig): State {
    State(peers, adjacency, 0, config, [], [], [], NO_STATS, [], [], [])
  }

  datatype Action = DoSend(m: Message) | DoStep(flips: set<PeerId>) | DoForce(p: PeerId, online: bool)

  function Act(st: State, a: Action): (r: Option<State>)
    requires Ok(st)
    ensures r.Some? ==> Ok(r.value)
  {
    match a
    case DoSend(m) => Some(SendMessage(st, m))
    case DoStep(flips) => Step(st, flips)
    case DoForce(p, online) => Some(Force(st, p, online))
  }

  /** A run of the public interface; None once the program has panicked. */
  function Run(st: State, actions: seq<Action>): (r: Option<State>)
    requires Ok(st)
    ensures r.Some? ==> Ok(r.value)
    decreases |actions|
  {
    if actions == [] then Some(st)
    else
      match Run(st, actions[..|actions|-1])
      case None => None
      case Some(s) => Act(s, actions[|actions|-1])
  }
}
