/** Data of the store-and-forward engine (simulation/src/types.rs and the records of simulation.rs).
    A peer is named by the code point of its letter; ticks and counters are unbounded. */
module SimTypes {
  import opened Common
  import Prophet

  type PeerId = nat

  type Payload = seq<byte>

  datatype PacketId = PacketId(source: PeerId, sequence: nat)

  /** What a sender asked for: the currency in which conservation is stated. */
  datatype Message = Message(from: PeerId, to: PeerId, payload: Payload)

  const INITIAL_TTL := 10

  datatype SealedPacket = SealedPacket(
    id: PacketId, source: PeerId, destination: PeerId, payload: Payload,
    routingHints: set<PeerId>, createdAt: nat, ttl: nat, visited: set<PeerId>)
  {
    function Content(): Message { Message(source, destination, payload) }
  }

  function NewPacket(id: PacketId, m: Message, hints: set<PeerId>, tick: nat): SealedPacket {
    SealedPacket(id, m.from, m.to, m.payload, hints, tick, INITIAL_TTL, {m.from})
  }

  datatype DropReason = TtlExpired | NoRoute | Expired | SenderOffline

  datatype NetworkEvent =
    | Awake(peer: PeerId, tick: nat)
    | Sleep(peer: PeerId, tick: nat)
    | Send(message: Message, tick: nat)
    | Relay(from: PeerId, via: PeerId, to: PeerId, packetId: PacketId, tick: nat)
    | Delivered(packetId: PacketId, to: PeerId, tick: nat)
    | BackProp(packetId: PacketId, from: PeerId, via: PeerId, to: PeerId, tick: nat)
    | Dropped(packetId: PacketId, reason: DropReason, tick: nat)

  datatype PeerState = PeerState(
    id: PeerId, online: bool, connections: set<PeerId>, inbox: seq<SealedPacket>,
    relayQueue: seq<SealedPacket>, delivered: seq<PacketId>, sequence: nat,
    lastOnlineTick: Option<nat>, prophet: Prophet.Table<PeerId>)

  function NewPeer(id: PeerId): PeerState {
    PeerState(id, false, {}, [], [], [], 0, None, map[])
  }

  datatype PendingSend = PendingSend(message: Message, createdTick: nat, retryCount: nat)

  datatype BackPropState = BackPropState(packetId: PacketId, path: seq<PeerId>, index: nat, deliveredTick: nat)

  /** The settings the transition rules read. */
  datatype SimConfig = SimConfig(
    messageTimeout: Option<nat>, backpropTimeout: Option<nat>, maxSenderRetries: Option<nat>, agingInterval: nat)

  datatype SimStats = SimStats(
    messagesSent: nat, messagesDelivered: nat, messagesDropped: nat, messagesExpired: nat, totalHops: nat,
    directDeliveries: nat, relayedDeliveries: nat, backpropsCompleted: nat, backpropsTimedOut: nat,
    wakeEvents: nat, sleepEvents: nat, totalDeliveryLatency: nat, totalBackpropLatency: nat,
    prophetRelaySelections: nat, prophetAgingCycles: nat)

  const NO_STATS := SimStats(0, 0, 0, 0, 0, 0, 0, 0, 0, 0, 0, 0, 0, 0, 0)

  /** A packet handed to its destination by the peer `via` in a tick. */
  datatype Handing = Handing(packet: SealedPacket, via: PeerId, tick: nat)

  /** A simulation state. The last three fields are history variables that no transition reads: every message ever
      queued, every message counted by messagesDropped, and every delivery with the peer that made it. */
  datatype State = State(
    peers: map<PeerId, PeerState>, adjacency: map<PeerId, set<PeerId>>, tick: nat, config: SimConfig,
    log: seq<NetworkEvent>, pending: seq<PendingSend>, backprops: seq<BackPropState>, stats: SimStats,
    sent: seq<Message>, dropped: seq<Message>, handed: seq<Handing>)

  /** What Mesh guarantees about its peers and adjacency lists. */
  ghost predicate MeshOk(peers: map<PeerId, PeerState>, adjacency: map<PeerId, set<PeerId>>) {
    && peers.Keys == adjacency.Keys
    && (forall p :: p in peers ==> peers[p].id == p && peers[p].connections == adjacency[p])
    && (forall p, q :: p in adjacency && q in adjacency[p] ==> q != p && q in adjacency && p in adjacency[q])
  }
}
