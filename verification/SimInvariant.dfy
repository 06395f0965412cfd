/** What every reachable state of the engine satisfies, and the bookkeeping those statements need. */
module SimInvariant {
  import opened Common
  import opened SimTypes
  import opened SimSpec

  // ---------------------------------------------------------------------
  // Bags of packets
  // ---------------------------------------------------------------------

  function Messages(q: seq<SealedPacket>): multiset<Message> {
    if q == [] then multiset{} else Messages(q[..|q|-1]) + multiset{q[|q|-1].Content()}
  }

  function Ids(q: seq<SealedPacket>): multiset<PacketId> {
    if q == [] then multiset{} else Ids(q[..|q|-1]) + multiset{q[|q|-1].id}
  }

  function Requests(s: seq<PendingSend>): multiset<Message> {
    if s == [] then multiset{} else Requests(s[..|s|-1]) + multiset{s[|s|-1].message}
  }

  function IdList(q: seq<SealedPacket>): seq<PacketId> {
    if q == [] then [] else IdList(q[..|q|-1]) + [q[|q|-1].id]
  }

  /** The packets one peer, or a list of peers, holds: queued for relay and filed in inboxes. */
  datatype Bag = Bag(
    queued: multiset<Message>, filed: multiset<Message>, queuedIds: multiset<PacketId>, filedIds: multiset<PacketId>)

  const EMPTY := Bag(multiset{}, multiset{}, multiset{}, multiset{})

  function BagOf(ps: PeerState): Bag {
    Bag(Messages(ps.relayQueue), Messages(ps.inbox), Ids(ps.relayQueue), Ids(ps.inbox))
  }

  function Plus(a: Bag, b: Bag): Bag {
    Bag(a.queued + b.queued, a.filed + b.filed, a.queuedIds + b.queuedIds, a.filedIds + b.filedIds)
  }

  function Tally(peers: map<PeerId, PeerState>, ids: seq<PeerId>): Bag
    requires forall p :: p in ids ==> p in peers
  {
    if ids == [] then EMPTY else Plus(BagOf(peers[ids[0]]), Tally(peers, ids[1..]))
  }

  function Total(peers: map<PeerId, PeerState>): Bag { Tally(peers, Sorted(peers.Keys)) }

  lemma {:induction false} TallyUpdate(peers: map<PeerId, PeerState>, ids: seq<PeerId>, p: PeerId, ps: PeerState)
    requires StrictlyAscending(ids) && p in peers && forall x :: x in ids ==> x in peers
    ensures p !in ids ==> Tally(peers[p := ps], ids) == Tally(peers, ids)
    ensures p in ids ==> Plus(Tally(peers[p := ps], ids), BagOf(peers[p])) == Plus(Tally(peers, ids), BagOf(ps))
  {
    if ids != [] {
      var rest := ids[1..];
      assert p in ids <==> p == ids[0] || p in rest;
      TallyUpdate(peers, rest, p, ps);
      if p == ids[0] {
        assert p !in rest;
        PlusSwap(BagOf(ps), Tally(peers, rest), BagOf(peers[p]));
      } else if p in rest {
        PlusAssociates(BagOf(peers[ids[0]]), Tally(peers[p := ps], rest), BagOf(peers[p]));
        PlusAssociates(BagOf(peers[ids[0]]), Tally(peers, rest), BagOf(ps));
      }
    }
  }

  lemma PlusAssociates(a: Bag, b: Bag, c: Bag)
    ensures Plus(Plus(a, b), c) == Plus(a, Plus(b, c))
  {
  }

  lemma PlusSwap(a: Bag, b: Bag, c: Bag)
    ensures Plus(Plus(a, b), c) == Plus(Plus(c, b), a)
  {
  }

  lemma TotalUpdate(peers: map<PeerId, PeerState>, p: PeerId, ps: PeerState)
    requires p in peers
    ensures Plus(Total(peers[p := ps]), BagOf(peers[p])) == Plus(Total(peers), BagOf(ps))
  {
    assert peers[p := ps].Keys == peers.Keys;
    TallyUpdate(peers, Sorted(peers.Keys), p, ps);
  }

  lemma {:induction false} TallyHas(peers: map<PeerId, PeerState>, ids: seq<PeerId>, p: PeerId)
    requires p in ids && forall x :: x in ids ==> x in peers
    ensures BagOf(peers[p]).queuedIds <= Tally(peers, ids).queuedIds
    ensures BagOf(peers[p]).filedIds <= Tally(peers, ids).filedIds
  {
    if p != ids[0] { TallyHas(peers, ids[1..], p); }
  }

  lemma {:induction false} IdsHas(q: seq<SealedPacket>, pk: SealedPacket)
    requires pk in q
    ensures pk.id in Ids(q)
  {
    if q[|q|-1] != pk { IdsHas(q[..|q|-1], pk); }
  }

  /** Every packet in a queue or inbox is counted. */
  lemma TotalHas(peers: map<PeerId, PeerState>, p: PeerId, pk: SealedPacket)
    requires p in peers
    ensures pk in peers[p].relayQueue ==> pk.id in Total(peers).queuedIds
    ensures pk in peers[p].inbox ==> pk.id in Total(peers).filedIds
  {
    TallyHas(peers, Sorted(peers.Keys), p);
    if pk in peers[p].relayQueue { IdsHas(peers[p].relayQueue, pk); }
    if pk in peers[p].inbox { IdsHas(peers[p].inbox, pk); }
  }

  lemma BagAppend(q: seq<SealedPacket>, pk: SealedPacket)
    ensures Messages(q + [pk]) == Messages(q) + multiset{pk.Content()}
    ensures Ids(q + [pk]) == Ids(q) + multiset{pk.id}
    ensures IdList(q + [pk]) == IdList(q) + [pk.id]
  {
    assert (q + [pk])[..|q|] == q;
  }

  lemma RequestsAppend(s: seq<PendingSend>, x: PendingSend)
    ensures Requests(s + [x]) == Requests(s) + multiset{x.message}
  {
    assert (s + [x])[..|s|] == s;
  }

  lemma {:induction false} RequestsFirst(s: seq<PendingSend>)
    requires s != []
    ensures Requests(s) == multiset{s[0].message} + Requests(s[1..])
  {
    var n := |s| - 1;
    if n == 0 {
      assert Requests(s[..0]) == multiset{} == Requests(s[1..]);
    } else {
      var front, last := s[..n], multiset{s[n].message};
      RequestsFirst(front);
      assert s[1..] == front[1..] + [s[n]];
      RequestsAppend(front[1..], s[n]);
      assert front[0] == s[0];
      calc {
        Requests(s);
        Requests(front) + last;
        (multiset{s[0].message} + Requests(front[1..])) + last;
        multiset{s[0].message} + (Requests(front[1..]) + last);
      }
    }
  }

  lemma {:induction false} RetainAbsent(q: seq<SealedPacket>, id: PacketId)
    requires id !in Ids(q)
    ensures Retain(q, id) == q
  {
    if q != [] { RetainAbsent(q[..|q|-1], id); }
  }

  /** Removing an id that occurs once removes exactly its packet. */
  lemma {:induction false} RetainOnce(q: seq<SealedPacket>, pk: SealedPacket)
    requires pk in q && Ids(q)[pk.id] <= 1
    ensures Messages(q) == Messages(Retain(q, pk.id)) + multiset{pk.Content()}
    ensures Ids(q) == Ids(Retain(q, pk.id)) + multiset{pk.id}
  {
    var n := |q| - 1;
    var front, last := q[..n], q[n];
    assert Ids(q) == Ids(front) + multiset{last.id};
    if last == pk {
      RetainAbsent(front, pk.id);
      assert Retain(q, pk.id) == front;
    } else {
      assert pk in front;
      IdsHas(front, pk);
      assert last.id != pk.id;
      RetainOnce(front, pk);
      var kept := Retain(front, pk.id);
      assert Retain(q, pk.id) == kept + [last];
      BagAppend(kept, last);
      Swap(Messages(kept), multiset{pk.Content()}, multiset{last.Content()});
      Swap(Ids(kept), multiset{pk.id}, multiset{last.id});
    }
  }

  lemma Swap<T>(a: multiset<T>, x: multiset<T>, y: multiset<T>)
    ensures (a + x) + y == (a + y) + x
  {
  }

  lemma {:induction false} RetainMembers(q: seq<SealedPacket>, id: PacketId)
    ensures forall pk :: pk in Retain(q, id) <==> pk in q && pk.id != id
  {
    if q != [] {
      RetainMembers(q[..|q|-1], id);
      assert q == q[..|q|-1] + [q[|q|-1]];
    }
  }

  lemma Cancel<T>(a: multiset<T>, b: multiset<T>, c: multiset<T>, x: multiset<T>)
    requires a + b == c + (b + x)
    ensures a == c + x
  {
    forall k ensures a[k] == (c + x)[k] {
      assert (a + b)[k] == (c + (b + x))[k];
    }
  }

  lemma CancelBag(a: Bag, b: Bag, c: Bag, x: Bag)
    requires Plus(a, b) == Plus(c, Plus(b, x))
    ensures a == Plus(c, x)
  {
    Cancel(a.queued, b.queued, c.queued, x.queued);
    Cancel(a.filed, b.filed, c.filed, x.filed);
    Cancel(a.queuedIds, b.queuedIds, c.queuedIds, x.queuedIds);
    Cancel(a.filedIds, b.filedIds, c.filedIds, x.filedIds);
  }

  function OneQueued(pk: SealedPacket): Bag { Bag(multiset{pk.Content()}, multiset{}, multiset{pk.id}, multiset{}) }

  function OneFiled(pk: SealedPacket): Bag { Bag(multiset{}, multiset{pk.Content()}, multiset{}, multiset{pk.id}) }

  /** What one peer gains or loses, the total gains or loses. */
  lemma TotalGrows(peers: map<PeerId, PeerState>, p: PeerId, ps: PeerState, x: Bag)
    requires p in peers && BagOf(ps) == Plus(BagOf(peers[p]), x)
    ensures Total(peers[p := ps]) == Plus(Total(peers), x)
  {
    hide Total;
    TotalUpdate(peers, p, ps);
    CancelBag(Total(peers[p := ps]), BagOf(peers[p]), Total(peers), x);
  }

  lemma TotalShrinks(peers: map<PeerId, PeerState>, p: PeerId, ps: PeerState, x: Bag)
    requires p in peers && BagOf(peers[p]) == Plus(BagOf(ps), x)
    ensures Total(peers) == Plus(Total(peers[p := ps]), x)
  {
    hide Total;
    TotalUpdate(peers, p, ps);
    CancelBag(Total(peers), BagOf(ps), Total(peers[p := ps]), x);
  }

  lemma TotalSame(peers: map<PeerId, PeerState>, p: PeerId, ps: PeerState)
    requires p in peers && ps.relayQueue == peers[p].relayQueue && ps.inbox == peers[p].inbox
    ensures Total(peers[p := ps]) == Total(peers)
  {
    assert forall b: Bag {:trigger Plus(b, EMPTY)} :: Plus(b, EMPTY) == b;
    TotalGrows(peers, p, ps, EMPTY);
  }

  lemma BagEnqueued(was: PeerState, now: PeerState, pk: SealedPacket)
    requires now.relayQueue == was.relayQueue + [pk] && now.inbox == was.inbox
    ensures BagOf(now) == Plus(BagOf(was), OneQueued(pk))
  {
    hide Messages, Ids;
    BagAppend(was.relayQueue, pk);
  }

  lemma BagFiled(was: PeerState, now: PeerState, pk: SealedPacket)
    requires now.inbox == was.inbox + [pk] && now.relayQueue == was.relayQueue
    ensures BagOf(now) == Plus(BagOf(was), OneFiled(pk))
  {
    hide Messages, Ids;
    BagAppend(was.inbox, pk);
  }

  lemma TotalEnqueued(peers: map<PeerId, PeerState>, p: PeerId, ps: PeerState, pk: SealedPacket)
    requires p in peers && ps.relayQueue == peers[p].relayQueue + [pk] && ps.inbox == peers[p].inbox
    ensures Total(peers[p := ps]) == Plus(Total(peers), OneQueued(pk))
  {
    hide Total, BagOf, OneQueued, Plus;
    BagEnqueued(peers[p], ps, pk);
    TotalGrows(peers, p, ps, OneQueued(pk));
  }

  lemma TotalFiled(peers: map<PeerId, PeerState>, p: PeerId, ps: PeerState, pk: SealedPacket)
    requires p in peers && ps.inbox == peers[p].inbox + [pk] && ps.relayQueue == peers[p].relayQueue
    ensures Total(peers[p := ps]) == Plus(Total(peers), OneFiled(pk))
  {
    hide Total, BagOf, OneFiled, Plus;
    BagFiled(peers[p], ps, pk);
    TotalGrows(peers, p, ps, OneFiled(pk));
  }

  lemma TotalRetained(peers: map<PeerId, PeerState>, p: PeerId, ps: PeerState, pk: SealedPacket)
    requires p in peers && pk in peers[p].relayQueue && Total(peers).queuedIds[pk.id] <= 1
    requires ps.relayQueue == Retain(peers[p].relayQueue, pk.id) && ps.inbox == peers[p].inbox
    ensures Total(peers) == Plus(Total(peers[p := ps]), OneQueued(pk))
  {
    AtMostAsMany(peers, p, pk.id);
    BagRetained(peers[p], ps, pk);
    TotalShrinks(peers, p, ps, OneQueued(pk));
  }

  lemma AtMostAsMany(peers: map<PeerId, PeerState>, p: PeerId, id: PacketId)
    requires p in peers
    ensures Ids(peers[p].relayQueue)[id] <= Total(peers).queuedIds[id]
    ensures Ids(peers[p].inbox)[id] <= Total(peers).filedIds[id]
  {
    TallyHas(peers, Sorted(peers.Keys), p);
  }

  lemma BagRetained(was: PeerState, now: PeerState, pk: SealedPacket)
    requires pk in was.relayQueue && Ids(was.relayQueue)[pk.id] <= 1
    requires now.relayQueue == Retain(was.relayQueue, pk.id) && now.inbox == was.inbox
    ensures BagOf(was) == Plus(BagOf(now), OneQueued(pk))
  {
    RetainOnce(was.relayQueue, pk);
  }

  // ---------------------------------------------------------------------
  // What the event log says
  // ---------------------------------------------------------------------

  function DeliveredTo(log: seq<NetworkEvent>, p: PeerId): seq<PacketId> {
    if log == [] then []
    else
      var e := log[|log|-1];
      DeliveredTo(log[..|log|-1], p) + if e.Delivered? && e.to == p then [e.packetId] else []
  }

  function DeliveredCount(log: seq<NetworkEvent>): nat {
    if log == [] then 0 else DeliveredCount(log[..|log|-1]) + if log[|log|-1].Delivered? then 1 else 0
  }

  function DroppedCount(log: seq<NetworkEvent>): nat {
    if log == [] then 0 else DroppedCount(log[..|log|-1]) + if log[|log|-1].Dropped? then 1 else 0
  }

  function RelayCount(log: seq<NetworkEvent>, id: PacketId): nat {
    if log == [] then 0
    else
      var e := log[|log|-1];
      RelayCount(log[..|log|-1], id) + if e.Relay? && e.packetId == id then 1 else 0
  }

  /** Online according to the last wake or sleep event of p; peers start offline. */
  predicate AwakeIn(log: seq<NetworkEvent>, p: PeerId) {
    if log == [] then false
    else
      var e := log[|log|-1];
      if e.Awake? && e.peer == p then true
      else if e.Sleep? && e.peer == p then false
      else AwakeIn(log[..|log|-1], p)
  }

  /** Deliveries go to peers the log shows awake; relays go along an edge between two awake peers, confirmations from an
      awake peer to an awake peer; nothing is ever dropped for want of a route. */
  ghost predicate EventSound(adjacency: map<PeerId, set<PeerId>>, past: seq<NetworkEvent>, e: NetworkEvent) {
    match e
    case Delivered(_, to, _) => AwakeIn(past, to)
    case Relay(from, via, _, _, _) =>
      from in adjacency && via in adjacency[from] && AwakeIn(past, from) && AwakeIn(past, via)
    case BackProp(_, from, via, to, _) => via == from && AwakeIn(past, from) && AwakeIn(past, to)
    case Dropped(_, reason, _) => reason != NoRoute && (reason == TtlExpired ==> |adjacency| >= INITIAL_TTL + 2)
    case _ => true
  }

  ghost predicate LogSound(adjacency: map<PeerId, set<PeerId>>, log: seq<NetworkEvent>) {
    log != [] ==> LogSound(adjacency, log[..|log|-1]) && EventSound(adjacency, log[..|log|-1], log[|log|-1])
  }

  /** The Delivered events, in order. */
  function DeliveriesIn(log: seq<NetworkEvent>): seq<NetworkEvent> {
    if log == [] then []
    else DeliveriesIn(log[..|log|-1]) + if log[|log|-1].Delivered? then [log[|log|-1]] else []
  }

  /** How each reading of the log changes when one event is appended. */
  lemma LogStep(adjacency: map<PeerId, set<PeerId>>, log: seq<NetworkEvent>, e: NetworkEvent)
    ensures forall p :: DeliveredTo(log + [e], p) == DeliveredTo(log, p) + if e.Delivered? && e.to == p then [e.packetId] else []
    ensures DeliveredCount(log + [e]) == DeliveredCount(log) + if e.Delivered? then 1 else 0
    ensures DeliveriesIn(log + [e]) == DeliveriesIn(log) + if e.Delivered? then [e] else []
    ensures DroppedCount(log + [e]) == DroppedCount(log) + if e.Dropped? then 1 else 0
    ensures forall id :: RelayCount(log + [e], id) == RelayCount(log, id) + if e.Relay? && e.packetId == id then 1 else 0
    ensures forall p :: AwakeIn(log + [e], p) ==
              if e.Awake? && e.peer == p then true else if e.Sleep? && e.peer == p then false else AwakeIn(log, p)
    ensures LogSound(adjacency, log + [e]) <==> LogSound(adjacency, log) && EventSound(adjacency, log, e)
  {
    assert (log + [e])[..|log|] == log;
  }

  // ---------------------------------------------------------------------
  // The invariant
  // ---------------------------------------------------------------------

  ghost predicate Issued(peers: map<PeerId, PeerState>, id: PacketId) {
    id.source in peers && id.sequence < peers[id.source].sequence
  }

  /** Everything between a sender's outbox and a receiver's inbox, the packet in hand included. */
  function InNetwork(peers: map<PeerId, PeerState>, hand: seq<SealedPacket>): multiset<Message> {
    Messages(hand) + Total(peers).queued + Total(peers).filed
  }

  /** How far a tick has come with the pending sends: those taken out and not yet processed, and whether
      the ones still queued await this tick's attempt. */
  datatype Draining = Draining(rest: seq<PendingSend>, late: bool)

  const DONE := Draining([], false)

  function Next(s: PendingSend, dr: Draining): Draining { dr.(rest := [s] + dr.rest) }

  /** No message is lost or invented. `hand` is the packet being moved. */
  ghost predicate Conserved(st: State, hand: seq<SealedPacket>, dr: Draining) {
    multiset(st.sent) == Requests(dr.rest) + Requests(st.pending) + multiset(st.dropped) + InNetwork(st.peers, hand)
  }

  // What the recorded deliveries add up to: the events they were logged as, how many were direct, how many peers the
  // packets had visited, and how long they had been under way.

  function EventsOf(handed: seq<Handing>): seq<NetworkEvent> {
    if handed == [] then []
    else
      var h := handed[|handed|-1];
      EventsOf(handed[..|handed|-1]) + [Delivered(h.packet.id, h.packet.destination, h.tick)]
  }

  function DirectOnes(handed: seq<Handing>): nat {
    if handed == [] then 0 else DirectOnes(handed[..|handed|-1]) + if |handed[|handed|-1].packet.visited| == 1 then 1 else 0
  }

  function HopsOf(handed: seq<Handing>): nat {
    if handed == [] then 0 else HopsOf(handed[..|handed|-1]) + |handed[|handed|-1].packet.visited|
  }

  function LatencyOf(handed: seq<Handing>): int {
    if handed == [] then 0
    else LatencyOf(handed[..|handed|-1]) + handed[|handed|-1].tick - handed[|handed|-1].packet.createdAt
  }

  ghost predicate HandedOk(log: seq<NetworkEvent>, stats: SimStats, handed: seq<Handing>) {
    && DeliveriesIn(log) == EventsOf(handed) && |handed| == stats.messagesDelivered
    && stats.directDeliveries == DirectOnes(handed) && stats.relayedDeliveries == |handed| - DirectOnes(handed)
    && stats.totalHops == HopsOf(handed) && stats.totalDeliveryLatency == LatencyOf(handed)
  }

  lemma OneMoreHanded(handed: seq<Handing>, h: Handing)
    ensures EventsOf(handed + [h]) == EventsOf(handed) + [Delivered(h.packet.id, h.packet.destination, h.tick)]
    ensures DirectOnes(handed + [h]) == DirectOnes(handed) + if |h.packet.visited| == 1 then 1 else 0
    ensures HopsOf(handed + [h]) == HopsOf(handed) + |h.packet.visited|
    ensures LatencyOf(handed + [h]) == LatencyOf(handed) + h.tick - h.packet.createdAt
  {
    assert (handed + [h])[..|handed|] == handed;
  }

  /** The counters agree with what they count. */
  ghost predicate StatsOk(st: State) {
    && |Total(st.peers).filed| == st.stats.messagesDelivered == DeliveredCount(st.log)
    && |st.dropped| == st.stats.messagesDropped == DroppedCount(st.log)
    && |st.sent| == st.stats.messagesSent && HandedOk(st.log, st.stats, st.handed)
  }

  /** Each issued id is in at most one place, an id not yet issued in none. */
  ghost predicate SingleCopy(peers: map<PeerId, PeerState>, hand: seq<SealedPacket>) {
    CopiesOk(peers, Total(peers).queuedIds, Total(peers).filedIds, Ids(hand))
  }

  ghost predicate CopiesOk(peers: map<PeerId, PeerState>, queued: multiset<PacketId>, filed: multiset<PacketId>, held: multiset<PacketId>) {
    forall id :: queued[id] + filed[id] + held[id] <= if Issued(peers, id) then 1 else 0
  }

  ghost predicate PacketOk(keys: set<PeerId>, tick: nat, pk: SealedPacket) {
    && pk.id.source == pk.source && pk.source in pk.visited && pk.visited <= keys
    && |pk.visited| + pk.ttl == INITIAL_TTL + 1 && pk.createdAt <= tick
    && (pk.destination in pk.visited ==> pk.destination == pk.source)
  }

  /** The delivery of this packet is on record. */
  ghost predicate Recorded(handed: seq<Handing>, pk: SealedPacket) { exists v, t :: Handing(pk, v, t) in handed }

  /** Every delivery was made by a peer the packet had visited, next to its destination. */
  ghost predicate HandingsOk(adjacency: map<PeerId, set<PeerId>>, handed: seq<Handing>) {
    forall h :: h in handed ==> h.via in h.packet.visited && h.via in adjacency && h.packet.destination in adjacency[h.via]
  }

  ghost predicate QueueOk(keys: set<PeerId>, tick: nat, p: PeerId, q: seq<SealedPacket>) {
    forall pk :: pk in q ==> PacketOk(keys, tick, pk) && p in pk.visited
  }

  ghost predicate InboxOk(keys: set<PeerId>, handed: seq<Handing>, tick: nat, p: PeerId, q: seq<SealedPacket>) {
    forall pk :: pk in q ==> PacketOk(keys, tick, pk) && pk.destination == p && Recorded(handed, pk)
  }

  ghost predicate PeersOk(peers: map<PeerId, PeerState>, handed: seq<Handing>, tick: nat) {
    forall p :: p in peers ==>
      && QueueOk(peers.Keys, tick, p, peers[p].relayQueue)
      && InboxOk(peers.Keys, handed, tick, p, peers[p].inbox)
  }

  /** The log shows as many relays of a live packet as it has visited peers beyond its source. */
  ghost predicate Counted(log: seq<NetworkEvent>, q: seq<SealedPacket>) {
    forall pk :: pk in q ==> RelayCount(log, pk.id) == |pk.visited| - 1
  }

  ghost predicate RelaysOk(peers: map<PeerId, PeerState>, log: seq<NetworkEvent>) {
    (forall p :: p in peers ==> Counted(log, peers[p].relayQueue) && Counted(log, peers[p].inbox)) && CountsOk(peers, log)
  }

  /** No relay of a packet not yet issued, and none beyond the hop budget or the number of peers. */
  ghost predicate CountsOk(peers: map<PeerId, PeerState>, log: seq<NetworkEvent>) {
    && (forall id :: !Issued(peers, id) ==> RelayCount(log, id) == 0)
    && (forall id :: RelayCount(log, id) <= INITIAL_TTL && (RelayCount(log, id) > 0 ==> RelayCount(log, id) < |peers|))
  }

  /** The log determines delivered lists and online flags. */
  ghost predicate LogOk(peers: map<PeerId, PeerState>, adjacency: map<PeerId, set<PeerId>>, log: seq<NetworkEvent>) {
    && (forall p :: p in peers ==>
          && peers[p].delivered == DeliveredTo(log, p) == IdList(peers[p].inbox)
          && peers[p].online == AwakeIn(log, p))
    && LogSound(adjacency, log)
  }

  ghost predicate HandOk(st: State, hand: seq<SealedPacket>) {
    (forall pk :: pk in hand ==> PacketOk(st.peers.Keys, st.tick, pk)) && Counted(st.log, hand)
  }

  predicate Within(n: nat, limit: Option<nat>) { limit.None? || n <= limit.value }

  /** Retries run out before the timeout can. */
  predicate NeverExpires(c: SimConfig) {
    c.messageTimeout.None? || (c.maxSenderRetries.Some? && c.maxSenderRetries.value < c.messageTimeout.value)
  }

  /** A send of this age has been retried once per tick, and not beyond either limit. */
  ghost predicate SendOk(c: SimConfig, age: int, s: PendingSend) {
    s.createdTick + s.retryCount == age && Within(s.retryCount, c.maxSenderRetries) && Within(s.retryCount, c.messageTimeout)
  }

  ghost predicate PendingOk(st: State, dr: Draining) {
    && (forall s :: s in st.pending ==> SendOk(st.config, if dr.late then st.tick - 1 else st.tick, s))
    && (forall s :: s in dr.rest ==> SendOk(st.config, st.tick - 1, s))
    && (NeverExpires(st.config) ==> st.stats.messagesExpired == 0)
  }

  ghost predicate BackpropOk(tick: nat, b: BackPropState) {
    |b.path| >= 2 && b.index <= |b.path| - 1 && b.deliveredTick <= tick && StrictlyAscending(b.path)
  }

  ghost predicate BackpropsOk(bs: seq<BackPropState>, tick: nat, filed: multiset<PacketId>) {
    && (forall i :: 0 <= i < |bs| ==> BackpropOk(tick, bs[i]) && bs[i].packetId in filed)
    && (forall i, j :: 0 <= i < j < |bs| ==> bs[i].deliveredTick <= bs[j].deliveredTick && bs[i].packetId != bs[j].packetId)
  }

  ghost predicate Inv(st: State, hand: seq<SealedPacket>, dr: Draining) {
    && Ok(st) && Conserved(st, hand, dr) && StatsOk(st) && SingleCopy(st.peers, hand)
    && PeersOk(st.peers, st.handed, st.tick) && RelaysOk(st.peers, st.log) && HandOk(st, hand)
    && LogOk(st.peers, st.adjacency, st.log) && PendingOk(st, dr)
    && BackpropsOk(st.backprops, st.tick, Total(st.peers).filedIds) && HandingsOk(st.adjacency, st.handed)
  }
}
