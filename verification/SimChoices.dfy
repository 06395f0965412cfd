/** What single moves of the engine decide and change: the choice of a relay, the fate of a send, a delivery, the hops of
    confirmations, and aging. */
module SimChoices {
  import opened Common
  import opened SimTypes
  import opened SimSpec
  import opened SimInvariant
  import opened SimBackprops
  import opened SimRuns
  import Prophet

  // ---------------------------------------------------------------------
  // Who may relay, and who does
  // ---------------------------------------------------------------------

  /** An online neighbour of the holder that the packet has not visited. */
  ghost predicate MayRelay(st: State, pk: SealedPacket, holder: PeerId, n: PeerId) {
    && holder in st.adjacency && n in st.adjacency[holder] && n !in pk.visited
    && n in st.peers && st.peers[n].online
  }

  function Likelihood(st: State, holder: PeerId, d: PeerId): real
    requires holder in st.peers
  {
    if d in st.peers[holder].prophet then st.peers[holder].prophet[d] else 0.0
  }

  /** The holder meets n more probably than the destination. */
  ghost predicate Promising(st: State, pk: SealedPacket, holder: PeerId, n: PeerId)
    requires holder in st.peers
  {
    n != holder && n != pk.destination && Likelihood(st, holder, n) > Likelihood(st, holder, pk.destination)
  }

  ghost predicate NextTo(st: State, d: PeerId, n: PeerId) { d in st.adjacency && n in st.adjacency[d] }

  ghost predicate SomePromising(st: State, pk: SealedPacket, holder: PeerId)
    requires holder in st.peers
  {
    exists n :: MayRelay(st, pk, holder, n) && Promising(st, pk, holder, n)
  }

  ghost predicate SomeHinted(st: State, pk: SealedPacket, holder: PeerId) {
    exists n :: MayRelay(st, pk, holder, n) && n in pk.routingHints
  }

  ghost predicate SomeNear(st: State, pk: SealedPacket, holder: PeerId) {
    exists n :: MayRelay(st, pk, holder, n) && NextTo(st, pk.destination, n)
  }

  /** The four priorities: the most promising relay, of equals the last; else the first hinted one; else the first one next
      to the destination; else the first one. */
  ghost predicate Chosen(st: State, pk: SealedPacket, holder: PeerId, via: PeerId)
    requires holder in st.peers
  {
    && MayRelay(st, pk, holder, via)
    && (SomePromising(st, pk, holder) ==>
          && Promising(st, pk, holder, via)
          && forall n: PeerId :: MayRelay(st, pk, holder, n) && Promising(st, pk, holder, n) && n != via ==>
               || Likelihood(st, holder, n) < Likelihood(st, holder, via)
               || (Likelihood(st, holder, n) == Likelihood(st, holder, via) && n < via))
    && (!SomePromising(st, pk, holder) && SomeHinted(st, pk, holder) ==>
          via in pk.routingHints && forall n: PeerId :: MayRelay(st, pk, holder, n) && n in pk.routingHints ==> via <= n)
    && (!SomePromising(st, pk, holder) && !SomeHinted(st, pk, holder) && SomeNear(st, pk, holder) ==>
          NextTo(st, pk.destination, via) && forall n: PeerId :: MayRelay(st, pk, holder, n) && NextTo(st, pk.destination, n) ==> via <= n)
    && (!SomePromising(st, pk, holder) && !SomeHinted(st, pk, holder) && !SomeNear(st, pk, holder) ==>
          forall n: PeerId :: MayRelay(st, pk, holder, n) ==> via <= n)
  }

  /** The priorities leave no choice. */
  lemma ChosenIsUnique(st: State, pk: SealedPacket, holder: PeerId, a: PeerId, b: PeerId)
    requires holder in st.peers && Chosen(st, pk, holder, a) && Chosen(st, pk, holder, b)
    ensures a == b
  {
    hide MayRelay, Promising, NextTo;
  }

  /** The candidate list of the code: the possible relays in ascending order. */
  function CandidateList(st: State, pk: SealedPacket, holder: PeerId): seq<PeerId> {
    Candidates(st, pk, Sorted(Neighbors(st, holder)))
  }

  lemma {:induction false} CandidatesAscend(st: State, pk: SealedPacket, ns: seq<PeerId>)
    requires StrictlyAscending(ns)
    ensures StrictlyAscending(Candidates(st, pk, ns))
  {
    if ns != [] {
      var n := |ns| - 1;
      CandidatesAscend(st, pk, ns[..n]);
      var front := Candidates(st, pk, ns[..n]);
      forall i | 0 <= i < |front| ensures front[i] < ns[n] {
        assert front[i] in ns[..n];
        var k :| 0 <= k < n && ns[k] == front[i];
      }
    }
  }

  lemma CandidatesExactly(st: State, pk: SealedPacket, holder: PeerId)
    ensures StrictlyAscending(CandidateList(st, pk, holder))
    ensures forall n :: n in CandidateList(st, pk, holder) <==> MayRelay(st, pk, holder, n)
  {
    hide Sorted, Candidates;
    CandidatesAscend(st, pk, Sorted(Neighbors(st, holder)));
  }

  lemma {:induction false} FirstIsLeast(c: seq<PeerId>, s: set<PeerId>)
    requires StrictlyAscending(c)
    ensures FirstIn(c, s).Some? ==> forall n :: n in c && n in s ==> FirstIn(c, s).value <= n
  {
    if c != [] {
      assert forall n :: n in c ==> n == c[0] || n in c[1..];
      if c[0] !in s { FirstIsLeast(c[1..], s); }
    }
  }

  lemma ProphetChoosesExactly(st: State, pk: SealedPacket, holder: PeerId, c: seq<PeerId>)
    requires Ok(st) && holder in st.peers && StrictlyAscending(c)
    ensures ProphetChoice(st, pk, holder, c).Some? <==> exists n :: n in c && Promising(st, pk, holder, n)
    ensures var r := ProphetChoice(st, pk, holder, c);
            r.Some? ==>
              && Promising(st, pk, holder, r.value)
              && forall n: PeerId :: n in c && Promising(st, pk, holder, n) && n != r.value ==>
                   || Likelihood(st, holder, n) < Likelihood(st, holder, r.value)
                   || (Likelihood(st, holder, n) == Likelihood(st, holder, r.value) && n < r.value)
  {
    hide Prophet.BestCandidate;
    var t, d := st.peers[holder].prophet, pk.destination;
    Prophet.BestCandidateIsExact(holder, t, d, c);
    assert forall n :: Prophet.ShouldForwardTo(holder, t, d, n) <==> Promising(st, pk, holder, n);
    var r := Prophet.BestCandidate(holder, t, d, c);
    if r.Some? {
      var k :| 0 <= k < |c| && c[k] == r.value &&
               forall i :: k < i < |c| && c[i] != holder && c[i] != d ==> Prophet.Probability(t, c[i]) < Prophet.Probability(t, r.value);
      forall n | n in c && Promising(st, pk, holder, n) && n != r.value
        ensures || Likelihood(st, holder, n) < Likelihood(st, holder, r.value)
                || (Likelihood(st, holder, n) == Likelihood(st, holder, r.value) && n < r.value)
      {
        var i :| 0 <= i < |c| && c[i] == n;
      }
    }
  }

  lemma SelectsExactly(st: State, pk: SealedPacket, holder: PeerId)
    requires Ok(st) && holder in st.peers
    ensures var r := SelectRelay(st, pk, holder, CandidateList(st, pk, holder));
            && (r.None? <==> forall n :: !MayRelay(st, pk, holder, n))
            && (r.Some? ==> Chosen(st, pk, holder, r.value))
    ensures ProphetChoice(st, pk, holder, CandidateList(st, pk, holder)).Some? <==> SomePromising(st, pk, holder)
  {
    hide MayRelay, Promising, Likelihood, CandidateList, FirstIn, ProphetChoice, Ok;
    var c := CandidateList(st, pk, holder);
    CandidatesExactly(st, pk, holder);
    ProphetChoosesExactly(st, pk, holder, c);
    FirstIsLeast(c, pk.routingHints);
    FirstIsLeast(c, Neighbors(st, pk.destination));
    if c != [] {
      assert c[0] in c;
      forall n | n in c ensures c[0] <= n { var i :| 0 <= i < |c| && c[i] == n; }
    }
  }

  /** The packet waits at the end of this peer's queue; nothing else has happened. */
  ghost predicate HeldAt(st: State, r: State, p: PeerId, pk: SealedPacket)
    requires p in st.peers
  {
    r == st.(peers := st.peers[p := st.peers[p].(relayQueue := st.peers[p].relayQueue + [pk])])
  }

  /** The packet, one hop poorer, waits at the end of the relay's queue, and the holder has met the relay. */
  ghost predicate PassedTo(st: State, r: State, pk: SealedPacket, holder: PeerId, via: PeerId)
    requires holder in st.peers && pk.ttl > 0
  {
    && r == st.(peers := r.peers, log := r.log, stats := r.stats)
    && r.log == st.log + [Relay(holder, via, pk.destination, pk.id, st.tick)]
    && r.peers.Keys == st.peers.Keys
    && forall p :: p in st.peers ==>
         r.peers[p] == st.peers[p].(
           relayQueue := if p == via then st.peers[p].relayQueue + [pk.(ttl := pk.ttl - 1, visited := pk.visited + {via})]
                         else st.peers[p].relayQueue,
           prophet := if p == holder then Prophet.Encounter(Prophet.DEFAULT, holder, st.peers[p].prophet, via)
                      else st.peers[p].prophet)
  }

  lemma RelayToPasses(st: State, pk: SealedPacket, holder: PeerId, via: PeerId)
    requires Ok(st) && holder in st.peers && via in st.peers && pk.ttl > 0
    ensures PassedTo(st, RelayTo(st, pk, holder, via), pk, holder, via) && RelayTo(st, pk, holder, via).stats == st.stats
  {
    assert st.peers[holder].id == holder;
  }

  lemma PassedWith(st: State, stats: SimStats, r: State, pk: SealedPacket, holder: PeerId, via: PeerId)
    requires holder in st.peers && pk.ttl > 0 && PassedTo(st.(stats := stats), r, pk, holder, via)
    ensures PassedTo(st, r, pk, holder, via)
  {
  }

  /** Relay selection, all outcomes: without a possible relay the packet is held; without hops left it is dropped; otherwise
      the relay chosen by the priorities gets it. Selections made by PRoPHET are counted in either case. */
  lemma RelaysExactly(st: State, pk: SealedPacket, holder: PeerId)
    requires Ok(st) && holder in st.peers
    ensures var r := FindRelayPath(st, pk, holder);
            && ((forall n :: !MayRelay(st, pk, holder, n)) ==> HeldAt(st, r, holder, pk))
            && ((exists n :: MayRelay(st, pk, holder, n)) && pk.ttl == 0 ==>
                  && r == st.(log := st.log + [Dropped(pk.id, TtlExpired, st.tick)], dropped := st.dropped + [pk.Content()], stats := r.stats)
                  && r.stats.messagesDropped == st.stats.messagesDropped + 1)
            && ((exists n :: MayRelay(st, pk, holder, n)) && pk.ttl > 0 ==>
                  exists via :: Chosen(st, pk, holder, via) && PassedTo(st, r, pk, holder, via))
            && r.stats.prophetRelaySelections == st.stats.prophetRelaySelections + if SomePromising(st, pk, holder) then 1 else 0
  {
    hide MayRelay, Promising, Likelihood, SelectRelay, ProphetChoice, Chosen, PassedTo, RelayTo, MeshOk, Frame, Candidates, Sorted;
    var c := CandidateList(st, pk, holder);
    SelectsExactly(st, pk, holder);
    CandidatesExactly(st, pk, holder);
    var counted := st.(stats := CountSelection(st.stats, ProphetChoice(st, pk, holder, c).Some?));
    var chosen := SelectRelay(st, pk, holder, c);
    if chosen.Some? {
      ChosenMayRelay(st, pk, holder, chosen.value);
      if pk.ttl > 0 {
        RelayToPasses(counted, pk, holder, chosen.value);
        PassedWith(st, counted.stats, RelayTo(counted, pk, holder, chosen.value), pk, holder, chosen.value);
      }
    } else {
      NoneMayRelay(st, pk, holder);
    }
  }

  lemma ChosenMayRelay(st: State, pk: SealedPacket, holder: PeerId, via: PeerId)
    requires holder in st.peers && Chosen(st, pk, holder, via)
    ensures MayRelay(st, pk, holder, via) && via in st.peers
  {
  }

  lemma NoneMayRelay(st: State, pk: SealedPacket, holder: PeerId)
    requires holder in st.peers && forall n :: !MayRelay(st, pk, holder, n)
    ensures !SomePromising(st, pk, holder)
  {
  }

  // ---------------------------------------------------------------------
  // Sends and deliveries
  // ---------------------------------------------------------------------

  /** A minted packet carries the next number of its sender, ten hops, and as hints exactly the common neighbours of sender
      and destination. */
  lemma MintsExactly(st: State, m: Message)
    requires Ok(st) && m.from in st.peers
    ensures var (r, pk) := Mint(st, m); var ps := st.peers[m.from];
            && r == st.(peers := st.peers[m.from := ps.(sequence := ps.sequence + 1)])
            && pk.id == PacketId(m.from, ps.sequence) && pk.source == m.from && pk.destination == m.to && pk.payload == m.payload
            && pk.createdAt == st.tick && pk.ttl == 10 && pk.visited == {m.from}
            && (forall n :: n in pk.routingHints <==> NextTo(st, m.from, n) && NextTo(st, m.to, n))
  {
  }

  /** The packet is in the destination's inbox and list, the deliverer has met the destination, nobody else is touched. */
  ghost predicate FiledBy(peers: map<PeerId, PeerState>, after: map<PeerId, PeerState>, pk: SealedPacket, via: PeerId) {
    && after.Keys == peers.Keys
    && forall p :: p in peers ==>
         after[p] == peers[p].(
           inbox := if p == pk.destination then peers[p].inbox + [pk] else peers[p].inbox,
           delivered := if p == pk.destination then peers[p].delivered + [pk.id] else peers[p].delivered,
           prophet := if p == via then Prophet.Encounter(Prophet.DEFAULT, via, peers[p].prophet, pk.destination)
                      else peers[p].prophet)
  }

  /** The delivery is logged, and a confirmation starts unless the packet came straight from its source. */
  ghost predicate DeliveredBy(st: State, r: State, pk: SealedPacket, via: PeerId) {
    && r == st.(peers := r.peers, log := r.log, stats := r.stats, backprops := r.backprops, handed := r.handed)
    && r.log == st.log + [Delivered(pk.id, pk.destination, st.tick)]
    && FiledBy(st.peers, r.peers, pk, via)
    && (|pk.visited| <= 1 ==> r.backprops == st.backprops)
    && (|pk.visited| > 1 ==> exists path ::
          && r.backprops == st.backprops + [BackPropState(pk.id, path, 0, st.tick)]
          && StrictlyAscending(path) && forall n :: n in path <==> n in pk.visited)
  }

  lemma FilesExactly(st: State, pk: SealedPacket, via: PeerId)
    requires Ok(st) && via in st.peers && pk.destination in st.peers
    ensures FiledBy(st.peers, DeliverPacket(st, pk, via).peers, pk, via)
  {
    hide Frame, Sorted, CountDelivery, StartBackProp, Prophet.Encounter;
    assert st.peers[via].id == via;
  }

  lemma DeliversExactly(st: State, pk: SealedPacket, via: PeerId)
    requires Ok(st) && via in st.peers && pk.destination in st.peers
    ensures DeliveredBy(st, DeliverPacket(st, pk, via), pk, via)
  {
    hide MeshOk, Frame, Sorted, CountDelivery, FiledBy, FileInInbox, Meet;
    FilesExactly(st, pk, via);
    if |pk.visited| > 1 {
      assert DeliverPacket(st, pk, via).backprops == st.backprops + [BackPropState(pk.id, Sorted(pk.visited), 0, st.tick)];
    }
  }

  ghost predicate IsOnline(st: State, p: PeerId) { p in st.peers && st.peers[p].online }

  ghost predicate OutOfRetries(st: State, send: PendingSend) {
    st.config.maxSenderRetries.Some? && send.retryCount >= st.config.maxSenderRetries.value
  }

  /** Dropped and counted, with an id that names the sender only. */
  ghost predicate DroppedFor(st: State, r: State, m: Message, reason: DropReason) {
    && r == st.(log := st.log + [Dropped(PacketId(m.from, 0), reason, st.tick)], dropped := st.dropped + [m], stats := r.stats)
    && r.stats == st.stats.(messagesDropped := st.stats.messagesDropped + 1,
                            messagesExpired := if reason == Expired then st.stats.messagesExpired + 1 else st.stats.messagesExpired)
  }

  /** The fate of a send: dropped or retried while the sender is offline; otherwise minted and delivered at once to an online
      neighbour, held for an offline one, relayed to anybody else. */
  lemma SendsExactly(st: State, send: PendingSend)
    requires Ok(st)
    ensures var m, r := send.message, RouteMessage(st, send);
            && (!IsOnline(st, m.from) && OutOfRetries(st, send) ==> DroppedFor(st, r, m, SenderOffline))
            && (!IsOnline(st, m.from) && !OutOfRetries(st, send) ==>
                  r == st.(pending := st.pending + [PendingSend(m, send.createdTick, send.retryCount + 1)]))
            && (IsOnline(st, m.from) ==>
                  var (minted, pk) := Mint(st, m);
                  && (NextTo(st, m.from, m.to) && IsOnline(st, m.to) ==> DeliveredBy(minted, r, pk, m.from))
                  && (NextTo(st, m.from, m.to) && !IsOnline(st, m.to) ==> HeldAt(minted, r, m.from, pk))
                  && (!NextTo(st, m.from, m.to) ==> r == FindRelayPath(minted, pk, m.from)))
  {
    hide DeliverPacket, FindRelayPath, DeliveredBy, MeshOk, Mint, Frame;
    var m := send.message;
    if IsOnline(st, m.from) {
      MintsExactly(st, m);
      var (minted, pk) := Mint(st, m);
      if NextTo(st, m.from, m.to) {
        NeighboursExist(st, m.from, m.to);
        DeliversExactly(minted, pk, m.from);
      }
    }
  }

  lemma NeighboursExist(st: State, a: PeerId, b: PeerId)
    requires Ok(st) && NextTo(st, a, b)
    ensures a in st.peers && b in st.peers
  {
  }

  /** An attempt: a send older than the message timeout is dropped, any other one is announced and then routed. */
  lemma TriesExactly(st: State, send: PendingSend)
    requires Ok(st)
    ensures var r, late := ProcessSend(st, send), st.config.messageTimeout.Some? && st.tick - send.createdTick > st.config.messageTimeout.value;
            && (late ==> DroppedFor(st, r, send.message, Expired))
            && (!late ==> r == RouteMessage(st.(log := st.log + [Send(send.message, st.tick)]), send))
  {
    hide RouteMessage, MeshOk;
  }

  /** The message has been relayed to an online common neighbour of sender and destination, and is last in its queue. */
  ghost predicate HopsTo(st: State, r: State, m: Message, via: PeerId) {
    && m.from in st.peers && NextTo(st, m.from, via) && NextTo(st, m.to, via) && IsOnline(st, via)
    && var id := PacketId(m.from, st.peers[m.from].sequence);
       && r.log == st.log + [Relay(m.from, via, m.to, id, st.tick)]
       && via in r.peers && var q := r.peers[via].relayQueue; q != [] && q[|q|-1].id == id
  }

  lemma ChosenHint(st: State, pk: SealedPacket, holder: PeerId, n: PeerId, via: PeerId)
    requires holder in st.peers && Chosen(st, pk, holder, via) && MayRelay(st, pk, holder, n) && n in pk.routingHints
    requires !SomePromising(st, pk, holder)
    ensures via in pk.routingHints && via <= n && MayRelay(st, pk, holder, via)
  {
    hide MayRelay;
    assert SomeHinted(st, pk, holder);
  }

  lemma PassedHops(st: State, m: Message, r: State, via: PeerId)
    requires Ok(st) && m.from in st.peers && NextTo(st, m.from, via) && NextTo(st, m.to, via) && IsOnline(st, via)
    requires var (minted, pk) := Mint(st, m); pk.ttl > 0 && PassedTo(minted, r, pk, m.from, via)
    ensures HopsTo(st, r, m, via)
  {
    hide Mint, MeshOk;
    MintsExactly(st, m);
  }

  /** A sender that has met nobody, with an online neighbour in common with a destination it is not connected to, relays to
      such a neighbour, the first one: the packet is next to its destination after one hop. */
  lemma FirstHopIsShort(st: State, send: PendingSend, n: PeerId)
    requires Ok(st) && IsOnline(st, send.message.from) && st.peers[send.message.from].prophet == map[]
    requires !NextTo(st, send.message.from, send.message.to)
    requires NextTo(st, send.message.from, n) && NextTo(st, send.message.to, n) && IsOnline(st, n)
    ensures exists via: PeerId :: via <= n && HopsTo(st, RouteMessage(st, send), send.message, via)
  {
    hide RouteMessage, FindRelayPath, Ok, Mint, Frame, Chosen, PassedTo, SomePromising, HopsTo, HeldAt, DeliveredBy;
    var m := send.message;
    MintsExactly(st, m);
    SendsExactly(st, send);
    var (minted, pk) := Mint(st, m);
    RelaysExactly(minted, pk, m.from);
    UnmetSender(st, m, n);
    var via :| Chosen(minted, pk, m.from, via) && PassedTo(minted, RouteMessage(st, send), pk, m.from, via);
    ChosenHint(minted, pk, m.from, n, via);
    PassedHops(st, m, RouteMessage(st, send), via);
  }

  lemma UnmetSender(st: State, m: Message, n: PeerId)
    requires Ok(st) && IsOnline(st, m.from) && st.peers[m.from].prophet == map[]
    requires NextTo(st, m.from, n) && NextTo(st, m.to, n) && IsOnline(st, n)
    ensures var (minted, pk) := Mint(st, m);
            && MayRelay(minted, pk, m.from, n) && n in pk.routingHints && !SomePromising(minted, pk, m.from)
  {
    hide Mint;
    MintsExactly(st, m);
    assert n != m.from;
    var (minted, pk) := Mint(st, m);
    assert MayRelay(minted, pk, m.from, n) && n in pk.routingHints;
  }

  // ---------------------------------------------------------------------
  // Queues
  // ---------------------------------------------------------------------

  function OtherThan(id: PacketId): SealedPacket -> bool { (pk: SealedPacket) => pk.id != id }

  function HeadedFor(p: PeerId): SealedPacket -> bool { (pk: SealedPacket) => pk.destination == p }

  /** Taking an id out of a queue keeps the rest in order. */
  lemma {:induction false} RetainIsFiltered(q: seq<SealedPacket>, id: PacketId)
    ensures Filters(q, Retain(q, id), OtherThan(id))
  {
    hide Filters;
    if q == [] {
      FiltersNothing(OtherThan(id));
    } else {
      var n := |q| - 1;
      RetainIsFiltered(q[..n], id);
      FiltersOneMore(q[..n], Retain(q[..n], id), q[n], OtherThan(id));
      assert q == q[..n] + [q[n]];
      assert Retain(q[..n], id) + [] == Retain(q[..n], id);
    }
  }

  /** What a woken peer is handed from a neighbour's queue, in queue order. */
  lemma {:induction false} AddressedIsFiltered(q: seq<SealedPacket>, p: PeerId)
    ensures Filters(q, AddressedTo(q, p), HeadedFor(p))
  {
    hide Filters;
    if q == [] {
      FiltersNothing(HeadedFor(p));
    } else {
      var n := |q| - 1;
      AddressedIsFiltered(q[..n], p);
      FiltersOneMore(q[..n], AddressedTo(q[..n], p), q[n], HeadedFor(p));
      assert q == q[..n] + [q[n]];
      assert AddressedTo(q[..n], p) + [] == AddressedTo(q[..n], p);
    }
  }

  /** A queued packet is delivered to an online neighbour, waits for an offline one, and is relayed on to anybody else. */
  lemma ForwardsExactly(st: State, pk: SealedPacket, p: PeerId)
    requires Ok(st) && p in st.peers
    ensures var r, taken := ForwardOne(st, pk, p), RemoveQueued(st, p, pk.id);
            && (NextTo(st, p, pk.destination) && IsOnline(st, pk.destination) ==> DeliveredBy(taken, r, pk, p))
            && (NextTo(st, p, pk.destination) && !IsOnline(st, pk.destination) ==> r == st)
            && (!NextTo(st, p, pk.destination) ==> r == FindRelayPath(taken, pk, p))
  {
    hide DeliverPacket, FindRelayPath, DeliveredBy, MeshOk, Retain;
    if NextTo(st, p, pk.destination) {
      NeighboursExist(st, p, pk.destination);
      DeliversExactly(RemoveQueued(st, p, pk.id), pk, p);
    }
  }

  // ---------------------------------------------------------------------
  // Confirmations
  // ---------------------------------------------------------------------

  ghost predicate TooLate(st: State, b: BackPropState) {
    st.config.backpropTimeout.Some? && st.tick - b.deliveredTick > st.config.backpropTimeout.value
  }

  /** Neither late nor at its end, with both peers of its next hop online. */
  predicate MovesNow(st: State, b: BackPropState) {
    && !(st.config.backpropTimeout.Some? && st.tick - b.deliveredTick > st.config.backpropTimeout.value)
    && b.index + 1 < |b.path|
    && var (from, to) := (b.path[|b.path| - 1 - b.index], b.path[|b.path| - 2 - b.index]);
       from in st.peers && to in st.peers && st.peers[from].online && st.peers[to].online
  }

  function Moving(st: State): BackPropState -> bool { (b: BackPropState) => MovesNow(st, b) }

  /** The event of a hop, from the later peer of the path to the one before it. */
  ghost predicate TellsHop(e: NetworkEvent, b: BackPropState, tick: nat) {
    && b.index + 1 < |b.path|
    && e == BackProp(b.packetId, b.path[|b.path| - 1 - b.index], b.path[|b.path| - 1 - b.index], b.path[|b.path| - 2 - b.index], tick)
  }

  lemma {:induction false} HopEventsExactly(st: State, bs: seq<BackPropState>) returns (moved: seq<BackPropState>)
    ensures Filters(bs, moved, Moving(st)) && |HopEvents(st, bs)| == |moved|
    ensures forall i :: 0 <= i < |moved| ==> TellsHop(HopEvents(st, bs)[i], moved[i], st.tick)
  {
    hide Filters;
    if bs == [] {
      moved := [];
      FiltersNothing(Moving(st));
    } else {
      var n := |bs| - 1;
      moved := HopEventsExactly(st, bs[..n]);
      FiltersOneMore(bs[..n], moved, bs[n], Moving(st));
      assert bs == bs[..n] + [bs[n]];
      if MovesNow(st, bs[n]) { moved := moved + [bs[n]]; }
    }
  }

  /** In the scan of a tick every confirmation moves by one hop exactly when it is not late, not at its end, and both peers of
      the hop are online; each move is logged, in order, as a hop between those two. */
  lemma ConfirmationsMoveExactly(st: State) returns (moved: seq<BackPropState>)
    ensures |Scanned(st).backprops| == |st.backprops|
    ensures forall i :: 0 <= i < |st.backprops| ==>
              var b := st.backprops[i]; Scanned(st).backprops[i] == if MovesNow(st, b) then b.(index := b.index + 1) else b
    ensures Filters(st.backprops, moved, Moving(st))
    ensures exists events :: Scanned(st).log == st.log + events && |events| == |moved| &&
              forall i :: 0 <= i < |moved| ==> TellsHop(events[i], moved[i], st.tick)
  {
    hide HopEvents, Filters;
    moved := HopEventsExactly(st, st.backprops);
    assert Scanned(st).log == st.log + HopEvents(st, st.backprops);
  }

  /** A confirmation is recorded as late, or else as complete when it has no hop left. */
  lemma FinishedExactly(st: State, i: nat)
    ensures i in Complete(st) <==> i < |st.backprops| && !TooLate(st, st.backprops[i]) && st.backprops[i].index + 1 >= |st.backprops[i].path|
    ensures Ordered(st.backprops) && i < |st.backprops| ==> (TooLate(st, st.backprops[i]) <==> i < |Late(st)|)
  {
    hide TimedOutAt, CompletedAt;
    CompletedAtIs(st, st.backprops);
    if Ordered(st.backprops) { TimedOutIsPrefix(st, st.backprops); }
  }

  // ---------------------------------------------------------------------
  // Transitions and aging
  // ---------------------------------------------------------------------

  /** Forcing a known peer into the other state flips its flag, logs it, and stamps a wake-up with the current tick; forcing it
      into its own state, or forcing an unknown peer, changes nothing. No transition counter moves. */
  lemma ForcesExactly(st: State, p: PeerId, online: bool)
    requires Ok(st)
    ensures var r := Force(st, p, online);
            && (p !in st.peers || st.peers[p].online == online ==> r == st)
            && (p in st.peers && st.peers[p].online != online ==>
                  && r == st.(peers := r.peers, log := st.log + [if online then Awake(p, st.tick) else Sleep(p, st.tick)])
                  && r.peers.Keys == st.peers.Keys && (forall x :: x in st.peers && x != p ==> r.peers[x] == st.peers[x])
                  && r.peers[p] == st.peers[p].(online := online, lastOnlineTick := r.peers[p].lastOnlineTick)
                  && r.peers[p].lastOnlineTick == if online then Some(st.tick) else st.peers[p].lastOnlineTick)
  {
    hide MeshOk;
  }

  /** The drawn peers that were online, or offline. */
  function Drawn(peers: map<PeerId, PeerState>, ids: seq<PeerId>, flips: set<PeerId>, online: bool): set<PeerId> {
    set p | p in ids && p in flips && p in peers && peers[p].online == online
  }

  lemma DrawnSets(was: map<PeerId, PeerState>, now: map<PeerId, PeerState>, ids: seq<PeerId>, flips: set<PeerId>, online: bool)
    requires StrictlyAscending(ids) && ids != [] && ids[0] in was && now.Keys == was.Keys
    requires forall p :: p in was && p != ids[0] ==> now[p] == was[p]
    ensures ids[0] !in Drawn(now, ids[1..], flips, online)
    ensures ids[0] in flips && was[ids[0]].online == online ==>
              Drawn(was, ids, flips, online) == Drawn(now, ids[1..], flips, online) + {ids[0]}
    ensures !(ids[0] in flips && was[ids[0]].online == online) ==>
              Drawn(was, ids, flips, online) == Drawn(now, ids[1..], flips, online)
  {
    hide StrictlyAscending;
    HeadAndTail(ids);
  }

  lemma DrawnStep(was: map<PeerId, PeerState>, now: map<PeerId, PeerState>, ids: seq<PeerId>, flips: set<PeerId>, online: bool)
    requires StrictlyAscending(ids) && ids != [] && ids[0] in was && now.Keys == was.Keys
    requires forall p :: p in was && p != ids[0] ==> now[p] == was[p]
    ensures |Drawn(was, ids, flips, online)| ==
              |Drawn(now, ids[1..], flips, online)| + if ids[0] in flips && was[ids[0]].online == online then 1 else 0
  {
    hide StrictlyAscending, Drawn;
    DrawnSets(was, now, ids, flips, online);
  }

  lemma TailAscends(ids: seq<PeerId>)
    requires StrictlyAscending(ids) && ids != []
    ensures StrictlyAscending(ids[1..])
  {
  }

  lemma HeadAndTail(ids: seq<PeerId>)
    requires StrictlyAscending(ids) && ids != []
    ensures ids[0] !in ids[1..] && forall p :: p in ids <==> p == ids[0] || p in ids[1..]
  {
  }

  /** The counters of a tick's transitions: each drawn peer counts once, as woken if it was offline. */
  lemma {:induction false} TransitionsAreCounted(st: State, ids: seq<PeerId>, flips: set<PeerId>)
    requires Ok(st) && StrictlyAscending(ids) && forall x :: x in ids ==> x in st.peers
    ensures var r := Transitions(st, ids, flips);
            && r.stats.wakeEvents == st.stats.wakeEvents + |Drawn(st.peers, ids, flips, false)|
            && r.stats.sleepEvents == st.stats.sleepEvents + |Drawn(st.peers, ids, flips, true)|
    decreases |ids|
  {
    hide MeshOk, Drawn;
    if ids == [] {
      assert Drawn(st.peers, ids, flips, false) == Drawn(st.peers, ids, flips, true) == {} by { DrawnNothing(st.peers, flips); }
    } else {
      var s := if ids[0] in flips then Flipped(st, ids[0]) else st;
      DrawnStep(st.peers, s.peers, ids, flips, false);
      DrawnStep(st.peers, s.peers, ids, flips, true);
      TransitionsAreCounted(s, ids[1..], flips);
    }
  }

  lemma DrawnNothing(peers: map<PeerId, PeerState>, flips: set<PeerId>)
    ensures Drawn(peers, [], flips, false) == Drawn(peers, [], flips, true) == {}
  {
  }

  lemma {:induction false} AgesEach(st: State, ids: seq<PeerId>)
    requires Ok(st) && StrictlyAscending(ids) && forall x :: x in ids ==> x in st.peers
    ensures var r := AgePeers(st, ids);
            && r == st.(peers := r.peers) && r.peers.Keys == st.peers.Keys
            && forall p :: p in st.peers ==>
                 r.peers[p] == if p in ids then st.peers[p].(prophet := Prophet.Age(Prophet.DEFAULT, st.peers[p].prophet)) else st.peers[p]
    decreases |ids|
  {
    hide MeshOk, Frame, StrictlyAscending, Prophet.Age;
    if ids != [] {
      var x, rest := ids[0], ids[1..];
      HeadAndTail(ids);
      TailAscends(ids);
      var s := SetPeer(st, x, st.peers[x].(prophet := Prophet.Age(Prophet.DEFAULT, st.peers[x].prophet)));
      AgesEach(s, rest);
    }
  }

  /** Every tick divisible by the interval ages every peer's table once, and nothing else; a zero interval panics. */
  lemma AgesExactly(st: State)
    requires Ok(st)
    ensures var r := ProcessAging(st);
            && r == st.(peers := r.peers, stats := st.stats.(prophetAgingCycles := st.stats.prophetAgingCycles + 1))
            && r.peers.Keys == st.peers.Keys
            && forall p :: p in st.peers ==> r.peers[p] == st.peers[p].(prophet := Prophet.Age(Prophet.DEFAULT, st.peers[p].prophet))
    ensures ProcessBackprops(st).Some? ==>
              var s, r := ProcessBackprops(st).value, Concluded(st);
              && (r.None? <==> s.config.agingInterval == 0)
              && (r.Some? && s.tick % s.config.agingInterval == 0 ==> r.value == ProcessAging(s))
              && (r.Some? && s.tick % s.config.agingInterval != 0 ==> r.value == s)
  {
    hide MeshOk, AgePeers, Sorted, Prophet.Age, ProcessBackprops;
    AgesEach(st, Sorted(st.peers.Keys));
  }
}
