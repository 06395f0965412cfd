/** The recursive transition rules, unrolled by one round at a position (or finished at the end) of the list they walk along:
    what the loops of class Simulation need to know. */
module SimLoops {
  import opened Common
  import opened SimTypes
  import opened SimSpec
  import Prophet

  lemma InitializeStep(st: State, ids: seq<PeerId>, i: nat, on: set<PeerId>)
    requires Ok(st) && i <= |ids| && forall p :: p in ids ==> p in st.peers
    ensures Initialize(st, ids[i..], on)
         == if i == |ids| then st else Initialize(Draw(st, ids[i], ids[i] in on), ids[i+1..], on)
  {
    hide MeshOk, Draw;
    if i < |ids| { assert ids[i..][1..] == ids[i+1..]; }
  }

  function TransitionTurn(st: State, p: PeerId, flips: set<PeerId>): (r: State)
    requires Ok(st) && p in st.peers
    ensures Ok(r) && r.peers.Keys == st.peers.Keys
  {
    if p in flips then Flipped(st, p) else st
  }

  lemma TransitionsStep(st: State, ids: seq<PeerId>, i: nat, flips: set<PeerId>)
    requires Ok(st) && i <= |ids| && forall p :: p in ids ==> p in st.peers
    ensures Transitions(st, ids[i..], flips)
         == if i == |ids| then st else Transitions(TransitionTurn(st, ids[i], flips), ids[i+1..], flips)
  {
    hide MeshOk, Flipped;
    if i < |ids| { assert ids[i..][1..] == ids[i+1..]; }
  }

  lemma DeliverAllStep(st: State, pks: seq<SealedPacket>, i: nat, from: PeerId)
    requires Ok(st) && from in st.peers && i <= |pks| && forall pk :: pk in pks ==> pk.destination in st.peers
    ensures i < |pks| ==> pks[i].destination in RemoveQueued(st, from, pks[i].id).peers
    ensures DeliverAll(st, pks[i..], from)
         == if i == |pks| then st else DeliverAll(DeliverPacket(RemoveQueued(st, from, pks[i].id), pks[i], from), pks[i+1..], from)
  {
    hide MeshOk, DeliverPacket, RemoveQueued;
    if i < |pks| { assert pks[i..][1..] == pks[i+1..]; }
  }

  lemma AwakeNeighborsStep(st: State, neighbors: seq<PeerId>, i: nat, p: PeerId)
    requires Ok(st) && p in st.peers && i <= |neighbors| && forall n :: n in neighbors ==> n in st.peers
    ensures AwakeNeighbors(st, neighbors[i..], p)
         == if i == |neighbors| then st else AwakeNeighbors(DeliverPending(st, neighbors[i], p), neighbors[i+1..], p)
  {
    hide MeshOk, DeliverPending;
    if i < |neighbors| { assert neighbors[i..][1..] == neighbors[i+1..]; }
  }

  lemma ConnectionsExist(st: State, p: PeerId)
    requires Ok(st) && p in st.peers
    ensures forall n :: n in st.peers[p].connections ==> n in st.peers
  {
  }

  lemma MintKeeps(st: State, m: Message)
    requires Ok(st) && m.from in st.peers
    ensures var r := Mint(st, m); r.0.peers.Keys == st.peers.Keys && r.0.adjacency == st.adjacency && r.1.destination == m.to
    ensures Mint(st, m).0.adjacency == st.adjacency && forall p :: Online(Mint(st, m).0, p) <==> Online(st, p)
  {
    hide MeshOk;
  }

  /** One peer's awake signal. */
  function Signal(st: State, p: PeerId): (r: State)
    requires Ok(st) && p in st.peers
    ensures Ok(r) && Quiet(st, r) && r.peers.Keys == st.peers.Keys
  {
    if JustWoke(st, p) then AwakeNeighbors(st, Sorted(st.peers[p].connections), p) else st
  }

  lemma AwakeSignalsStep(st: State, ids: seq<PeerId>, i: nat)
    requires Ok(st) && i <= |ids| && forall p :: p in ids ==> p in st.peers
    ensures AwakeSignals(st, ids[i..])
         == if i == |ids| then st else AwakeSignals(Signal(st, ids[i]), ids[i+1..])
  {
    hide MeshOk, AwakeNeighbors, Sorted;
    if i < |ids| { assert ids[i..][1..] == ids[i+1..]; }
  }

  lemma ProcessSendsStep(st: State, sends: seq<PendingSend>, i: nat)
    requires Ok(st) && i <= |sends|
    ensures ProcessSends(st, sends[i..])
         == if i == |sends| then st else ProcessSends(ProcessSend(st, sends[i]), sends[i+1..])
  {
    hide MeshOk, ProcessSend;
    if i < |sends| { assert sends[i..][1..] == sends[i+1..]; }
  }

  lemma ForwardAllStep(st: State, pks: seq<SealedPacket>, i: nat, p: PeerId)
    requires Ok(st) && p in st.peers && i <= |pks|
    ensures ForwardAll(st, pks[i..], p)
         == if i == |pks| then st else ForwardAll(ForwardOne(st, pks[i], p), pks[i+1..], p)
  {
    hide MeshOk, ForwardOne;
    if i < |pks| { assert pks[i..][1..] == pks[i+1..]; }
  }

  /** One peer's turn in the relay phase. */
  function RelayTurn(st: State, p: PeerId): (r: State)
    requires Ok(st) && p in st.peers
    ensures Ok(r) && Quiet(st, r) && r.peers.Keys == st.peers.Keys
  {
    if st.peers[p].online then ForwardAll(st, st.peers[p].relayQueue, p) else st
  }

  lemma RelayQueuesStep(st: State, ids: seq<PeerId>, i: nat)
    requires Ok(st) && i <= |ids| && forall p :: p in ids ==> p in st.peers
    ensures RelayQueues(st, ids[i..])
         == if i == |ids| then st else RelayQueues(RelayTurn(st, ids[i]), ids[i+1..])
  {
    hide MeshOk, ForwardAll;
    if i < |ids| { assert ids[i..][1..] == ids[i+1..]; }
  }

  lemma CleanQueuesStep(st: State, relays: seq<PeerId>, i: nat, id: PacketId)
    requires Ok(st) && i <= |relays|
    ensures CleanQueues(st, relays[i..], id)
         == if i == |relays| then st else CleanQueues(if relays[i] in st.peers then RemoveQueued(st, relays[i], id) else st, relays[i+1..], id)
  {
    hide MeshOk, RemoveQueued;
    if i < |relays| { assert relays[i..][1..] == relays[i+1..]; }
  }

  function Aged(st: State, p: PeerId): (r: State)
    requires Ok(st) && p in st.peers
    ensures Ok(r) && Quiet(st, r)
  {
    SetPeer(st, p, st.peers[p].(prophet := Prophet.Age(Prophet.DEFAULT, st.peers[p].prophet)))
  }

  lemma AgePeersStep(st: State, ids: seq<PeerId>, i: nat)
    requires Ok(st) && i <= |ids| && forall p :: p in ids ==> p in st.peers
    ensures AgePeers(st, ids[i..])
         == if i == |ids| then st else AgePeers(Aged(st, ids[i]), ids[i+1..])
  {
    hide MeshOk, SetPeer, Prophet.Age;
    if i < |ids| { assert ids[i..][1..] == ids[i+1..]; }
  }

  function Hop(st: State, b: BackPropState): NetworkEvent
    requires CanAdvance(st, b)
  {
    var k := |b.path| - 1 - b.index;
    BackProp(b.packetId, b.path[k], b.path[k], b.path[k - 1], st.tick)
  }

  /** The scan reads the clock, the settings and who is online, and nothing else. */
  lemma SameClock(st: State, r: State, b: BackPropState)
    requires r == st.(backprops := r.backprops)
    ensures TimedOut(r, b) == TimedOut(st, b) && Completed(r, b) == Completed(st, b) && CanAdvance(r, b) == CanAdvance(st, b)
    ensures Advance(r, b) == Advance(st, b) && (CanAdvance(st, b) ==> Hop(r, b) == Hop(st, b))
  {
  }

  /** The scan of the confirmations, one entry further. */
  lemma ScanStep(st: State, bs: seq<BackPropState>, i: nat)
    requires i < |bs|
    ensures TimedOutAt(st, bs[..i+1]) == TimedOutAt(st, bs[..i]) + if TimedOut(st, bs[i]) then [i] else []
    ensures CompletedAt(st, bs[..i+1]) == CompletedAt(st, bs[..i]) + if Completed(st, bs[i]) then [i] else []
    ensures HopEvents(st, bs[..i+1]) == HopEvents(st, bs[..i]) + if CanAdvance(st, bs[i]) then [Hop(st, bs[i])] else []
  {
    assert bs[..i+1][..i] == bs[..i];
  }

  lemma DropTimedOutStep(st: State, at: seq<nat>, i: nat)
    requires Ok(st) && i < |at|
    ensures DropTimedOut(st, at[..i+1]) ==
              if at[i] >= |st.backprops| then None
              else DropTimedOut(st.(backprops := RemoveAt(st.backprops, at[i]),
                                    stats := st.stats.(backpropsTimedOut := st.stats.backpropsTimedOut + 1)), at[..i])
  {
    hide MeshOk;
    assert at[..i+1][..i] == at[..i];
  }

  lemma DropTimedOutEnd(st: State, at: seq<nat>)
    requires Ok(st)
    ensures DropTimedOut(st, at[..0]) == Some(st)
  {
  }

  lemma RemoveCompletedStep(st: State, at: seq<nat>, i: nat)
    requires Ok(st) && i < |at|
    ensures RemoveCompleted(st, at[..i+1]) ==
              if at[i] >= |st.backprops| then None
              else RemoveCompleted(FinishBackProp(st.(backprops := RemoveAt(st.backprops, at[i])), st.backprops[at[i]]), at[..i])
  {
    hide MeshOk, FinishBackProp;
    assert at[..i+1][..i] == at[..i];
  }

  lemma RemoveCompletedEnd(st: State, at: seq<nat>)
    requires Ok(st)
    ensures RemoveCompleted(st, at[..0]) == Some(st)
  {
  }

  // ---------------------------------------------------------------------
  // Runs
  // ---------------------------------------------------------------------

  function Ticks(draws: seq<set<PeerId>>): (r: seq<Action>)
    ensures |r| == |draws| && forall i :: 0 <= i < |draws| ==> r[i] == DoStep(draws[i])
  {
    seq(|draws|, i requires 0 <= i < |draws| => DoStep(draws[i]))
  }

  lemma RunStart(st: State)
    requires Ok(st)
    ensures Run(st, Ticks([])) == Some(st)
  {
  }

  lemma RunTick(st: State, draws: seq<set<PeerId>>, i: nat)
    requires Ok(st) && i < |draws| && Run(st, Ticks(draws[..i])).Some?
    ensures Run(st, Ticks(draws[..i+1])) == Step(Run(st, Ticks(draws[..i])).value, draws[i])
  {
    hide MeshOk, Step;
    assert Ticks(draws[..i+1])[..i] == Ticks(draws[..i]);
  }

  /** A panic is final. */
  lemma {:induction false} RunStops(st: State, draws: seq<set<PeerId>>, i: nat)
    requires Ok(st) && i <= |draws| && Run(st, Ticks(draws[..i])).None?
    ensures Run(st, Ticks(draws)).None?
    decreases |draws| - i
  {
    hide MeshOk, Step;
    if i == |draws| {
      assert draws[..i] == draws;
    } else {
      assert Ticks(draws[..i+1])[..i] == Ticks(draws[..i]);
      RunStops(st, draws, i + 1);
    }
  }
}
