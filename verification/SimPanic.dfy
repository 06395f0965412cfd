/** A run of three peers in a line that makes the program panic: the stale positions of the confirmation phase are out
    of range in a state that ordinary use reaches. */
module SimPanic {
  import opened Common
  import opened SimTypes
  import opened SimSpec
  import opened SimInvariant
  import opened SimMoves
  import opened SimPhases
  import opened SimBackprops
  import opened SimRuns
  import opened SimTheorems
  import opened SimProgress
  import opened SimLoops
  import Mesh
  import Prophet

  // Three peers, by the code points of their letters.
  const A: PeerId := 65
  const B: PeerId := 66
  const C: PeerId := 67

  const LINE: map<PeerId, set<PeerId>> := map[A := {B}, B := {A, C}, C := {B}]

  /** Confirmations time out after one tick. */
  const CONFIG := SimConfig(None, Some(1), None, 100)

  function Fresh(p: PeerId): PeerState
    requires p in LINE
  {
    NewPeer(p).(connections := LINE[p])
  }

  const PEERS: map<PeerId, PeerState> := map[A := Fresh(A), B := Fresh(B), C := Fresh(C)]

  const SETUP := Setup(PEERS, LINE, CONFIG, {A, B})

  const HELLO := Message(A, C, [])

  lemma LineIsSymmetric()
    ensures forall p, q :: p in LINE && q in LINE[p] ==> q != p && q in LINE && p in LINE[q]
  {
    forall p, q | p in LINE && q in LINE[p] ensures q != p && q in LINE && p in LINE[q] {
      assert p == A || p == B || p == C;
    }
  }

  lemma PeersAreFresh()
    ensures PEERS.Keys == LINE.Keys && forall p :: p in PEERS ==> PEERS[p] == Fresh(p)
  {
  }

  lemma SetupIsValid()
    ensures SETUP.Valid()
  {
    LineIsSymmetric();
    PeersAreFresh();
    hide LINE, PEERS;
  }

  lemma SortedLists()
    ensures Sorted({A, B, C}) == [A, B, C] && Sorted({B}) == [B] && Sorted({A, B}) == [A, B]
  {
    SortedIs({A, B, C}, [A, B, C]);
    SortedIs({B}, [B]);
    SortedIs({A, B}, [A, B]);
  }

  lemma SortedIs(s: set<nat>, r: seq<nat>)
    requires StrictlyAscending(r) && forall x :: x in r <==> x in s
    ensures Sorted(s) == r
  {
    hide Sorted;
    AscendingUnique(Sorted(s), r);
  }

  lemma HasMember(a: seq<nat>)
    ensures a != [] ==> exists x :: x in a
  {
    if a != [] { assert a[0] in a; }
  }

  lemma TailMembers(a: seq<nat>)
    requires StrictlyAscending(a) && a != []
    ensures forall x :: x in a[1..] <==> x in a && x != a[0]
  {
    forall x | x in a && x != a[0] ensures x in a[1..] {
      var i :| 0 <= i < |a| && a[i] == x;
      assert a[1..][i-1] == x;
    }
  }

  /** Two ascending lists with the same members are the same list. */
  lemma {:induction false} AscendingUnique(a: seq<nat>, b: seq<nat>)
    requires StrictlyAscending(a) && StrictlyAscending(b) && forall x :: x in a <==> x in b
    ensures a == b
    decreases |a|
  {
    HasMember(a);
    HasMember(b);
    if a != [] {
      assert a[0] in b && b[0] in a;
      assert a[0] == b[0];
      TailMembers(a);
      TailMembers(b);
      AscendingUnique(a[1..], b[1..]);
      assert a == [a[0]] + a[1..] && b == [b[0]] + b[1..];
    }
  }

  predicate NotLater(t: Option<nat>, tick: nat) { t.Some? ==> t.value <= tick }

  /** Nobody has woken later than now. */
  ghost predicate Past(st: State) {
    && st.peers.Keys == {A, B, C} && NotLater(st.peers[A].lastOnlineTick, st.tick)
    && NotLater(st.peers[B].lastOnlineTick, st.tick) && NotLater(st.peers[C].lastOnlineTick, st.tick)
  }

  /** The line of three, with packets queued only at the middle peer. */
  ghost predicate Scene(st: State, tick: nat, on: set<PeerId>, q: seq<SealedPacket>) {
    && Ok(st) && Past(st) && st.adjacency == LINE && st.config == CONFIG && st.tick == tick
    && (st.peers[A].online <==> A in on) && (st.peers[B].online <==> B in on) && (st.peers[C].online <==> C in on)
    && st.peers[A].relayQueue == [] && st.peers[B].relayQueue == q && st.peers[C].relayQueue == []
  }

  // ---------------------------------------------------------------------
  // Single moves
  // ---------------------------------------------------------------------

  lemma DeliverScene(st: State, tick: nat, on: set<PeerId>, q: seq<SealedPacket>, pk: SealedPacket)
    requires Scene(st, tick, on, q) && pk.destination == C
    ensures var r := DeliverPacket(st, pk, B);
            Scene(r, tick, on, q) && r.backprops == StartBackProp(st.backprops, pk, st.tick) && r.pending == st.pending
  {
    hide MeshOk, StartBackProp, CountDelivery, Prophet.Encounter;
  }

  lemma TakeScene(st: State, tick: nat, on: set<PeerId>, pk: SealedPacket)
    requires Scene(st, tick, on, [pk])
    ensures var r := RemoveQueued(st, B, pk.id);
            Scene(r, tick, on, []) && r.backprops == st.backprops && r.pending == st.pending
  {
    hide MeshOk;
    assert [pk][..0] == [] && Retain([pk], pk.id) == [];
  }

  /** The middle peer hands a packet to the last one. */
  function Handed(st: State, pk: SealedPacket): (r: State)
    requires Ok(st) && st.peers.Keys == {A, B, C} && pk.destination == C
    ensures Ok(r) && r.peers.Keys == {A, B, C}
  {
    DeliverPacket(RemoveQueued(st, B, pk.id), pk, B)
  }

  lemma HandScene(st: State, tick: nat, on: set<PeerId>, pk: SealedPacket)
    requires Scene(st, tick, on, [pk]) && pk.destination == C && |pk.visited| > 1
    ensures var r := Handed(st, pk);
            && Scene(r, tick, on, []) && r.pending == st.pending
            && r.backprops == st.backprops + [BackPropState(pk.id, Sorted(pk.visited), 0, tick)]
  {
    hide MeshOk, DeliverPacket, RemoveQueued, Scene, Sorted;
    assert Ok(st) && B in st.peers && st.tick == tick by { SceneFacts(st, tick, on, [pk]); }
    TakeScene(st, tick, on, pk);
    SceneFacts(RemoveQueued(st, B, pk.id), tick, on, []);
    DeliverScene(RemoveQueued(st, B, pk.id), tick, on, [], pk);
  }

  lemma SceneFacts(st: State, tick: nat, on: set<PeerId>, q: seq<SealedPacket>)
    requires Scene(st, tick, on, q)
    ensures Ok(st) && st.peers.Keys == {A, B, C} && st.tick == tick
  {
  }

  lemma RelayToScene(st: State, tick: nat, on: set<PeerId>, pk: SealedPacket)
    requires Scene(st, tick, on, []) && pk.visited == {A} && pk.ttl == 10
    ensures var r := RelayTo(st, pk, A, B);
            && Scene(r, tick, on, [pk.(ttl := 9, visited := {A, B})])
            && r.backprops == st.backprops && r.pending == st.pending
  {
    hide MeshOk, Prophet.Encounter;
    assert pk.visited + {B} == {A, B};
  }

  /** The first peer's packet for the last goes to the middle one. */
  lemma RelayScene(st: State, tick: nat, on: set<PeerId>, pk: SealedPacket)
    requires Scene(st, tick, on, []) && A in on && B in on && pk.destination == C && pk.visited == {A} && pk.ttl == 10
    ensures var r := FindRelayPath(st, pk, A);
            && Scene(r, tick, on, [pk.(ttl := 9, visited := {A, B})])
            && r.backprops == st.backprops && r.pending == st.pending
  {
    hide MeshOk, Candidates, SelectRelay, ProphetChoice, Sorted, RelayTo;
    SortedLists();
    var c := Candidates(st, pk, Sorted(Neighbors(st, A)));
    OnlyCandidate(st, pk, on, tick);
    assert SelectRelay(st, pk, A, c) == Some(B) by { assert SelectRelay(st, pk, A, c).value in [B]; }
    RelayToScene(st.(stats := CountSelection(st.stats, ProphetChoice(st, pk, A, c).Some?)), tick, on, pk);
  }

  lemma OnlyCandidate(st: State, pk: SealedPacket, on: set<PeerId>, tick: nat)
    requires Scene(st, tick, on, []) && B in on && pk.visited == {A}
    ensures Neighbors(st, A) == {B} && Candidates(st, pk, [B]) == [B]
  {
    assert [B][..0] == [];
    assert Candidates(st, pk, []) == [];
  }

  // ---------------------------------------------------------------------
  // Phases
  // ---------------------------------------------------------------------

  lemma {:induction false} TransitionsKeepLists(st: State, ids: seq<PeerId>, flips: set<PeerId>)
    requires Ok(st) && forall p :: p in ids ==> p in st.peers
    ensures var r := Transitions(st, ids, flips); r.pending == st.pending && r.backprops == st.backprops
    decreases |ids|
  {
    hide MeshOk;
    if ids != [] { TransitionsKeepLists(if ids[0] in flips then Flipped(st, ids[0]) else st, ids[1..], flips); }
  }

  function Flip(on: set<PeerId>, flips: set<PeerId>): set<PeerId> { (on - flips) + (flips - on) }

  lemma FlipMembers(on: set<PeerId>, flips: set<PeerId>, p: PeerId)
    ensures p in Flip(on, flips) <==> (p in on) != (p in flips)
  {
  }

  lemma WakeOne(st: State, flips: set<PeerId>, p: PeerId)
    requires Ok(st) && p in st.peers && NotLater(st.peers[p].lastOnlineTick, st.tick)
    ensures var r := Woken(st, flips);
            && p in r.peers && NotLater(r.peers[p].lastOnlineTick, st.tick + 1)
            && r.peers[p].online == (st.peers[p].online != (p in flips))
            && r.peers[p].relayQueue == st.peers[p].relayQueue
            && (JustWoke(r, p) <==> p in flips && !st.peers[p].online)
  {
    hide MeshOk, Transitions, Sorted;
    TransitionsExactly(st.(tick := st.tick + 1), Sorted(st.peers.Keys), flips, p);
  }

  lemma WokenFrame(st: State, flips: set<PeerId>)
    requires Ok(st)
    ensures var r := Woken(st, flips);
            && Ok(r) && r.peers.Keys == st.peers.Keys && r.adjacency == st.adjacency && r.config == st.config
            && r.tick == st.tick + 1 && r.pending == st.pending && r.backprops == st.backprops
  {
    hide MeshOk, Transitions, Sorted;
    TransitionsKeepLists(st.(tick := st.tick + 1), Sorted(st.peers.Keys), flips);
  }

  lemma WakeScene(st: State, tick: nat, on: set<PeerId>, q: seq<SealedPacket>, flips: set<PeerId>)
    requires Scene(st, tick, on, q)
    ensures var r := Woken(st, flips);
            && Scene(r, tick + 1, Flip(on, flips), q) && r.pending == st.pending && r.backprops == st.backprops
            && (JustWoke(r, A) <==> A in flips && A !in on) && (JustWoke(r, B) <==> B in flips && B !in on)
            && (JustWoke(r, C) <==> C in flips && C !in on)
  {
    hide Ok, Woken, Flip, JustWoke, NotLater;
    WokenFrame(st, flips);
    WakeOne(st, flips, A);
    WakeOne(st, flips, B);
    WakeOne(st, flips, C);
    FlipMembers(on, flips, A);
    FlipMembers(on, flips, B);
    FlipMembers(on, flips, C);
  }

  /** A woken peer gets nothing from a neighbour that has nothing for it. */
  lemma NothingForOne(st: State, tick: nat, on: set<PeerId>, p: PeerId)
    requires Scene(st, tick, on, []) && p in st.peers && (p == C ==> !JustWoke(st, p)) && (p == B ==> !JustWoke(st, p))
    ensures Signal(st, p) == st
  {
    hide Sorted, MeshOk;
    if p == A && JustWoke(st, A) {
      Neighbourhoods(st, tick, on, []);
      SortedLists();
      AwakeNeighborsStep(st, [B], 0, A);
      AwakeNeighborsStep(st, [B], 1, A);
      assert DeliverPending(st, B, A) == st;
    }
  }

  lemma Neighbourhoods(st: State, tick: nat, on: set<PeerId>, q: seq<SealedPacket>)
    requires Scene(st, tick, on, q)
    ensures st.peers[A].connections == {B} && st.peers[C].connections == {B} && st.peers[B].connections == {A, C}
  {
  }

  lemma SignalsUnroll(st: State, ids: seq<PeerId>)
    requires Ok(st) && |ids| == 3 && forall p :: p in ids ==> p in st.peers
    ensures AwakeSignals(st, ids) == Signal(Signal(Signal(st, ids[0]), ids[1]), ids[2])
  {
    hide Ok, Quiet, Signal, AwakeSignals;
    var s1 := Signal(st, ids[0]);
    var s2 := Signal(s1, ids[1]);
    AwakeSignalsStep(st, ids, 0);
    AwakeSignalsStep(s1, ids, 1);
    AwakeSignalsStep(s2, ids, 2);
    AwakeSignalsStep(Signal(s2, ids[2]), ids, 3);
    assert ids[0..] == ids;
  }

  lemma QuietSignals(st: State, tick: nat, on: set<PeerId>, q: seq<SealedPacket>)
    requires Scene(st, tick, on, q) && !JustWoke(st, B) && !JustWoke(st, C) && (q != [] ==> !JustWoke(st, A))
    ensures AwakeSignals(st, Sorted(st.peers.Keys)) == st
  {
    hide MeshOk, Sorted, AwakeSignals, AwakeNeighbors, Frame;
    SortedLists();
    SignalsUnroll(st, Sorted(st.peers.Keys));
    if JustWoke(st, A) { NothingForOne(st, tick, on, A); }
  }

  lemma OneForThree(st: State, tick: nat, on: set<PeerId>, pk: SealedPacket)
    requires Scene(st, tick, on, [pk]) && pk.destination == C
    ensures DeliverPending(st, B, C) == Handed(st, pk)
  {
    hide MeshOk, Frame, DeliverPacket, RemoveQueued, DeliverAll;
    var queue := [pk];
    assert queue[..0] == [] && AddressedTo(queue[..0], C) == [] && AddressedTo(queue, C) == [pk];
    DeliverAllStep(st, queue, 0, B);
    DeliverAllStep(Handed(st, pk), queue, 1, B);
    assert queue[0..] == queue;
  }

  lemma OnlyNeighbour(st: State, ns: seq<PeerId>, pk: SealedPacket)
    requires Ok(st) && st.peers.Keys == {A, B, C} && pk.destination == C
    requires ns == [B] && DeliverPending(st, B, C) == Handed(st, pk)
    ensures AwakeNeighbors(st, ns, C) == Handed(st, pk)
  {
    hide Ok, Handed, AwakeNeighbors, DeliverPending;
    AwakeNeighborsStep(st, ns, 0, C);
    AwakeNeighborsStep(Handed(st, pk), ns, 1, C);
    assert ns[0..] == ns;
  }

  lemma SignalThree(st: State, tick: nat, on: set<PeerId>, pk: SealedPacket)
    requires Scene(st, tick, on, [pk]) && pk.destination == C && JustWoke(st, C)
    ensures Signal(st, C) == Handed(st, pk)
  {
    hide MeshOk, Frame, Sorted, Handed, AwakeNeighbors, DeliverPending;
    Neighbourhoods(st, tick, on, [pk]);
    SortedLists();
    OneForThree(st, tick, on, pk);
    OnlyNeighbour(st, Sorted(st.peers[C].connections), pk);
  }

  /** The last peer wakes and is handed the packet that waits for it. */
  lemma WakingSignals(st: State, tick: nat, on: set<PeerId>, pk: SealedPacket)
    requires Scene(st, tick, on, [pk]) && pk.destination == C && !JustWoke(st, A) && !JustWoke(st, B) && JustWoke(st, C)
    ensures AwakeSignals(st, Sorted(st.peers.Keys)) == Handed(st, pk)
  {
    hide MeshOk, Frame, Sorted, AwakeSignals, Handed, AwakeNeighbors;
    SortedLists();
    SignalsUnroll(st, Sorted(st.peers.Keys));
    SignalThree(st, tick, on, pk);
  }

  // Pending sends

  ghost predicate Relayed(pk: SealedPacket) { pk.destination == C && pk.visited == {A, B} }

  lemma MintScene(st: State, tick: nat, on: set<PeerId>)
    requires Scene(st, tick, on, [])
    ensures var (r, pk) := Mint(st, HELLO);
            && Scene(r, tick, on, []) && r.backprops == st.backprops && r.pending == st.pending
            && pk.destination == C && pk.visited == {A} && pk.ttl == 10
  {
    hide MeshOk;
  }

  lemma RouteScene(st: State, tick: nat, on: set<PeerId>, s: PendingSend)
    requires Scene(st, tick, on, []) && A in on && B in on && s.message == HELLO
    ensures var r := RouteMessage(st, s);
            && r.pending == st.pending && r.backprops == st.backprops
            && exists pk :: Relayed(pk) && Scene(r, tick, on, [pk])
  {
    hide MeshOk, Frame, FindRelayPath, DeliverPacket, Enqueue, Mint;
    var (minted, pk) := Mint(st, HELLO);
    MintScene(st, tick, on);
    RelayScene(minted, tick, on, pk);
    assert RouteMessage(st, s) == FindRelayPath(minted, pk, A);
    var sent := pk.(ttl := 9, visited := {A, B});
    assert Relayed(sent) && Scene(FindRelayPath(minted, pk, A), tick, on, [sent]);
  }

  /** The first peer's only pending send is relayed to the middle peer. */
  lemma SendScene(st: State, tick: nat, on: set<PeerId>, s: PendingSend)
    requires Scene(st, tick, on, []) && A in on && B in on && s.message == HELLO
    ensures var r := ProcessSends(st.(pending := []), [s]);
            && r.pending == [] && r.backprops == st.backprops
            && exists pk :: Relayed(pk) && Scene(r, tick, on, [pk])
  {
    hide MeshOk, Frame, RouteMessage, ProcessSends;
    var st0, sends := st.(pending := []), [s];
    var told := Emit(st0, Send(HELLO, st0.tick));
    RouteScene(told, tick, on, s);
    ProcessSendsStep(st0, sends, 0);
    ProcessSendsStep(RouteMessage(told, s), sends, 1);
    assert sends[0..] == sends;
  }

  lemma DispatchScene(st: State, tick: nat, on: set<PeerId>, s: PendingSend)
    requires Scene(st, tick, on, []) && A in on && B in on && st.pending == [s] && s.message == HELLO && !JustWoke(st, B) && !JustWoke(st, C)
    ensures var r := Dispatched(st);
            r.pending == [] && r.backprops == st.backprops && exists pk :: Relayed(pk) && Scene(r, tick, on, [pk])
  {
    hide Scene, AwakeSignals, ProcessSends, Sorted, JustWoke;
    assert Ok(st) && st.peers.Keys == {A, B, C} by { SceneFacts(st, tick, on, []); }
    QuietSignals(st, tick, on, []);
    SendScene(st, tick, on, s);
  }

  // Relay queues

  lemma RelaysUnroll(st: State, ids: seq<PeerId>)
    requires Ok(st) && |ids| == 3 && forall p :: p in ids ==> p in st.peers
    ensures RelayQueues(st, ids) == RelayTurn(RelayTurn(RelayTurn(st, ids[0]), ids[1]), ids[2])
  {
    hide Ok, Quiet, RelayTurn, RelayQueues;
    var s1 := RelayTurn(st, ids[0]);
    var s2 := RelayTurn(s1, ids[1]);
    RelayQueuesStep(st, ids, 0);
    RelayQueuesStep(s1, ids, 1);
    RelayQueuesStep(s2, ids, 2);
    RelayQueuesStep(RelayTurn(s2, ids[2]), ids, 3);
    assert ids[0..] == ids;
  }

  lemma EmptyTurn(st: State, p: PeerId)
    requires Ok(st) && p in st.peers && st.peers[p].relayQueue == []
    ensures RelayTurn(st, p) == st
  {
  }

  lemma WaitingTurn(st: State, tick: nat, on: set<PeerId>, pk: SealedPacket)
    requires Scene(st, tick, on, [pk]) && pk.destination == C && C !in on
    ensures RelayTurn(st, B) == st
  {
    hide MeshOk, Frame, ForwardAll;
    var queue := [pk];
    assert ForwardOne(st, pk, B) == st;
    ForwardAllStep(st, queue, 0, B);
    ForwardAllStep(st, queue, 1, B);
    assert queue[0..] == queue;
  }

  lemma HandingTurn(st: State, tick: nat, on: set<PeerId>, pk: SealedPacket)
    requires Scene(st, tick, on, [pk]) && pk.destination == C && B in on && C in on
    ensures RelayTurn(st, B) == Handed(st, pk)
  {
    hide MeshOk, Frame, ForwardAll, DeliverPacket, RemoveQueued;
    var queue := [pk];
    assert ForwardOne(st, pk, B) == Handed(st, pk);
    ForwardAllStep(st, queue, 0, B);
    ForwardAllStep(Handed(st, pk), queue, 1, B);
    assert queue[0..] == queue;
  }

  lemma ThreeTurns(st: State)
    requires Ok(st) && st.peers.Keys == {A, B, C} && st.peers[A].relayQueue == []
    requires RelayTurn(st, B).peers[C].relayQueue == []
    ensures RelayQueues(st, Sorted(st.peers.Keys)) == RelayTurn(st, B)
  {
    hide MeshOk, Quiet, Sorted, RelayQueues, RelayTurn;
    SortedLists();
    RelaysUnroll(st, Sorted(st.peers.Keys));
    EmptyTurn(st, A);
    EmptyTurn(RelayTurn(st, B), C);
  }

  /** Nothing moves while the middle peer's queue is empty or its packet's destination sleeps. */
  lemma IdleRelays(st: State, tick: nat, on: set<PeerId>, q: seq<SealedPacket>)
    requires Scene(st, tick, on, q) && (q == [] || (|q| == 1 && q[0].destination == C && C !in on))
    ensures RelayQueues(st, Sorted(st.peers.Keys)) == st
  {
    hide MeshOk, Sorted, RelayQueues, RelayTurn;
    if q == [] {
      EmptyTurn(st, B);
    } else {
      assert q == [q[0]];
      WaitingTurn(st, tick, on, q[0]);
    }
    ThreeTurns(st);
  }

  lemma HandingRelays(st: State, tick: nat, on: set<PeerId>, pk: SealedPacket)
    requires Scene(st, tick, on, [pk]) && pk.destination == C && B in on && C in on && |pk.visited| > 1
    ensures RelayQueues(st, Sorted(st.peers.Keys)) == Handed(st, pk)
  {
    hide MeshOk, Sorted, RelayQueues, RelayTurn, Handed;
    HandingTurn(st, tick, on, pk);
    HandScene(st, tick, on, pk);
    ThreeTurns(st);
  }

  // ---------------------------------------------------------------------
  // Four ticks
  // ---------------------------------------------------------------------

  lemma {:induction false} NoneFinished(st: State, bs: seq<BackPropState>)
    requires forall i :: 0 <= i < |bs| ==> !TimedOut(st, bs[i]) && !Completed(st, bs[i])
    ensures TimedOutAt(st, bs) == [] && CompletedAt(st, bs) == []
  {
    if bs != [] { NoneFinished(st, bs[..|bs|-1]); }
  }

  /** While nothing is finished, the confirmation phase only moves confirmations on. */
  lemma OnlyAdvances(st: State)
    requires Ok(st) && forall i :: 0 <= i < |st.backprops| ==> !TimedOut(st, st.backprops[i]) && !Completed(st, st.backprops[i])
    ensures ProcessBackprops(st) == Some(Scanned(st))
  {
    hide MeshOk, TimedOut, Completed, AdvanceAll, HopEvents;
    NoneFinished(st, st.backprops);
  }

  lemma ScannedScene(st: State, tick: nat, on: set<PeerId>, q: seq<SealedPacket>)
    requires Scene(st, tick, on, q)
    ensures Scene(Scanned(st), tick, on, q) && Scanned(st).pending == st.pending
  {
    hide MeshOk, AdvanceAll, HopEvents;
  }

  ghost predicate NothingFinished(s: State) {
    forall i :: 0 <= i < |s.backprops| ==> !TimedOut(s, s.backprops[i]) && !Completed(s, s.backprops[i])
  }

  /** A tick below one hundred without finished confirmations: no removal, no aging. */
  lemma TickEnds(s: State, tick: nat, on: set<PeerId>, q: seq<SealedPacket>)
    requires Scene(s, tick, on, q) && 0 < tick < 100 && NothingFinished(s)
    ensures Concluded(s) == Some(Scanned(s)) && Scene(Scanned(s), tick, on, q) && Scanned(s).pending == s.pending
  {
    hide MeshOk, ProcessBackprops, ProcessAging, TimedOut, Completed, Scanned;
    OnlyAdvances(s);
    ScannedScene(s, tick, on, q);
    ScannedKeeps(s);
  }

  /** Without pending sends the dispatch phase is the awake signals. */
  lemma NothingToSend(st: State)
    requires Ok(st) && st.pending == []
    ensures Dispatched(st) == AwakeSignals(st, Sorted(st.peers.Keys))
  {
    hide MeshOk, AwakeSignals, Sorted;
  }

  lemma NoConfirmations(s: State)
    requires s.backprops == []
    ensures NothingFinished(s) && Scanned(s).backprops == []
  {
  }

  /** A confirmation on its way back along the first two peers. */
  function Confirming(id: PacketId, index: nat, delivered: nat): BackPropState {
    BackPropState(id, [A, B], index, delivered)
  }

  lemma HandConfirms(st: State, tick: nat, on: set<PeerId>, pk: SealedPacket)
    requires Scene(st, tick, on, [pk]) && Relayed(pk)
    ensures var r := Handed(st, pk);
            Scene(r, tick, on, []) && r.pending == st.pending && r.backprops == st.backprops + [Confirming(pk.id, 0, tick)]
  {
    hide Scene, Ok, Handed, Sorted;
    SceneFacts(st, tick, on, [pk]);
    HandScene(st, tick, on, pk);
    SortedLists();
  }

  /** A confirmation whose sender sleeps does not move. */
  lemma StuckConfirmation(s: State, id: PacketId)
    requires s.backprops == [] + [Confirming(id, 0, s.tick)] && s.config == CONFIG && !Online(s, A)
    ensures NothingFinished(s) && Scanned(s).backprops == [Confirming(id, 0, s.tick)]
  {
    hide HopEvents;
  }

  lemma BothMove(s: State, b: BackPropState, c: BackPropState)
    requires s.backprops == [b, c] && s.config == CONFIG && Online(s, A) && Online(s, B)
    requires b.path == c.path == [A, B] && b.index == c.index == 0 && s.tick == c.deliveredTick == b.deliveredTick + 1
    ensures NothingFinished(s) && Scanned(s).backprops == [b.(index := 1), c.(index := 1)]
  {
    hide HopEvents;
    assert Advance(s, b) == b.(index := 1) && Advance(s, c) == c.(index := 1);
  }

  lemma ScannedKeeps(s: State)
    ensures Scanned(s).config == s.config && Scanned(s).tick == s.tick
  {
  }

  /** There is a next state: this scene, no pending sends and these confirmations under way. */
  ghost predicate Becomes(tick: nat, on: set<PeerId>, q: seq<SealedPacket>, bs: seq<BackPropState>, next: Option<State>) {
    next.Some? && Scene(next.value, tick, on, q) && next.value.pending == [] && next.value.backprops == bs
  }

  lemma FirstTick(st: State)
    requires Scene(st, 0, {A, B}, []) && st.pending == [PendingSend(HELLO, 0, 0)] && st.backprops == []
    ensures exists pk :: Relayed(pk) && Becomes(1, {A, B}, [pk], [], Step(st, {}))
  {
    hide MeshOk, Woken, AwakeSignals, ProcessSends, RelayQueues, Sorted, JustWoke, Concluded, Scanned, NothingFinished, Dispatched, Frame;
    WakeScene(st, 0, {A, B}, [], {});
    assert Flip({A, B}, {}) == {A, B};
    var woken := Woken(st, {});
    DispatchScene(woken, 1, {A, B}, st.pending[0]);
    var s := Dispatched(woken);
    var pk :| Relayed(pk) && Scene(s, 1, {A, B}, [pk]);
    IdleRelays(s, 1, {A, B}, [pk]);
    NoConfirmations(s);
    assert Routed(st, {}) == s;
    TickEnds(s, 1, {A, B}, [pk]);
    assert Becomes(1, {A, B}, [pk], [], Step(st, {}));
  }

  /** The sender falls asleep and the receiver wakes: the packet arrives, its confirmation is stuck. */
  lemma SecondTick(st: State, pk: SealedPacket)
    requires Scene(st, 1, {A, B}, [pk]) && Relayed(pk) && st.pending == [] && st.backprops == []
    ensures Becomes(2, {B, C}, [], [Confirming(pk.id, 0, 2)], Step(st, {A, C}))
  {
    hide MeshOk, Woken, AwakeSignals, ProcessSends, RelayQueues, Sorted, JustWoke, Concluded, Handed, Scanned, NothingFinished, Dispatched, Frame;
    WakeScene(st, 1, {A, B}, [pk], {A, C});
    assert Flip({A, B}, {A, C}) == {B, C};
    var woken := Woken(st, {A, C});
    WakingSignals(woken, 2, {B, C}, pk);
    HandConfirms(woken, 2, {B, C}, pk);
    SortedLists();
    NothingToSend(woken);
    var s := Handed(woken, pk);
    assert Dispatched(woken) == s;
    IdleRelays(s, 2, {B, C}, []);
    assert Routed(st, {A, C}) == s;
    StuckConfirmation(s, pk.id);
    TickEnds(s, 2, {B, C}, []);
  }

  lemma ThirdRouted(st: State)
    requires Scene(st, 2, {B, C}, []) && st.pending == [PendingSend(HELLO, 2, 0)]
    ensures exists x :: Becomes(3, {A, B, C}, [], st.backprops + [Confirming(x, 0, 3)], Some(Routed(st, {A})))
  {
    hide MeshOk, Woken, AwakeSignals, ProcessSends, RelayQueues, Sorted, JustWoke, Handed, Dispatched, Frame;
    WakeScene(st, 2, {B, C}, [], {A});
    assert Flip({B, C}, {A}) == {A, B, C};
    var woken, on := Woken(st, {A}), {A, B, C};
    DispatchScene(woken, 3, on, st.pending[0]);
    var sent := Dispatched(woken);
    var pk :| Relayed(pk) && Scene(sent, 3, on, [pk]);
    HandingRelays(sent, 3, on, pk);
    HandConfirms(sent, 3, on, pk);
    SortedLists();
    assert Routed(st, {A}) == Handed(sent, pk);
    assert Becomes(3, on, [], st.backprops + [Confirming(pk.id, 0, 3)], Some(Routed(st, {A})));
  }

  /** The sender wakes: its second message arrives at once, and both confirmations take their last hop. */
  lemma ThirdTick(st: State, id: PacketId)
    requires Scene(st, 2, {B, C}, []) && st.pending == [PendingSend(HELLO, 2, 0)] && st.backprops == [Confirming(id, 0, 2)]
    ensures exists x :: Becomes(3, {A, B, C}, [], [Confirming(id, 1, 2), Confirming(x, 1, 3)], Step(st, {A}))
  {
    hide MeshOk, Routed, Concluded, Scanned, NothingFinished;
    ThirdRouted(st);
    var s := Routed(st, {A});
    var x :| Becomes(3, {A, B, C}, [], st.backprops + [Confirming(x, 0, 3)], Some(s));
    BothMove(s, Confirming(id, 0, 2), Confirming(x, 0, 3));
    TickEnds(s, 3, {A, B, C}, []);
    assert Becomes(3, {A, B, C}, [], [Confirming(id, 1, 2), Confirming(x, 1, 3)], Step(st, {A}));
  }

  /** The first confirmation is late and the second complete: position 1 is recorded, but one entry is left. */
  lemma FourthTick(st: State, id: PacketId, x: PacketId)
    requires Scene(st, 3, {A, B, C}, []) && st.pending == []
    requires st.backprops == [Confirming(id, 1, 2), Confirming(x, 1, 3)]
    ensures var s := Routed(st, {}); |Late(s)| == 1 && Complete(s) == [1] && |s.backprops| == 2
  {
    hide MeshOk, Woken, AwakeSignals, ProcessSends, RelayQueues, Sorted, JustWoke, Dispatched, Late, Complete;
    WakeScene(st, 3, {A, B, C}, [], {});
    assert Flip({A, B, C}, {}) == {A, B, C};
    var woken := Woken(st, {});
    QuietSignals(woken, 4, {A, B, C}, []);
    NothingToSend(woken);
    IdleRelays(woken, 4, {A, B, C}, []);
    assert Routed(st, {}) == woken;
    LateAndComplete(woken);
  }

  lemma LateAndComplete(s: State)
    requires s.tick == 4 && s.config == CONFIG && |s.backprops| == 2
    requires s.backprops[0].deliveredTick == 2 && s.backprops[1].deliveredTick == 3
    requires s.backprops[1].index == 1 && s.backprops[1].path == [A, B]
    ensures |Late(s)| == 1 && Complete(s) == [1]
  {
    var bs := s.backprops;
    assert bs[..1][..0] == [] && bs[..2] == bs;
    assert TimedOutAt(s, bs[..1][..0]) == [] && TimedOutAt(s, bs[..1]) == [0] && TimedOutAt(s, bs) == [0];
    assert CompletedAt(s, bs[..1][..0]) == [] && CompletedAt(s, bs[..1]) == [] && CompletedAt(s, bs) == [1];
  }

  // ---------------------------------------------------------------------
  // The run
  // ---------------------------------------------------------------------

  const CALLS := [DoSend(HELLO), DoStep({}), DoStep({A, C}), DoSend(HELLO), DoStep({A})]

  lemma InitializeUnroll(st: State, ids: seq<PeerId>, on: set<PeerId>)
    requires Ok(st) && |ids| == 3 && forall p :: p in ids ==> p in st.peers
    ensures Initialize(st, ids, on) == Draw(Draw(Draw(st, ids[0], ids[0] in on), ids[1], ids[1] in on), ids[2], ids[2] in on)
  {
    hide Ok, Initialize, Draw;
    var s1 := Draw(st, ids[0], ids[0] in on);
    var s2 := Draw(s1, ids[1], ids[1] in on);
    InitializeStep(st, ids, 0, on);
    InitializeStep(s1, ids, 1, on);
    InitializeStep(s2, ids, 2, on);
    InitializeStep(Draw(s2, ids[2], ids[2] in on), ids, 3, on);
    assert ids[0..] == ids;
  }

  lemma DrawEffect(st: State, p: PeerId, online: bool)
    requires Ok(st) && p in st.peers
    ensures var r := Draw(st, p, online);
            && r == st.(peers := r.peers, log := r.log)
            && r.peers[p] == st.peers[p].(online := online, lastOnlineTick := if online then Some(0) else st.peers[p].lastOnlineTick)
            && forall x :: x in st.peers && x != p ==> r.peers[x] == st.peers[x]
  {
    hide MeshOk;
  }

  lemma DrawScene(st: State, on: set<PeerId>, p: PeerId, online: bool)
    requires Scene(st, 0, on, []) && p in st.peers
    ensures var r := Draw(st, p, online);
            && Scene(r, 0, if online then on + {p} else on - {p}, [])
            && r.pending == st.pending && r.backprops == st.backprops
  {
    hide MeshOk, Draw;
    DrawEffect(st, p, online);
  }

  lemma MadeScene()
    ensures PEERS.Keys == {A, B, C} && Scene(NewState(PEERS, LINE, CONFIG), 0, {}, [])
  {
    SetupIsValid();
  }

  lemma MadeIsValid()
    ensures SETUP.Valid() && Ok(NewState(PEERS, LINE, CONFIG)) && PEERS.Keys == {A, B, C}
  {
    SetupIsValid();
  }

  lemma StartIs()
    ensures SETUP.Valid() && Ok(NewState(PEERS, LINE, CONFIG)) && PEERS.Keys == {A, B, C}
    ensures SETUP.Start() == Initialize(NewState(PEERS, LINE, CONFIG), Sorted(PEERS.Keys), {A, B})
  {
    MadeIsValid();
    hide Initialize, Sorted, MeshOk, Unused, PEERS, LINE, CONFIG;
  }

  lemma ThreeDraws(made: State, ids: seq<PeerId>)
    requires Scene(made, 0, {}, []) && ids == [A, B, C] && forall p :: p in ids ==> p in made.peers
    ensures var r := Initialize(made, ids, {A, B});
            Scene(r, 0, {A, B}, []) && r.pending == made.pending && r.backprops == made.backprops
  {
    hide Initialize, Ok, Draw, Scene;
    SceneFacts(made, 0, {}, []);
    InitializeUnroll(made, ids, {A, B});
    var s1 := Draw(made, A, true);
    var s2 := Draw(s1, B, true);
    DrawScene(made, {}, A, true);
    DrawScene(s1, {} + {A}, B, true);
    DrawScene(s2, {} + {A} + {B}, C, false);
    assert {} + {A} + {B} - {C} == {A, B};
  }

  lemma StartScene()
    ensures SETUP.Valid()
    ensures var st := SETUP.Start(); Scene(st, 0, {A, B}, []) && st.pending == [] && st.backprops == []
  {
    hide Initialize, Sorted, Ok, Scene, PEERS, LINE, CONFIG, SETUP, Setup.Start, Setup.Valid;
    StartIs();
    MadeScene();
    SortedLists();
    ThreeDraws(NewState(PEERS, LINE, CONFIG), Sorted(PEERS.Keys));
  }

  lemma StartReached()
    requires SETUP.Valid()
    ensures Reaches(SETUP, CALLS[..0], SETUP.Start())
  {
    hide MeshOk, Initialize, SETUP, Unused;
  }

  lemma ReachNext(k: nat, st: State, next: State)
    requires k < |CALLS| && Reaches(SETUP, CALLS[..k], st) && Ok(st) && Act(st, CALLS[k]) == Some(next)
    ensures Reaches(SETUP, CALLS[..k+1], next)
  {
    hide MeshOk, Act, Initialize, SETUP, Unused, CALLS;
    assert CALLS[..k+1][..k] == CALLS[..k];
  }

  lemma SendKeepsScene(st: State, tick: nat, on: set<PeerId>)
    requires Scene(st, tick, on, []) && st.pending == []
    ensures var r := SendMessage(st, HELLO);
            Scene(r, tick, on, []) && r.pending == [PendingSend(HELLO, tick, 0)] && r.backprops == st.backprops
  {
    hide MeshOk;
  }

  lemma FirstSend() returns (st: State)
    ensures Reaches(SETUP, CALLS[..1], st) && Scene(st, 0, {A, B}, []) && st.pending == [PendingSend(HELLO, 0, 0)] && st.backprops == []
  {
    hide Scene, Reaches, Run, SendMessage, SETUP, Ok, Setup.Start, Setup.Valid, PEERS, LINE, CONFIG;
    StartScene();
    StartReached();
    var s0 := SETUP.Start();
    SceneFacts(s0, 0, {A, B}, []);
    SendKeepsScene(s0, 0, {A, B});
    st := SendMessage(s0, HELLO);
    ReachNext(0, s0, st);
  }

  /** The first three calls: a packet has arrived whose confirmation waits for a sleeping sender. */
  lemma FirstHalf() returns (st: State, id: PacketId)
    ensures Becomes(2, {B, C}, [], [Confirming(id, 0, 2)], Some(st)) && Reaches(SETUP, CALLS[..3], st)
  {
    hide Scene, Reaches, Run, Step, SendMessage, SETUP, Ok;
    var s1 := FirstSend();
    SceneFacts(s1, 0, {A, B}, []);
    FirstTick(s1);
    var pk :| Relayed(pk) && Becomes(1, {A, B}, [pk], [], Step(s1, {}));
    var s2 := Step(s1, {}).value;
    ReachNext(1, s1, s2);
    SceneFacts(s2, 1, {A, B}, [pk]);
    SecondTick(s2, pk);
    st, id := Step(s2, {A, C}).value, pk.id;
    ReachNext(2, s2, st);
  }

  /** Five calls on an ordinary mesh of three peers lead to a state in which the next tick panics. */
  lemma APanicIsReachable()
    ensures exists st :: Reaches(SETUP, CALLS, st) && Ok(st) && Step(st, {}).None?
  {
    hide Scene, Reaches, Run, Step, SendMessage, SETUP, Ok, Routed, Late, Complete;
    var s3, id := FirstHalf();
    SceneFacts(s3, 2, {B, C}, []);
    SendKeepsScene(s3, 2, {B, C});
    var s4 := SendMessage(s3, HELLO);
    ReachNext(3, s3, s4);
    SceneFacts(s4, 2, {B, C}, []);
    ThirdTick(s4, id);
    var x :| Becomes(3, {A, B, C}, [], [Confirming(id, 1, 2), Confirming(x, 1, 3)], Step(s4, {A}));
    var s5 := Step(s4, {A}).value;
    ReachNext(4, s4, s5);
    assert CALLS[..5] == CALLS;
    SceneFacts(s5, 3, {A, B, C}, []);
    FourthTick(s5, id, x);
    StepPanicsExactly(SETUP, CALLS, s5, {});
    assert Step(s5, {}).None?;
  }

  // ---------------------------------------------------------------------
  // The mesh can be built
  // ---------------------------------------------------------------------

  const EDGES: seq<(nat, nat)> := [(A, B), (B, C)]

  lemma JoinedInLine(x: PeerId, y: PeerId)
    ensures Mesh.Joins(EDGES, x, y) <==> x in LINE && y in LINE[x]
  {
    assert forall e :: e in EDGES <==> e == (A, B) || e == (B, C);
  }

  lemma MentionedInLine(x: PeerId)
    ensures Mesh.Mentions(EDGES, x) <==> x in LINE
  {
    if Mesh.Mentions(EDGES, x) {
      var y :| Mesh.Joins(EDGES, x, y);
      JoinedInLine(x, y);
    }
    JoinedInLine(A, B);
    JoinedInLine(B, A);
    JoinedInLine(C, B);
    if x in LINE { assert x == A || x == B || x == C; }
  }

  /** What from_edges promises for the edges A-B and B-C pins down exactly the mesh of this run. */
  lemma LineIsFromEdges(peers: Peers, adjacency: Adjacency)
    requires MeshOk(peers, adjacency)
    requires forall x, y :: Mesh.Edge(adjacency, x, y) <==> Mesh.Joins(EDGES, x, y)
    requires forall x :: x in peers <==> Mesh.Mentions(EDGES, x)
    requires forall x :: x in peers ==> peers[x].(connections := {}) == NewPeer(x)
    ensures peers == PEERS && adjacency == LINE
  {
    hide Mesh.Joins, Mesh.Mentions, LINE, PEERS;
    forall x ensures x in peers <==> x in LINE { MentionedInLine(x); }
    assert adjacency.Keys == LINE.Keys;
    forall x | x in LINE ensures adjacency[x] == LINE[x] {
      forall y ensures y in adjacency[x] <==> y in LINE[x] {
        JoinedInLine(x, y);
        assert Mesh.Edge(adjacency, x, y) <==> Mesh.Joins(EDGES, x, y);
      }
    }
    PeersAreFresh();
    forall x | x in peers ensures peers[x] == Fresh(x) { }
  }

  /** from_edges builds it. */
  method BuildLine() returns (mesh: Mesh.Mesh?)
    ensures mesh != null && fresh(mesh) && mesh.peers == PEERS && mesh.adjacency == LINE
  {
    hide LINE, PEERS, Mesh.Joins, Mesh.Mentions, Mesh.Edge, MeshOk, Mesh.InterfacesOk;
    mesh := Mesh.FromEdges([(65, 66), (66, 67)]);
    assert EDGES == [(65, 66), (66, 67)];
    LineIsFromEdges(mesh.peers, mesh.adjacency);
  }
}
