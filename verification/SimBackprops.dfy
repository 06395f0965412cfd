/** Back-propagation: what the removal loops really remove, and that the phase keeps the invariant. */
module SimBackprops {
  import opened Common
  import opened SimTypes
  import opened SimSpec
  import opened SimInvariant
  import opened SimMoves

  // ---------------------------------------------------------------------
  // Removing positions from a list
  // ---------------------------------------------------------------------

  /** The elements of a list whose positions are not in s. */
  function Rest<T>(list: seq<T>, s: set<nat>): seq<T> {
    if list == [] then []
    else Rest(list[..|list|-1], s) + if |list| - 1 in s then [] else [list[|list|-1]]
  }

  /** Vec::remove at each position, last position first; None when one of them is out of range. */
  function RemoveDescending<T>(list: seq<T>, at: seq<nat>): Option<seq<T>>
    decreases |at|
  {
    if at == [] then Some(list)
    else if at[|at|-1] >= |list| then None
    else RemoveDescending(RemoveAt(list, at[|at|-1]), at[..|at|-1])
  }

  function Positions(at: seq<nat>): set<nat> { set i | i in at }

  lemma {:induction false} RestOfAppend<T>(a: seq<T>, b: seq<T>, s: set<nat>)
    requires forall i :: i in s ==> i < |a|
    ensures Rest(a + b, s) == Rest(a, s) + b
  {
    hide Rest;
    if b == [] {
      assert a + b == a && Rest(a, s) + b == Rest(a, s);
    } else {
      var n := |b| - 1;
      RestOfAppend(a, b[..n], s);
      RestOneMore(a + b[..n], b[n], s);
      assert (a + b[..n]) + [b[n]] == a + b;
      assert (Rest(a, s) + b[..n]) + [b[n]] == Rest(a, s) + b;
    }
  }

  lemma RestOneMore<T>(list: seq<T>, x: T, s: set<nat>)
    ensures Rest(list + [x], s) == Rest(list, s) + if |list| in s then [] else [x]
  {
    assert (list + [x])[..|list|] == list;
  }

  lemma {:induction false} RestOfNone<T>(list: seq<T>)
    ensures Rest(list, {}) == list
  {
    if list != [] { RestOfNone(list[..|list|-1]); }
  }

  lemma {:induction false} RestIgnores<T>(list: seq<T>, s: set<nat>, k: nat)
    requires k >= |list|
    ensures Rest(list, s + {k}) == Rest(list, s)
  {
    if list != [] { RestIgnores(list[..|list|-1], s, k); }
  }

  lemma RestRemoveAt<T>(list: seq<T>, s: set<nat>, k: nat)
    requires k < |list| && forall i :: i in s ==> i < k
    ensures Rest(RemoveAt(list, k), s) == Rest(list, s + {k})
  {
    hide Rest;
    var front, back := list[..k], list[k+1..];
    RestOfAppend(front, back, s);
    RestDrops(front, list[k], s);
    RestOfAppend(front + [list[k]], back, s + {k});
    assert list == (front + [list[k]]) + back;
  }

  lemma RestDrops<T>(front: seq<T>, x: T, s: set<nat>)
    ensures Rest(front + [x], s + {|front|}) == Rest(front, s)
  {
    assert (front + [x])[..|front|] == front;
    RestIgnores(front, s, |front|);
  }

  /** Positions removed in descending order are exactly the positions that go. */
  lemma {:induction false} RemoveDescendingIsRest<T>(list: seq<T>, at: seq<nat>)
    requires StrictlyAscending(at)
    ensures RemoveDescending(list, at).None? <==> at != [] && at[|at|-1] >= |list|
    ensures RemoveDescending(list, at).Some? ==> RemoveDescending(list, at).value == Rest(list, Positions(at))
    decreases |at|
  {
    if at == [] {
      RestOfNone(list);
      assert Positions(at) == {};
    } else {
      var n := |at| - 1;
      var k := at[n];
      assert Positions(at) == Positions(at[..n]) + {k};
      if k < |list| {
        RemoveDescendingIsRest(RemoveAt(list, k), at[..n]);
        RestRemoveAt(list, Positions(at[..n]), k);
      }
    }
  }

  lemma {:induction false} RestMembers<T>(list: seq<T>, s: set<nat>, x: T)
    ensures x in Rest(list, s) <==> exists i :: 0 <= i < |list| && i !in s && list[i] == x
  {
    if list != [] {
      var n := |list| - 1;
      var front := list[..n];
      RestMembers(front, s, x);
      if x in Rest(front, s) {
        var i :| 0 <= i < |front| && i !in s && front[i] == x;
        assert list[i] == x;
      }
      if i :| 0 <= i < |list| && i !in s && list[i] == x {
        assert i == n || front[i] == x;
      }
    }
  }

  // ---------------------------------------------------------------------
  // The recorded positions
  // ---------------------------------------------------------------------

  lemma {:induction false} CompletedAtIs(st: State, bs: seq<BackPropState>)
    ensures StrictlyAscending(CompletedAt(st, bs))
    ensures forall i :: i in CompletedAt(st, bs) <==> 0 <= i < |bs| && Completed(st, bs[i])
  {
    if bs != [] {
      var n := |bs| - 1;
      CompletedAtIs(st, bs[..n]);
      var front := CompletedAt(st, bs[..n]);
      assert forall j :: 0 <= j < |front| ==> front[j] in front;
    }
  }

  ghost predicate Ordered(bs: seq<BackPropState>) {
    forall i, j :: 0 <= i < j < |bs| ==> bs[i].deliveredTick <= bs[j].deliveredTick
  }

  function UpTo(k: nat): seq<nat> { if k == 0 then [] else UpTo(k - 1) + [k - 1] }

  /** The timed-out entries are the oldest ones: a prefix of the list. */
  lemma {:induction false} TimedOutIsPrefix(st: State, bs: seq<BackPropState>)
    requires Ordered(bs)
    ensures |TimedOutAt(st, bs)| <= |bs| && TimedOutAt(st, bs) == UpTo(|TimedOutAt(st, bs)|)
    ensures forall i :: 0 <= i < |bs| ==> (TimedOut(st, bs[i]) <==> i < |TimedOutAt(st, bs)|)
  {
    if bs != [] {
      var n := |bs| - 1;
      TimedOutIsPrefix(st, bs[..n]);
      var k := |TimedOutAt(st, bs[..n])|;
      if TimedOut(st, bs[n]) && k < n {
        assert bs[k].deliveredTick <= bs[n].deliveredTick;
        assert TimedOut(st, bs[..n][k]);
      }
    }
  }

  lemma {:induction false} UpToIs(k: nat)
    ensures |UpTo(k)| == k && StrictlyAscending(UpTo(k)) && forall i :: i in UpTo(k) <==> 0 <= i < k
  {
    if k > 0 {
      UpToIs(k - 1);
      var front := UpTo(k - 1);
      assert forall j :: 0 <= j < |front| ==> front[j] in front;
    }
  }

  lemma {:induction false} RestOfPrefix<T>(list: seq<T>, k: nat)
    requires k <= |list|
    ensures Rest(list, Positions(UpTo(k))) == list[k..]
  {
    UpToIs(k);
    if list != [] {
      var n := |list| - 1;
      if k <= n {
        RestOfPrefix(list[..n], k);
        assert list[k..] == list[..n][k..] + [list[n]];
      } else {
        RestDropsAll(list, Positions(UpTo(k)));
      }
    }
  }

  lemma {:induction false} RestDropsAll<T>(list: seq<T>, s: set<nat>)
    requires forall i {:trigger i in s} :: 0 <= i < |list| ==> i in s
    ensures Rest(list, s) == []
  {
    if list != [] { RestDropsAll(list[..|list|-1], s); }
  }

  // ---------------------------------------------------------------------
  // The two removal loops, reduced to list operations
  // ---------------------------------------------------------------------

  lemma {:induction false} DropTimedOutIs(st: State, at: seq<nat>)
    requires Ok(st)
    ensures DropTimedOut(st, at).None? <==> RemoveDescending(st.backprops, at).None?
    ensures DropTimedOut(st, at).Some? ==>
              DropTimedOut(st, at).value ==
                st.(backprops := RemoveDescending(st.backprops, at).value,
                    stats := st.stats.(backpropsTimedOut := st.stats.backpropsTimedOut + |at|))
    decreases |at|
  {
    hide MeshOk;
    if at != [] && at[|at|-1] < |st.backprops| {
      var k := at[|at|-1];
      DropTimedOutIs(st.(backprops := RemoveAt(st.backprops, k),
                         stats := st.stats.(backpropsTimedOut := st.stats.backpropsTimedOut + 1)), at[..|at|-1]);
    }
  }

  /** A confirmed packet is in an inbox, hence in no queue: the queue cleanup removes nothing. */
  lemma {:induction false} CleanupIsIdle(st: State, relays: seq<PeerId>, id: PacketId)
    requires Ok(st) && SingleCopy(st.peers, []) && id in Total(st.peers).filedIds
    ensures CleanQueues(st, relays, id) == st
    decreases |relays|
  {
    hide Total, MeshOk;
    if relays != [] {
      var p := relays[0];
      if p in st.peers {
        AtMostAsMany(st.peers, p, id);
        assert Total(st.peers).queuedIds[id] == 0;
        RetainAbsent(st.peers[p].relayQueue, id);
        assert st.peers[p := st.peers[p]] == st.peers;
      }
      CleanupIsIdle(st, relays[1..], id);
    }
  }

  /** What the completed loop leaves: a shorter list and larger counters, nothing else. */
  ghost predicate OnlyListAndStats(st: State, r: State, bs: seq<BackPropState>) {
    r == st.(backprops := bs, stats := r.stats) &&
    r.stats == st.stats.(totalBackpropLatency := r.stats.totalBackpropLatency, backpropsCompleted := r.stats.backpropsCompleted)
  }

  lemma FinishIsIdle(st: State, b: BackPropState)
    requires Ok(st) && SingleCopy(st.peers, []) && b.packetId in Total(st.peers).filedIds
    ensures OnlyListAndStats(st, FinishBackProp(st, b), st.backprops)
    ensures FinishBackProp(st, b).stats.backpropsCompleted == st.stats.backpropsCompleted + 1
    ensures b.deliveredTick <= st.tick ==>
              FinishBackProp(st, b).stats.totalBackpropLatency == st.stats.totalBackpropLatency + st.tick - b.deliveredTick
  {
    hide Total, MeshOk, SingleCopy, CleanQueues;
    var latency := if st.tick >= b.deliveredTick then st.tick - b.deliveredTick else 0;
    var counted := st.(stats := st.stats.(totalBackpropLatency := st.stats.totalBackpropLatency + latency,
                                          backpropsCompleted := st.stats.backpropsCompleted + 1));
    if |b.path| > 2 { CleanupIsIdle(counted, b.path[1..|b.path|-1], b.packetId); }
  }

  ghost predicate AllFiled(bs: seq<BackPropState>, filed: multiset<PacketId>) {
    forall b :: b in bs ==> b.packetId in filed
  }

  lemma {:induction false} RemoveCompletedIs(st: State, at: seq<nat>)
    requires Ok(st) && SingleCopy(st.peers, []) && AllFiled(st.backprops, Total(st.peers).filedIds)
    ensures RemoveCompleted(st, at).None? <==> RemoveDescending(st.backprops, at).None?
    ensures RemoveCompleted(st, at).Some? ==>
              && OnlyListAndStats(st, RemoveCompleted(st, at).value, RemoveDescending(st.backprops, at).value)
              && RemoveCompleted(st, at).value.stats.backpropsCompleted == st.stats.backpropsCompleted + |at|
    decreases |at|
  {
    hide Total, MeshOk, SingleCopy, FinishBackProp;
    if at != [] && at[|at|-1] < |st.backprops| {
      var k := at[|at|-1];
      var shorter := st.(backprops := RemoveAt(st.backprops, k));
      FinishIsIdle(shorter, st.backprops[k]);
      RemoveCompletedIs(FinishBackProp(shorter, st.backprops[k]), at[..|at|-1]);
    }
  }

  /** How long the confirmations at these positions have been under way, added up. */
  function WaitsOf(tick: nat, bs: seq<BackPropState>, at: seq<nat>): int
    requires forall i :: 0 <= i < |at| ==> at[i] < |bs|
  {
    if at == [] then 0 else WaitsOf(tick, bs, at[..|at|-1]) + tick - bs[at[|at|-1]].deliveredTick
  }

  lemma {:induction false} WaitsBefore(tick: nat, bs: seq<BackPropState>, k: nat, at: seq<nat>)
    requires k < |bs| && forall i :: 0 <= i < |at| ==> at[i] < k
    ensures WaitsOf(tick, RemoveAt(bs, k), at) == WaitsOf(tick, bs, at)
  {
    if at != [] { WaitsBefore(tick, bs, k, at[..|at|-1]); }
  }

  lemma {:induction false} RemovedWaits(st: State, at: seq<nat>)
    requires Ok(st) && SingleCopy(st.peers, []) && AllFiled(st.backprops, Total(st.peers).filedIds) && StrictlyAscending(at)
    requires forall b :: b in st.backprops ==> b.deliveredTick <= st.tick
    requires RemoveCompleted(st, at).Some?
    ensures forall i :: 0 <= i < |at| ==> at[i] < |st.backprops|
    ensures RemoveCompleted(st, at).value.stats.totalBackpropLatency == st.stats.totalBackpropLatency + WaitsOf(st.tick, st.backprops, at)
    decreases |at|
  {
    hide Total, MeshOk, SingleCopy, FinishBackProp;
    if at != [] {
      var k, front := at[|at|-1], at[..|at|-1];
      var shorter := st.(backprops := RemoveAt(st.backprops, k));
      assert st.backprops[k] in st.backprops;
      FinishIsIdle(shorter, st.backprops[k]);
      RemovedWaits(FinishBackProp(shorter, st.backprops[k]), front);
      WaitsBefore(st.tick, st.backprops, k, front);
    }
  }

  // ---------------------------------------------------------------------
  // The whole phase
  // ---------------------------------------------------------------------

  /** Everything about a state's confirmations that the phase relies on. */
  ghost predicate Ready(st: State) {
    Ok(st) && SingleCopy(st.peers, []) && BackpropsOk(st.backprops, st.tick, Total(st.peers).filedIds)
  }

  function Scanned(st: State): State {
    st.(backprops := AdvanceAll(st, st.backprops), log := st.log + HopEvents(st, st.backprops))
  }

  /** Positions removed as timed out, and those recorded as completed. */
  function Late(st: State): seq<nat> { TimedOutAt(st, st.backprops) }

  function Complete(st: State): seq<nat> { CompletedAt(st, st.backprops) }

  /** The state between the two removal loops. */
  function Trimmed(st: State): State {
    var s, k := Scanned(st), |Late(st)|;
    s.(backprops := if k <= |s.backprops| then s.backprops[k..] else [],
       stats := s.stats.(backpropsTimedOut := s.stats.backpropsTimedOut + k))
  }

  lemma FirstLoop(st: State)
    requires Ready(st)
    ensures |Late(st)| <= |st.backprops| && DropTimedOut(Scanned(st), Late(st)) == Some(Trimmed(st))
  {
    hide Total, MeshOk, SingleCopy, AdvanceAll, HopEvents, TimedOutAt, DropTimedOut, RemoveDescending, Rest;
    var bs, s, k := st.backprops, Scanned(st), |Late(st)|;
    TimedOutIsPrefix(st, bs);
    UpToIs(k);
    DropTimedOutIs(s, Late(st));
    RemoveDescendingIsRest(s.backprops, Late(st));
    RestOfPrefix(s.backprops, k);
    LateNeverPanics(st, k);
  }

  /** The phase panics exactly when a stale position is out of range; otherwise it removes the stale positions. */
  lemma PhaseIsRest(st: State)
    requires Ready(st)
    ensures var k, r := |Late(st)|, ProcessBackprops(st);
            && k <= |st.backprops|
            && (r.None? <==> k > 0 && Complete(st) != [] && Complete(st)[|Complete(st)|-1] >= |st.backprops| - k)
            && (r.Some? ==>
                  && OnlyListAndStats(Trimmed(st), r.value, Rest(Trimmed(st).backprops, Positions(Complete(st))))
                  && r.value.stats.backpropsCompleted == st.stats.backpropsCompleted + |Complete(st)|)
  {
    hide Total, MeshOk, SingleCopy, AdvanceAll, HopEvents, TimedOutAt, CompletedAt, DropTimedOut, RemoveCompleted, RemoveDescending, Rest;
    FirstLoop(st);
    CompletedAtIs(st, st.backprops);
    FiledAfterScan(st, |Late(st)|);
    RemoveCompletedIs(Trimmed(st), Complete(st));
    RemoveDescendingIsRest(Trimmed(st).backprops, Complete(st));
    LastComplete(st);
  }

  /** The counters of the phase: one per timed-out entry, one per removed position, and the time the removed entries had
      been under way. */
  lemma PhaseIsCounted(st: State)
    requires Ready(st) && ProcessBackprops(st).Some?
    ensures forall i :: 0 <= i < |Complete(st)| ==> Complete(st)[i] < |Trimmed(st).backprops|
    ensures var r := ProcessBackprops(st).value.stats;
            && r.backpropsTimedOut == st.stats.backpropsTimedOut + |Late(st)|
            && r.backpropsCompleted == st.stats.backpropsCompleted + |Complete(st)|
            && r.totalBackpropLatency == st.stats.totalBackpropLatency + WaitsOf(st.tick, Trimmed(st).backprops, Complete(st))
  {
    hide Total, MeshOk, SingleCopy, AdvanceAll, HopEvents, TimedOutAt, CompletedAt, DropTimedOut, RemoveCompleted, RemoveDescending, Rest;
    FirstLoop(st);
    PhaseIsRest(st);
    CompletedAtIs(st, st.backprops);
    FiledAfterScan(st, |Late(st)|);
    DeliveredBefore(st);
    RemovedWaits(Trimmed(st), Complete(st));
  }

  lemma DeliveredBefore(st: State)
    requires Ready(st)
    ensures forall b :: b in Trimmed(st).backprops ==> b.deliveredTick <= st.tick
  {
    hide Total, MeshOk, SingleCopy, HopEvents, TimedOutAt;
    forall b | b in Trimmed(st).backprops ensures b.deliveredTick <= st.tick {
      var i :| 0 <= i < |Trimmed(st).backprops| && Trimmed(st).backprops[i] == b;
      assert b == Advance(st, st.backprops[|Late(st)| + i]);
    }
  }

  lemma LateNeverPanics(st: State, k: nat)
    requires k <= |st.backprops|
    ensures k > 0 ==> UpTo(k)[|UpTo(k)|-1] < |st.backprops|
  {
    UpToIs(k);
  }

  lemma LastComplete(st: State)
    ensures Complete(st) != [] ==> Complete(st)[|Complete(st)|-1] < |st.backprops|
  {
    CompletedAtIs(st, st.backprops);
    if Complete(st) != [] { assert Complete(st)[|Complete(st)|-1] in Complete(st); }
  }

  lemma FiledAfterScan(st: State, k: nat)
    requires Ready(st) && k <= |st.backprops|
    ensures AllFiled(Scanned(st).backprops[k..], Total(st.peers).filedIds)
  {
    hide Total, MeshOk, SingleCopy;
    var bs := AdvanceAll(st, st.backprops);
    forall b | b in bs[k..] ensures b.packetId in Total(st.peers).filedIds {
      var i :| k <= i < |bs| && bs[i] == b;
      assert b == Advance(st, st.backprops[i]);
    }
  }

  /** Exactly the finished entries are gone and all others remain. */
  ghost predicate RemovesExactlyFinished(st: State)
    requires Ok(st)
  {
    var r := ProcessBackprops(st);
    r.Some? && r.value.backprops == Rest(Scanned(st).backprops, Positions(Late(st)) + Positions(Complete(st)))
  }

  /** The list is right exactly when a tick does not both time out and complete confirmations:
      the positions of the completed ones are recorded before the timed-out ones are removed. */
  lemma StalePositions(st: State)
    requires Ready(st)
    ensures RemovesExactlyFinished(st) <==> Late(st) == [] || Complete(st) == []
  {
    hide Total, MeshOk, SingleCopy, ProcessBackprops, AdvanceAll, HopEvents, TimedOutAt, CompletedAt, Rest;
    PhaseIsRest(st);
    var list, k := Scanned(st).backprops, |Late(st)|;
    TimedOutIsPrefix(st, st.backprops);
    if k == 0 {
      assert list[k..] == list;
      assert Positions(Late(st)) + Positions(Complete(st)) == Positions(Complete(st));
    } else if Complete(st) == [] {
      RestOfPrefix(list, k);
      RestOfNone(list[k..]);
      assert Positions(Late(st)) + Positions(Complete(st)) == Positions(Late(st));
      assert Positions(Complete(st)) == {};
    } else if ProcessBackprops(st).Some? {
      FirstCompletedSurvives(st, k);
    }
  }

  /** With both kinds present, the first completed entry is overlooked. */
  lemma FirstCompletedSurvives(st: State, k: nat)
    requires Ready(st) && k == |Late(st)| > 0 && Complete(st) != [] && k <= |st.backprops|
    ensures Rest(Scanned(st).backprops[k..], Positions(Complete(st)))
         != Rest(Scanned(st).backprops, Positions(Late(st)) + Positions(Complete(st)))
  {
    hide Total, MeshOk, SingleCopy, HopEvents, TimedOutAt, CompletedAt, Rest;
    var list, c := Scanned(st).backprops, Complete(st)[0];
    TimedOutIsPrefix(st, st.backprops);
    CompletedAtIs(st, st.backprops);
    assert c in Complete(st) && c >= k;
    assert forall j :: 0 <= j < |Complete(st)| ==> Complete(st)[j] >= c > c - k;
    forall i | 0 <= i < |list| && list[i] == list[c] ensures i == c {
      assert list[i].packetId == st.backprops[i].packetId && list[c].packetId == st.backprops[c].packetId;
    }
    ShiftedRest(list, k, Positions(Late(st)), Positions(Complete(st)), c);
  }

  /** Counting from k on instead of from the start, the first position to go stays. */
  lemma ShiftedRest<T>(list: seq<T>, k: nat, a: set<nat>, b: set<nat>, c: nat)
    requires 0 < k <= c < |list| && c in b && c - k !in b && forall i :: 0 <= i < |list| && list[i] == list[c] ==> i == c
    ensures Rest(list[k..], b) != Rest(list, a + b)
  {
    hide Rest;
    var x := list[c];
    assert list[k..][c - k] == x;
    RestMembers(list[k..], b, x);
    RestMembers(list, a + b, x);
  }

  // ---------------------------------------------------------------------
  // The phase keeps the invariant
  // ---------------------------------------------------------------------

  lemma {:induction false} RestKeepsBackprops(bs: seq<BackPropState>, s: set<nat>, tick: nat, filed: multiset<PacketId>)
    requires BackpropsOk(bs, tick, filed)
    ensures BackpropsOk(Rest(bs, s), tick, filed)
  {
    if bs != [] {
      var n := |bs| - 1;
      RestKeepsBackprops(bs[..n], s, tick, filed);
      var front := Rest(bs[..n], s);
      forall i | 0 <= i < |front| ensures front[i].deliveredTick <= bs[n].deliveredTick && front[i].packetId != bs[n].packetId {
        RestMembers(bs[..n], s, front[i]);
      }
    }
  }

  lemma AdvanceKeepsBackprops(st: State, bs: seq<BackPropState>, filed: multiset<PacketId>)
    requires BackpropsOk(bs, st.tick, filed)
    ensures BackpropsOk(AdvanceAll(st, bs), st.tick, filed)
    ensures forall i :: 0 <= i < |bs| ==> bs[i].index <= AdvanceAll(st, bs)[i].index <= bs[i].index + 1
  {
  }

  lemma {:induction false} HopsKeepInv(st: State, es: seq<NetworkEvent>)
    requires Inv(st, [], DONE) && forall e :: e in es ==> e.BackProp? && e.from == e.via && Online(st, e.from) && Online(st, e.to)
    ensures Inv(st.(log := st.log + es), [], DONE)
  {
    hide Inv;
    if es == [] {
      assert st.log + es == st.log;
    } else {
      var n := |es| - 1;
      HopsKeepInv(st, es[..n]);
      HopKeepsInv(st.(log := st.log + es[..n]), es[n]);
      assert (st.log + es[..n]) + [es[n]] == st.log + es;
    }
  }

  lemma HopKeepsInv(st: State, e: NetworkEvent)
    requires Inv(st, [], DONE) && e.BackProp? && e.from == e.via && Online(st, e.from) && Online(st, e.to)
    ensures Inv(Emit(st, e), [], DONE)
  {
    hide EventSound, LogSound, AwakeIn, Total, SingleCopy, PeersOk, RelaysOk, LogOk, BackpropsOk, MeshOk, Requests, PacketOk, RelayCount,
         DeliveredCount, DroppedCount, DeliveriesIn, EventsOf, DirectOnes, HopsOf, LatencyOf, Messages, Ids, InNetwork;
    HopIsSound(st, e);
    RelaysOkEvent(st.peers, st.log, e);
    LogOkSilent(st.peers, st.adjacency, st.log, e);
    LogStep(st.adjacency, st.log, e);
  }

  lemma HopIsSound(st: State, e: NetworkEvent)
    requires LogOk(st.peers, st.adjacency, st.log) && e.BackProp? && e.from == e.via && Online(st, e.from) && Online(st, e.to)
    ensures EventSound(st.adjacency, st.log, e)
  {
    hide LogOk, AwakeIn;
    AwakeOnes(st.peers, st.adjacency, st.log, e.from);
    AwakeOnes(st.peers, st.adjacency, st.log, e.to);
  }

  lemma ListKeepsInv(st: State, r: State)
    requires Inv(st, [], DONE) && r == st.(backprops := r.backprops, stats := r.stats)
    requires r.stats == st.stats.(backpropsTimedOut := r.stats.backpropsTimedOut, backpropsCompleted := r.stats.backpropsCompleted,
                                  totalBackpropLatency := r.stats.totalBackpropLatency)
    requires BackpropsOk(r.backprops, st.tick, Total(st.peers).filedIds)
    ensures Inv(r, [], DONE)
  {
    hide Total, SingleCopy, PeersOk, RelaysOk, LogOk, BackpropsOk, MeshOk, Requests, PacketOk, RelayCount,
         DeliveredCount, DroppedCount, DeliveriesIn, EventsOf, DirectOnes, HopsOf, LatencyOf, Messages, Ids, InNetwork;
  }

  lemma ReadyInInv(st: State)
    requires Inv(st, [], DONE)
    ensures Ready(st)
  {
  }

  lemma TailOk(bs: seq<BackPropState>, k: nat, tick: nat, filed: multiset<PacketId>)
    requires BackpropsOk(bs, tick, filed) && k <= |bs|
    ensures BackpropsOk(bs[k..], tick, filed)
  {
  }

  lemma BackpropsKeepInv(st: State)
    requires Inv(st, [], DONE)
    ensures var r := ProcessBackprops(st);
            r.Some? ==> Inv(r.value, [], DONE) && r.value.peers == st.peers
  {
    hide Inv, Total, MeshOk, SingleCopy, ProcessBackprops, AdvanceAll, HopEvents, TimedOutAt, CompletedAt, BackpropsOk, Rest;
    ReadyInInv(st);
    PhaseIsRest(st);
    if ProcessBackprops(st).Some? {
      var r, k := ProcessBackprops(st).value, |Late(st)|;
      var told := st.(log := st.log + HopEvents(st, st.backprops));
      HopsKeepInv(st, HopEvents(st, st.backprops));
      AdvanceKeepsBackprops(st, st.backprops, Total(st.peers).filedIds);
      TailOk(Scanned(st).backprops, k, st.tick, Total(st.peers).filedIds);
      RestKeepsBackprops(Scanned(st).backprops[k..], Positions(Complete(st)), st.tick, Total(st.peers).filedIds);
      ListKeepsInv(told, r);
    }
  }
}
