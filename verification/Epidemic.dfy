/** Epidemic routing with spray-and-wait (crates/indras-dtn/src/epidemic.rs). */
module Epidemic {
  import opened Common
  import opened Bundles

  datatype Config = Config(sprayAndWait: bool, seenTimeout: nat, maxAgeSeconds: nat)

  datatype Seen = Seen(firstSeen: int, count: nat)

  type Memory = map<BundleId, Seen>

  datatype SuppressReason = Duplicate | NoNeighbors | WaitPhase

  datatype Decision =
    | FloodAll(neighbors: seq<NodeId>)
    | SprayTo(sprayed: seq<NodeId>, copiesRemaining: u8)
    | DirectDelivery(destination: NodeId)
    | Suppress(reason: SuppressReason)
    | Expired
  {
    predicate IsForwarding() { FloodAll? || SprayTo? || DirectDelivery? }

    function Targets(): seq<NodeId> {
      match this
      case FloodAll(n) => n
      case SprayTo(t, _) => t
      case DirectDelivery(d) => [d]
      case Suppress(_) => []
      case Expired => []
    }

    /** The bundle was new to the router: neither too old nor a duplicate. */
    predicate Fresh() { !Expired? && this != Suppress(Duplicate) }
  }

  /** What the router asks of the topology. */
  datatype Surroundings = Surroundings(current: NodeId, neighbors: seq<NodeId>, online: set<NodeId>)

  /** Whole seconds, truncated towards zero. */
  function Seconds(ms: int): int { if ms >= 0 then ms / 1000 else -((-ms) / 1000) }

  predicate TooOld(c: Config, b: Bundle, utc: int) { b.IsExpired(utc) || Seconds(b.Age(utc)) > c.maxAgeSeconds }

  predicate Usable(b: Bundle, where: Surroundings, n: NodeId) { n in where.online && n !in b.visited && n != where.current }

  function UsableNeighbors(b: Bundle, where: Surroundings, neighbors: seq<NodeId>): (r: seq<NodeId>)
    ensures forall n :: n in r <==> n in neighbors && Usable(b, where, n)
  {
    if neighbors == [] then []
    else
      var k := |neighbors| - 1;
      UsableNeighbors(b, where, neighbors[..k]) + if Usable(b, where, neighbors[k]) then [neighbors[k]] else []
  }

  /** Ceiling of half, as div_ceil(2). */
  function HalfUp(copies: nat): nat { (copies + 1) / 2 }

  /** Arithmetic as in the code: the number of targets cast to a byte, then a saturating subtraction. */
  function Remaining(copies: u8, targets: nat): u8 {
    var cast := targets % 256;
    if copies >= cast then copies - cast else 0
  }

  function Spray(copies: u8, neighbors: seq<NodeId>): Decision {
    if copies <= 1 then Suppress(WaitPhase)
    else
      var targets := neighbors[..Min(HalfUp(copies), |neighbors|)];
      SprayTo(targets, Remaining(copies, |targets|))
  }

  function SprayTargets(copies: u8, available: nat): nat {
    if copies <= 1 then 0 else Min(HalfUp(copies), available)
  }

  function Choose(c: Config, b: Bundle, where: Surroundings): Decision {
    var neighbors := UsableNeighbors(b, where, where.neighbors);
    if b.destination in neighbors then DirectDelivery(b.destination)
    else if neighbors == [] then Suppress(NoNeighbors)
    else if c.sprayAndWait then Spray(b.copies, neighbors)
    else FloodAll(neighbors)
  }

  function MarkSeen(m: Memory, id: BundleId, now: int): Memory {
    m[id := if id in m then m[id].(count := m[id].count + 1) else Seen(now, 1)]
  }

  function Route(c: Config, m: Memory, b: Bundle, where: Surroundings, utc: int, now: int): (Memory, Decision) {
    if TooOld(c, b, utc) then (m, Expired)
    else if b.id in m then (m, Suppress(Duplicate))
    else (MarkSeen(m, b.id, now), Choose(c, b, where))
  }

  /** Instant::duration_since saturates at zero. */
  predicate Keeps(c: Config, s: Seen, now: int) {
    (if now >= s.firstSeen then now - s.firstSeen else 0) < c.seenTimeout
  }

  function Cleanup(c: Config, m: Memory, now: int): Memory { map id | id in m && Keeps(c, m[id], now) :: m[id] }

  class EpidemicRouter {
    var seen: Memory
    const config: Config

    constructor (config: Config)
      ensures seen == map[] && this.config == config
    {
      seen := map[];
      this.config := config;
    }

    method MarkBundle(id: BundleId, now: int)
      modifies this`seen
      ensures seen == MarkSeen(old(seen), id, now)
    {
      if id in seen {
        seen := seen[id := seen[id].(count := seen[id].count + 1)];
      } else {
        seen := seen[id := Seen(now, 1)];
      }
    }

    method ListUsable(b: Bundle, where: Surroundings) returns (neighbors: seq<NodeId>)
      ensures neighbors == UsableNeighbors(b, where, where.neighbors)
    {
      neighbors := [];
      for i := 0 to |where.neighbors|
        invariant neighbors == UsableNeighbors(b, where, where.neighbors[..i])
      {
        assert where.neighbors[..i+1][..i] == where.neighbors[..i];
        if Usable(b, where, where.neighbors[i]) {
          neighbors := neighbors + [where.neighbors[i]];
        }
      }
      assert where.neighbors[..|where.neighbors|] == where.neighbors;
    }

    /** A decision to forward always has targets, each an online, unvisited neighbour. */
    method RouteBundle(b: Bundle, where: Surroundings, utc: int, now: int) returns (d: Decision)
      modifies this`seen
      ensures (seen, d) == Route(config, old(seen), b, where, utc, now)
      ensures d.IsForwarding() <==> d.Targets() != []
      ensures d.Fresh() <==> !TooOld(config, b, utc) && b.id !in old(seen)
    {
      hide UsableNeighbors, Spray, Usable;
      ForwardingHasTargets(config, old(seen), b, where, utc, now);
      if b.IsExpired(utc) || Seconds(b.Age(utc)) > config.maxAgeSeconds {
        return Expired;
      }
      if b.id in seen {
        return Suppress(Duplicate);
      }
      MarkBundle(b.id, now);
      var neighbors := ListUsable(b, where);
      if b.destination in neighbors {
        return DirectDelivery(b.destination);
      }
      if neighbors == [] {
        return Suppress(NoNeighbors);
      }
      d := if config.sprayAndWait then Spray(b.copies, neighbors) else FloodAll(neighbors);
    }

    method CleanupSeen(now: int) returns (removed: nat)
      modifies this`seen
      ensures seen == Cleanup(config, old(seen), now) && removed == |old(seen)| - |seen|
    {
      removed := 0;
      var todo := seen.Keys;
      while todo != {}
        invariant todo <= seen.Keys <= old(seen).Keys
        invariant forall id :: id in seen ==> seen[id] == old(seen)[id]
        invariant forall id :: id in old(seen) ==> (id in seen <==> id in todo || Keeps(config, old(seen)[id], now))
        invariant removed + |seen| == |old(seen)|
        decreases |todo|
      {
        var id :| id in todo;
        if !Keeps(config, seen[id], now) {
          OneLess(seen, id);
          seen := seen - {id};
          removed := removed + 1;
        }
        todo := todo - {id};
      }
      assert seen == Cleanup(config, old(seen), now);
    }
  }

  lemma OneLess(m: Memory, id: BundleId)
    requires id in m
    ensures |m - {id}| == |m| - 1
  {
    assert (m - {id}).Keys == m.Keys - {id};
    assert |m| == |m.Keys| && |m - {id}| == |(m - {id}).Keys|;
  }

  // ---------------------------------------------------------------------
  // Decisions
  // ---------------------------------------------------------------------

  lemma ForwardingHasTargets(c: Config, m: Memory, b: Bundle, where: Surroundings, utc: int, now: int)
    ensures var d := Route(c, m, b, where, utc, now).1;
            && (d.Fresh() <==> !TooOld(c, b, utc) && b.id !in m)
            && (d.IsForwarding() <==> d.Targets() != [])
            && (forall t :: t in d.Targets() ==> t in where.neighbors && Usable(b, where, t))
            && (d.DirectDelivery? <==> d.Fresh() && b.destination in where.neighbors && Usable(b, where, b.destination))
  {
  }

  /** Online, not yet visited, and not the current node. */
  function MayForwardTo(b: Bundle, where: Surroundings): NodeId -> bool {
    x => x in where.online && x !in b.visited && x != where.current
  }

  lemma {:induction false} UsableIsFiltered(b: Bundle, where: Surroundings, ns: seq<NodeId>)
    ensures Filters(ns, UsableNeighbors(b, where, ns), MayForwardTo(b, where))
  {
    hide Filters;
    var keep := MayForwardTo(b, where);
    if ns == [] {
      FiltersNothing(keep);
    } else {
      var n := |ns| - 1;
      UsableIsFiltered(b, where, ns[..n]);
      FiltersOneMore(ns[..n], UsableNeighbors(b, where, ns[..n]), ns[n], keep);
      assert ns == ns[..n] + [ns[n]];
      assert UsableNeighbors(b, where, ns[..n]) + [] == UsableNeighbors(b, where, ns[..n]);
    }
  }

  /** What route answers and remembers, case by case. */
  lemma RoutesExactly(c: Config, m: Memory, b: Bundle, where: Surroundings, utc: int, now: int) returns (usable: seq<NodeId>)
    ensures Filters(where.neighbors, usable, MayForwardTo(b, where))
    ensures var (r, d) := Route(c, m, b, where, utc, now); var age := utc - b.createdAt;
            && (d == Expired <==> age >= b.lifetime || age >= 1000 * (c.maxAgeSeconds + 1))
            && (d == Suppress(Duplicate) <==> d != Expired && b.id in m)
            && (d == Expired || d == Suppress(Duplicate) ==> r == m)
            && (d != Expired && d != Suppress(Duplicate) ==>
                  && r == m[b.id := Seen(now, 1)]
                  && (d == DirectDelivery(b.destination) <==> b.destination in usable)
                  && (d.DirectDelivery? ==> d.destination == b.destination)
                  && (d == Suppress(NoNeighbors) <==> usable == [])
                  && (!d.DirectDelivery? && usable != [] && !c.sprayAndWait ==> d == FloodAll(usable))
                  && (!d.DirectDelivery? && usable != [] && c.sprayAndWait && b.copies <= 1 ==> d == Suppress(WaitPhase))
                  && (!d.DirectDelivery? && usable != [] && c.sprayAndWait && b.copies > 1 ==>
                        && d.SprayTo? && d.sprayed == usable[..SprayTargets(b.copies, |usable|)]
                        && |d.sprayed| + d.copiesRemaining == b.copies && d.copiesRemaining >= 1))
  {
    hide UsableNeighbors, Filters, Spray, SprayTargets;
    usable := UsableNeighbors(b, where, where.neighbors);
    UsableIsFiltered(b, where, where.neighbors);
    WholeSeconds(b.Age(utc), c.maxAgeSeconds);
    if usable != [] {
      if b.copies >= 1 { SprayConserves(b.copies, usable); }
      WaitsWithoutCopies(b.copies, usable);
    }
  }

  lemma WholeSeconds(ms: int, max: nat)
    ensures Seconds(ms) > max <==> ms >= 1000 * (max + 1)
  {
  }

  lemma WaitsWithoutCopies(copies: u8, neighbors: seq<NodeId>)
    ensures copies <= 1 ==> Spray(copies, neighbors) == Suppress(WaitPhase)
  {
  }

  /** The number of targets: half the copies, rounded up, but not more than there are neighbours. */
  lemma SprayTargetsExactly(copies: u8, available: nat)
    ensures var k := SprayTargets(copies, available);
            && (copies <= 1 ==> k == 0)
            && (copies > 1 ==> (copies <= 2 * k <= copies + 1 && k <= available) || (k == available && 2 * k < copies))
  {
  }

  // ---------------------------------------------------------------------
  // The duplicate memory
  // ---------------------------------------------------------------------

  function Marked(m: Memory, id: BundleId, times: seq<int>): Memory {
    if times == [] then m else MarkSeen(Marked(m, id, times[..|times|-1]), id, times[|times|-1])
  }

  /** Marking n times counts n sights, keeps the time of the first one, and touches no other bundle. */
  lemma {:induction false} MarksAreCounted(m: Memory, id: BundleId, times: seq<int>)
    requires times != []
    ensures Marked(m, id, times) == m[id := if id in m then Seen(m[id].firstSeen, m[id].count + |times|) else Seen(times[0], |times|)]
  {
    var front := times[..|times|-1];
    if front == [] {
      assert Marked(m, id, front) == m;
    } else {
      MarksAreCounted(m, id, front);
      assert front[0] == times[0];
    }
  }

  /** A cleanup keeps exactly the records younger than seen_timeout, as they are. */
  lemma CleanupExactly(c: Config, m: Memory, now: int)
    ensures forall id :: id in Cleanup(c, m, now) <==> id in m && 0 < c.seenTimeout && now - m[id].firstSeen < c.seenTimeout
    ensures forall id :: id in Cleanup(c, m, now) ==> Cleanup(c, m, now)[id] == m[id]
  {
  }

  // ---------------------------------------------------------------------
  // Spraying conserves copies
  // ---------------------------------------------------------------------

  /** The copies handed out and the copies kept are the copies there were; the byte arithmetic never truncates. */
  lemma SprayConserves(copies: u8, neighbors: seq<NodeId>)
    requires copies >= 1 && neighbors != []
    ensures var d := Spray(copies, neighbors);
            && |d.Targets()| == SprayTargets(copies, |neighbors|)
            && (d.SprayTo? <==> copies > 1)
            && (d.SprayTo? ==>
                  && |d.sprayed| + d.copiesRemaining == copies && d.copiesRemaining >= 1
                  && d.sprayed == neighbors[..|d.sprayed|] && 1 <= |d.sprayed| <= HalfUp(copies))
            && (|neighbors| >= HalfUp(copies) && d.SprayTo? ==> d.copiesRemaining == copies / 2)
  {
  }

  /** Repeats the spray decision with a fresh neighbour list each time, until a list runs out or only one copy is left:
      the copies left, how many targets got one, and how many rounds it took. */
  function Rounds(copies: u8, lists: seq<seq<NodeId>>): (r: (u8, nat, nat))
    requires copies >= 1 && forall i :: 0 <= i < |lists| ==> lists[i] != []
    decreases |lists|
  {
    if lists == [] || copies == 1 then (copies, 0, 0)
    else
      SprayConserves(copies, lists[0]);
      var d := Spray(copies, lists[0]);
      var (left, targets, rounds) := Rounds(d.copiesRemaining, lists[1..]);
      (left, |d.sprayed| + targets, rounds + 1)
  }

  /** Whatever the neighbour lists, targets and remaining copies add up, and every round hands out at least one copy; so
      copies - 1 lists are enough to reach the wait phase, which then has cost exactly copies - 1 targets. */
  lemma {:induction false} SprayReachesWait(copies: u8, lists: seq<seq<NodeId>>)
    requires copies >= 1 && forall i :: 0 <= i < |lists| ==> lists[i] != []
    ensures var (left, targets, rounds) := Rounds(copies, lists);
            && left + targets == copies && left >= 1 && rounds <= targets && rounds <= |lists|
            && (left > 1 ==> rounds == |lists|)
            && (|lists| >= copies - 1 ==> left == 1 && targets == copies - 1)
    decreases |lists|
  {
    if lists != [] && copies != 1 {
      SprayConserves(copies, lists[0]);
      SprayReachesWait(Spray(copies, lists[0]).copiesRemaining, lists[1..]);
    }
  }

  /** With enough neighbours each round halves the copies: floor(log2 copies) rounds. */
  lemma {:induction false} SprayIsLogarithmic(copies: u8, lists: seq<seq<NodeId>>)
    requires copies >= 1 && |lists| >= FloorLog2(copies) && forall i :: 0 <= i < |lists| ==> lists[i] != [] && |lists[i]| >= HalfUp(copies)
    ensures var (left, targets, rounds) := Rounds(copies, lists);
            left == 1 && targets == copies - 1 && rounds == FloorLog2(copies)
    decreases |lists|
  {
    if copies > 1 {
      SprayConserves(copies, lists[0]);
      SprayIsLogarithmic(Spray(copies, lists[0]).copiesRemaining, lists[1..]);
    }
  }

  // ---------------------------------------------------------------------
  // Duplicate suppression over runs
  // ---------------------------------------------------------------------

  /** A call of the router with the reading of its monotonic clock. */
  datatype Call =
    | RouteCall(bundle: Bundle, where: Surroundings, utc: int, now: int)
    | MarkCall(id: BundleId, now: int)
    | CleanupCall(now: int)

  function After(c: Config, m: Memory, call: Call): Memory {
    match call
    case RouteCall(b, where, utc, now) => Route(c, m, b, where, utc, now).0
    case MarkCall(id, now) => MarkSeen(m, id, now)
    case CleanupCall(now) => Cleanup(c, m, now)
  }

  /** The router's memory after the first k calls. */
  function MemoryAt(c: Config, m: Memory, calls: seq<Call>, k: nat): Memory
    requires k <= |calls|
  {
    if k == 0 then m else After(c, MemoryAt(c, m, calls, k - 1), calls[k-1])
  }

  ghost predicate ClockAdvances(calls: seq<Call>) {
    forall i, j :: 0 <= i <= j < |calls| ==> calls[i].now <= calls[j].now
  }

  /** Call k routes bundle id and finds it new. */
  ghost predicate RoutesAfresh(c: Config, m: Memory, calls: seq<Call>, k: nat, id: BundleId) {
    && k < |calls| && calls[k].RouteCall? && calls[k].bundle.id == id
    && Route(c, MemoryAt(c, m, calls, k), calls[k].bundle, calls[k].where, calls[k].utc, calls[k].now).1.Fresh()
  }

  /** Call k is a cleanup that forgets bundle id. */
  ghost predicate Forgets(c: Config, m: Memory, calls: seq<Call>, k: nat, id: BundleId) {
    k < |calls| && calls[k].CleanupCall? && id in MemoryAt(c, m, calls, k) && id !in MemoryAt(c, m, calls, k + 1)
  }

  ghost predicate ForgottenBetween(c: Config, m: Memory, calls: seq<Call>, i: nat, j: nat, id: BundleId) {
    exists k :: i < k < j && Forgets(c, m, calls, k, id) && i < |calls| && calls[k].now - calls[i].now >= c.seenTimeout
  }

  /** From a fresh decision on, the bundle is remembered with that decision's time, until a cleanup that comes at
      least seen_timeout later forgets it. */
  lemma {:induction false} RememberedUntilForgotten(c: Config, m: Memory, calls: seq<Call>, i: nat, j: nat, id: BundleId)
    requires i < j <= |calls| && ClockAdvances(calls) && RoutesAfresh(c, m, calls, i, id)
    ensures var s := MemoryAt(c, m, calls, j);
            (id in s && s[id].firstSeen == calls[i].now) || ForgottenBetween(c, m, calls, i, j, id)
    decreases j
  {
    if j > i + 1 {
      RememberedUntilForgotten(c, m, calls, i, j - 1, id);
      var s := MemoryAt(c, m, calls, j - 1);
      if ForgottenBetween(c, m, calls, i, j - 1, id) {
        var k :| i < k < j - 1 && Forgets(c, m, calls, k, id) && calls[k].now - calls[i].now >= c.seenTimeout;
      } else if id !in MemoryAt(c, m, calls, j) {
        assert Forgets(c, m, calls, j - 1, id);
      }
    }
  }

  /** Two decisions of one router that find the same bundle new are at least seen_timeout apart, and between them a
      cleanup has forgotten the bundle. */
  lemma DuplicatesAreSuppressed(c: Config, m: Memory, calls: seq<Call>, i: nat, j: nat, id: BundleId)
    requires i < j && ClockAdvances(calls) && RoutesAfresh(c, m, calls, i, id) && RoutesAfresh(c, m, calls, j, id)
    ensures calls[j].now - calls[i].now >= c.seenTimeout
    ensures exists k :: i < k < j && Forgets(c, m, calls, k, id)
  {
    RememberedUntilForgotten(c, m, calls, i, j, id);
    var k :| i < k < j && Forgets(c, m, calls, k, id) && calls[k].now - calls[i].now >= c.seenTimeout;
  }
}
