/** PRoPHET delivery-probability tables (crates/indras-dtn/src/prophet.rs).
    Probabilities are exact reals; the clock is an explicit `now`. */
module Prophet {
  import opened Common

  datatype Config = Config(
    initial: real, aging: real, transitivity: real, decayInterval: nat, max: real, min: real)

  const DEFAULT := Config(0.75, 0.98, 0.25, 3600, 0.99, 0.01)

  /** What the rest of the file calls a sensible configuration; DEFAULT is one. */
  predicate Sensible(c: Config) {
    0.0 < c.initial <= c.max <= 1.0 && 0.0 <= c.aging <= 1.0 && 0.0 <= c.transitivity <= 1.0 && 0.0 < c.min
  }

  predicate Unit(p: real) { 0.0 <= p <= 1.0 }

  type Table<!I(==)> = map<I, real>

  function Probability<I(==)>(t: Table<I>, d: I): real {
    if d in t then t[d] else 0.0
  }

  /** P + (1 - P) * x, the update rule shared by encounters and transitivity. */
  function Boost(p: real, x: real): real { p + (1.0 - p) * x }

  /** What hearing about a destination at probability p adds, scaled by our own probability to the teller. */
  function Increment(c: Config, pVia: real, p: real): real { pVia * p * c.transitivity }

  function Decay(c: Config, p: real): real { p * c.aging }

  function Encounter<I(==)>(c: Config, self: I, t: Table<I>, peer: I): Table<I> {
    if peer == self then t
    else if peer in t then t[peer := MinReal(Boost(t[peer], c.initial), c.max)]
    else t[peer := c.initial]
  }

  /** One destination heard from `via`, to which our own probability is `pVia`. */
  function Learn<I(==)>(c: Config, self: I, via: I, pVia: real, t: Table<I>, d: I, p: real): Table<I> {
    if d == self || d == via then t
    else
      var known := Probability(t, d);
      var capped := MinReal(Boost(known, Increment(c, pVia, p)), c.max);
      if capped > known then t[d := capped] else t
  }

  function LearnAll<I(==)>(c: Config, self: I, via: I, pVia: real, t: Table<I>, heard: seq<(I, real)>): Table<I>
    decreases |heard|
  {
    if heard == [] then t
    else LearnAll(c, self, via, pVia, Learn(c, self, via, pVia, t, heard[0].0, heard[0].1), heard[1..])
  }

  function TransitiveUpdate<I(==)>(c: Config, self: I, t: Table<I>, via: I, heard: seq<(I, real)>): Table<I> {
    if Probability(t, via) <= c.min then t else LearnAll(c, self, via, Probability(t, via), t, heard)
  }

  function Age<I(==)>(c: Config, t: Table<I>): (r: Table<I>) {
    map d | d in t && Decay(c, t[d]) >= c.min :: Decay(c, t[d])
  }

  predicate ShouldForwardTo<I(==)>(self: I, t: Table<I>, dest: I, candidate: I) {
    candidate != self && candidate != dest && Probability(t, candidate) > Probability(t, dest)
  }

  /** The most probable eligible candidate; among equals the last one, as Iterator::max_by keeps. */
  function Likeliest<I(==)>(self: I, t: Table<I>, dest: I, candidates: seq<I>): (r: Option<I>)
    ensures r.Some? ==> r.value in candidates && r.value != self && r.value != dest
  {
    if candidates == [] then None
    else
      var n := |candidates| - 1;
      var best := Likeliest(self, t, dest, candidates[..n]);
      var c := candidates[n];
      if c == self || c == dest then best
      else if best.Some? && Probability(t, best.value) > Probability(t, c) then best
      else Some(c)
  }

  function BestCandidate<I(==)>(self: I, t: Table<I>, dest: I, candidates: seq<I>): (r: Option<I>)
    ensures r.Some? ==> r.value in candidates && r.value != self && r.value != dest
  {
    var best := Likeliest(self, t, dest, candidates);
    if best.Some? && Probability(t, best.value) > Probability(t, dest) then best else None
  }

  // ---------------------------------------------------------------------
  // Relay choice
  // ---------------------------------------------------------------------

  lemma {:induction false} LikeliestIsMaximal<I>(self: I, t: Table<I>, dest: I, candidates: seq<I>)
    ensures Likeliest(self, t, dest, candidates).None? ==>
              forall c :: c in candidates ==> c == self || c == dest
    ensures var r := Likeliest(self, t, dest, candidates);
            r.Some? ==> forall c :: c in candidates && c != self && c != dest ==>
                          Probability(t, c) <= Probability(t, r.value)
  {
    if candidates != [] {
      var n := |candidates| - 1;
      LikeliestIsMaximal(self, t, dest, candidates[..n]);
      assert forall c :: c in candidates ==> c in candidates[..n] || c == candidates[n];
    }
  }

  lemma {:induction false} LikeliestIsLast<I>(self: I, t: Table<I>, dest: I, candidates: seq<I>) returns (k: nat)
    requires Likeliest(self, t, dest, candidates).Some?
    ensures var c := Likeliest(self, t, dest, candidates).value;
            && k < |candidates| && candidates[k] == c
            && forall i :: k < i < |candidates| && candidates[i] != self && candidates[i] != dest ==>
                 Probability(t, candidates[i]) < Probability(t, c)
  {
    hide Probability;
    var n := |candidates| - 1;
    var front := candidates[..n];
    if Likeliest(self, t, dest, candidates) == Some(candidates[n]) {
      k := n;
    } else {
      k := LikeliestIsLast(self, t, dest, front);
      assert forall i :: 0 <= i < n ==> candidates[i] == front[i];
    }
  }

  /** From some occurrence on, every later candidate that may be chosen is less probable. */
  ghost predicate LastOfEquals<I>(self: I, t: Table<I>, dest: I, candidates: seq<I>, c: I) {
    exists k :: 0 <= k < |candidates| && candidates[k] == c &&
      forall i :: k < i < |candidates| && candidates[i] != self && candidates[i] != dest ==>
        Probability(t, candidates[i]) < Probability(t, c)
  }

  /** best_candidate answers exactly when some candidate passes should_forward_to, and then its answer passes too, no
      candidate that passes beats it, and it is the last of the equally probable ones. */
  lemma BestCandidateIsExact<I>(self: I, t: Table<I>, dest: I, candidates: seq<I>)
    ensures BestCandidate(self, t, dest, candidates).Some? <==>
              exists c :: c in candidates && ShouldForwardTo(self, t, dest, c)
    ensures var r := BestCandidate(self, t, dest, candidates);
            r.Some? ==>
              && ShouldForwardTo(self, t, dest, r.value)
              && LastOfEquals(self, t, dest, candidates, r.value)
              && forall c :: c in candidates && ShouldForwardTo(self, t, dest, c) ==>
                   Probability(t, c) <= Probability(t, r.value)
  {
    LikeliestIsMaximal(self, t, dest, candidates);
    var r := BestCandidate(self, t, dest, candidates);
    if r.Some? {
      var k := LikeliestIsLast(self, t, dest, candidates);
      assert r.value in candidates && ShouldForwardTo(self, t, dest, r.value);
    }
  }

  // ---------------------------------------------------------------------
  // Transitive updates commute
  // ---------------------------------------------------------------------

  /** The value Learn leaves behind, as a function of the old value and the increment. */
  function Raise(max: real, p: real, x: real): real {
    var capped := MinReal(Boost(p, x), max);
    if capped > p then capped else p
  }

  lemma BoostBounds(p: real, x: real)
    requires Unit(x) && p <= 1.0
    ensures p <= Boost(p, x) <= 1.0
  {
    Nonnegative(1.0 - p, x);
    Nonnegative(1.0 - p, 1.0 - x);
    assert (1.0 - p) * (1.0 - x) == (1.0 - p) - (1.0 - p) * x;
  }

  lemma BoostCommutes(p: real, x: real, y: real)
    ensures Boost(Boost(p, x), y) == Boost(Boost(p, y), x)
  {
    assert Boost(Boost(p, x), y) == 1.0 - (1.0 - p) * (1.0 - x) * (1.0 - y) by {
      assert 1.0 - Boost(p, x) == (1.0 - p) * (1.0 - x);
    }
    assert Boost(Boost(p, y), x) == 1.0 - (1.0 - p) * (1.0 - y) * (1.0 - x) by {
      assert 1.0 - Boost(p, y) == (1.0 - p) * (1.0 - y);
    }
  }

  /** Two raises of a value not above the cap act like one capped double boost. */
  lemma RaiseTwice(max: real, p: real, x: real, y: real)
    requires Unit(p) && Unit(x) && Unit(y)
    ensures p > max ==> Raise(max, Raise(max, p, x), y) == p
    ensures p <= max ==> Raise(max, Raise(max, p, x), y) == MinReal(Boost(Boost(p, x), y), max)
  {
    BoostBounds(p, x);
    BoostBounds(Boost(p, x), y);
    if p <= max {
      assert Raise(max, p, x) == MinReal(Boost(p, x), max);
      if max < Boost(p, x) {
        BoostBounds(max, y);
      }
    }
  }

  lemma RaiseCommutes(max: real, p: real, x: real, y: real)
    requires Unit(p) && Unit(x) && Unit(y)
    ensures Raise(max, Raise(max, p, x), y) == Raise(max, Raise(max, p, y), x)
  {
    RaiseTwice(max, p, x, y);
    RaiseTwice(max, p, y, x);
    BoostCommutes(p, x, y);
  }

  ghost predicate UnitTable<I>(t: Table<I>) { forall d :: d in t ==> Unit(t[d]) }

  ghost predicate UnitList<I>(heard: seq<(I, real)>) {
    forall i :: 0 <= i < |heard| ==> Unit(heard[i].1)
  }

  lemma UnitProduct(a: real, b: real)
    requires Unit(a) && Unit(b)
    ensures Unit(a * b)
  {
    Nonnegative(a, b);
    AtMost(a, b);
    BelowUnit(a * b, b);
  }

  lemma AtMost(a: real, b: real)
    requires a <= 1.0 && b >= 0.0
    ensures a * b <= b
  {
    Nonnegative(1.0 - a, b);
    assert (1.0 - a) * b == b - a * b;
  }

  lemma BelowUnit(x: real, b: real)
    requires 0.0 <= x <= b <= 1.0
    ensures Unit(x)
  {
  }

  lemma LearnStaysUnit<I>(c: Config, self: I, via: I, pVia: real, t: Table<I>, d: I, p: real)
    requires UnitTable(t) && Unit(pVia) && Unit(p) && Unit(c.transitivity)
    ensures UnitTable(Learn(c, self, via, pVia, t, d, p))
  {
    UnitProduct(pVia, p);
    UnitProduct(pVia * p, c.transitivity);
    BoostBounds(Probability(t, d), Increment(c, pVia, p));
  }

  lemma LearnIsRaise<I>(c: Config, self: I, via: I, pVia: real, t: Table<I>, d: I, p: real)
    requires d != self && d != via
    ensures var r := Learn(c, self, via, pVia, t, d, p);
            && Probability(r, d) == Raise(c.max, Probability(t, d), Increment(c, pVia, p))
            && r == if Probability(r, d) > Probability(t, d) then t[d := Probability(r, d)] else t
  {
  }

  lemma LearnCommutes<I>(c: Config, self: I, via: I, pVia: real, t: Table<I>, a: (I, real), b: (I, real))
    requires UnitTable(t) && Unit(pVia) && Unit(c.transitivity) && Unit(a.1) && Unit(b.1)
    ensures Learn(c, self, via, pVia, Learn(c, self, via, pVia, t, a.0, a.1), b.0, b.1)
         == Learn(c, self, via, pVia, Learn(c, self, via, pVia, t, b.0, b.1), a.0, a.1)
  {
    if a.0 != b.0 {
      LearnFrame(c, self, via, pVia, t, a, b);
    } else if a.0 != self && a.0 != via {
      LearnSameCommutes(c, self, via, pVia, t, a.0, a.1, b.1);
    }
  }

  lemma LearnTwice<I>(c: Config, self: I, via: I, pVia: real, t: Table<I>, d: I, p: real, q: real)
    requires d != self && d != via
    ensures var v := Raise(c.max, Raise(c.max, Probability(t, d), Increment(c, pVia, p)), Increment(c, pVia, q));
            Learn(c, self, via, pVia, Learn(c, self, via, pVia, t, d, p), d, q) == if v > Probability(t, d) then t[d := v] else t
  {
    var u := Learn(c, self, via, pVia, t, d, p);
    LearnIsRaise(c, self, via, pVia, t, d, p);
    LearnIsRaise(c, self, via, pVia, u, d, q);
    if d in u { assert forall y: real {:trigger u[d := y]} :: t[d := u[d]][d := y] == t[d := y]; }
  }

  lemma LearnSameCommutes<I>(c: Config, self: I, via: I, pVia: real, t: Table<I>, d: I, p: real, q: real)
    requires UnitTable(t) && Unit(pVia) && Unit(c.transitivity) && Unit(p) && Unit(q)
    requires d != self && d != via
    ensures Learn(c, self, via, pVia, Learn(c, self, via, pVia, t, d, p), d, q)
         == Learn(c, self, via, pVia, Learn(c, self, via, pVia, t, d, q), d, p)
  {
    UnitProduct(pVia, p);
    UnitProduct(pVia * p, c.transitivity);
    UnitProduct(pVia, q);
    UnitProduct(pVia * q, c.transitivity);
    RaiseCommutes(c.max, Probability(t, d), Increment(c, pVia, p), Increment(c, pVia, q));
    LearnTwice(c, self, via, pVia, t, d, p, q);
    LearnTwice(c, self, via, pVia, t, d, q, p);
  }

  /** Entries for different destinations touch different keys. */
  lemma LearnFrame<I>(c: Config, self: I, via: I, pVia: real, t: Table<I>, a: (I, real), b: (I, real))
    requires a.0 != b.0
    ensures Learn(c, self, via, pVia, Learn(c, self, via, pVia, t, a.0, a.1), b.0, b.1)
         == Learn(c, self, via, pVia, Learn(c, self, via, pVia, t, b.0, b.1), a.0, a.1)
  {
    var ta := Learn(c, self, via, pVia, t, a.0, a.1);
    var tb := Learn(c, self, via, pVia, t, b.0, b.1);
    assert Probability(ta, b.0) == Probability(t, b.0);
    assert Probability(tb, a.0) == Probability(t, a.0);
    if ta != t && tb != t {
      assert t[a.0 := ta[a.0]][b.0 := tb[b.0]] == t[b.0 := tb[b.0]][a.0 := ta[a.0]];
    }
  }

  /** An element of the list may be heard first without changing the outcome. */
  lemma {:induction false} LearnFirst<I>(c: Config, self: I, via: I, pVia: real, t: Table<I>, heard: seq<(I, real)>, k: nat)
    requires UnitTable(t) && Unit(pVia) && Unit(c.transitivity) && UnitList(heard) && k < |heard|
    ensures LearnAll(c, self, via, pVia, t, heard)
         == LearnAll(c, self, via, pVia, t, [heard[k]] + heard[..k] + heard[k+1..])
    decreases k
  {
    hide Learn, LearnAll, UnitTable, UnitList;
    if k == 0 {
      assert heard == [heard[0]] + heard[..0] + heard[1..];
    } else {
      var x, y, rest := heard[0], heard[k], heard[1..];
      var tail := rest[..k-1] + rest[k..];
      UnitMembers(heard, k);
      LearnStaysUnit(c, self, via, pVia, t, x.0, x.1);
      LearnFirst(c, self, via, pVia, Learn(c, self, via, pVia, t, x.0, x.1), rest, k - 1);
      LearnCommutes(c, self, via, pVia, t, x, y);
      LearnTwo(c, self, via, pVia, t, x, y, tail);
      LearnTwo(c, self, via, pVia, t, y, x, tail);
      LearnOne(c, self, via, pVia, t, x, rest);
      MovedToFront(heard, k);
    }
  }

  lemma MovedToFront<T>(list: seq<T>, k: nat)
    requires 0 < k < |list|
    ensures var rest := list[1..]; var tail := rest[..k-1] + rest[k..];
            && list == [list[0]] + rest
            && [rest[k-1]] + rest[..k-1] + rest[k..] == [list[k]] + tail
            && [list[k]] + list[..k] + list[k+1..] == [list[k], list[0]] + tail
  {
  }

  lemma LearnOne<I>(c: Config, self: I, via: I, pVia: real, t: Table<I>, x: (I, real), tail: seq<(I, real)>)
    ensures LearnAll(c, self, via, pVia, t, [x] + tail) == LearnAll(c, self, via, pVia, Learn(c, self, via, pVia, t, x.0, x.1), tail)
  {
    hide Learn;
    assert ([x] + tail)[1..] == tail;
  }

  lemma LearnTwo<I>(c: Config, self: I, via: I, pVia: real, t: Table<I>, x: (I, real), y: (I, real), tail: seq<(I, real)>)
    ensures var t' := Learn(c, self, via, pVia, t, x.0, x.1);
            && LearnAll(c, self, via, pVia, t, [x, y] + tail) == LearnAll(c, self, via, pVia, t', [y] + tail)
            && LearnAll(c, self, via, pVia, t', [y] + tail) == LearnAll(c, self, via, pVia, Learn(c, self, via, pVia, t', y.0, y.1), tail)
  {
    hide Learn, LearnAll;
    LearnOne(c, self, via, pVia, t, x, [y] + tail);
    LearnOne(c, self, via, pVia, Learn(c, self, via, pVia, t, x.0, x.1), y, tail);
    assert [x, y] + tail == [x] + ([y] + tail);
  }

  lemma UnitMembers<I>(heard: seq<(I, real)>, k: nat)
    requires UnitList(heard) && k < |heard|
    ensures Unit(heard[0].1) && Unit(heard[k].1) && UnitList(heard[1..])
  {
  }

  lemma {:induction false} LearnAllPermutes<I>(c: Config, self: I, via: I, pVia: real, t: Table<I>,
                                               a: seq<(I, real)>, b: seq<(I, real)>)
    requires UnitTable(t) && Unit(pVia) && Unit(c.transitivity) && UnitList(a) && UnitList(b)
    requires multiset(a) == multiset(b)
    ensures LearnAll(c, self, via, pVia, t, a) == LearnAll(c, self, via, pVia, t, b)
    decreases |a|
  {
    if a == [] {
      assert |multiset(b)| == 0;
    } else {
      var k := HeadOfPermutation(a, b);
      LearnFirst(c, self, via, pVia, t, b, k);
      var rest := b[..k] + b[k+1..];
      assert [b[k]] + b[..k] + b[k+1..] == [b[k]] + rest;
      LearnStaysUnit(c, self, via, pVia, t, a[0].0, a[0].1);
      LearnAllPermutes(c, self, via, pVia, Learn(c, self, via, pVia, t, a[0].0, a[0].1), a[1..], rest);
    }
  }

  /** transitive_update does not depend on the order of the intermediary's list; duplicates allowed. */
  lemma TransitiveUpdateIsOrderIndependent<I>(c: Config, self: I, t: Table<I>, via: I,
                                              a: seq<(I, real)>, b: seq<(I, real)>)
    requires UnitTable(t) && Unit(c.transitivity) && UnitList(a) && UnitList(b)
    requires multiset(a) == multiset(b)
    ensures TransitiveUpdate(c, self, t, via, a) == TransitiveUpdate(c, self, t, via, b)
  {
    if Probability(t, via) > c.min {
      LearnAllPermutes(c, self, via, Probability(t, via), t, a, b);
    }
  }

  // ---------------------------------------------------------------------
  // What a transitive update amounts to
  // ---------------------------------------------------------------------

  /** The product of 1 - P(via) * p * transitivity over the entries (d, p) of the list. */
  function Missed<I(==)>(c: Config, pVia: real, heard: seq<(I, real)>, d: I): real
    decreases |heard|
  {
    if heard == [] then 1.0
    else if heard[0].0 == d then (1.0 - pVia * heard[0].1 * c.transitivity) * Missed(c, pVia, heard[1..], d)
    else Missed(c, pVia, heard[1..], d)
  }

  lemma UnitIncrement(c: Config, pVia: real, p: real)
    requires Unit(pVia) && Unit(p) && Unit(c.transitivity)
    ensures Unit(pVia * p * c.transitivity) && Unit(1.0 - pVia * p * c.transitivity)
  {
    UnitProduct(pVia, p);
    UnitProduct(pVia * p, c.transitivity);
  }

  lemma {:induction false} MissedIsUnit<I>(c: Config, pVia: real, heard: seq<(I, real)>, d: I)
    requires Unit(pVia) && Unit(c.transitivity) && UnitList(heard)
    ensures Unit(Missed(c, pVia, heard, d))
    decreases |heard|
  {
    if heard != [] {
      MissedIsUnit(c, pVia, heard[1..], d);
      if heard[0].0 == d {
        UnitIncrement(c, pVia, heard[0].1);
        UnitProduct(1.0 - pVia * heard[0].1 * c.transitivity, Missed(c, pVia, heard[1..], d));
      }
    }
  }

  /** What becomes of p when the chance of missing shrinks by the factor m. */
  function Gained(p: real, m: real): real { 1.0 - (1.0 - p) * m }

  lemma BoostIsGained(p: real, x: real, m: real)
    requires m == 1.0 - x
    ensures Boost(p, x) == Gained(p, m)
  {
    assert (1.0 - p) * m == (1.0 - p) - (1.0 - p) * x;
  }

  lemma GainedTwice(p: real, a: real, b: real, m: real)
    requires m == a * b
    ensures Gained(Gained(p, a), b) == Gained(p, m)
  {
    assert ((1.0 - p) * a) * b == (1.0 - p) * m;
  }

  lemma GainedBounds(p: real, m: real)
    requires p <= 1.0 && Unit(m)
    ensures p <= Gained(p, m) <= 1.0
  {
    Nonnegative(1.0 - p, m);
    AtMost(m, 1.0 - p);
    assert m * (1.0 - p) == (1.0 - p) * m;
  }

  /** Capping on the way and capping at the end come to the same. */
  lemma CapOnce(max: real, p: real, a: real, b: real, m: real)
    requires Unit(p) && Unit(a) && Unit(b) && m == a * b
    ensures MinReal(Gained(MinReal(Gained(p, a), max), b), max) == MinReal(Gained(p, m), max)
  {
    hide Gained;
    GainedTwice(p, a, b, m);
    GainedBounds(p, a);
    GainedBounds(Gained(p, a), b);
    if Gained(p, a) > max { GainedBounds(max, b); }
  }

  /** One entry of the list, seen at d. */
  lemma LearnValue<I>(c: Config, self: I, via: I, pVia: real, t: Table<I>, x: I, p: real, d: I)
    requires UnitTable(t) && Unit(pVia) && Unit(c.transitivity) && Unit(p)
    ensures var r := Learn(c, self, via, pVia, t, x, p);
            && (d in r <==> d in t || Probability(r, d) > 0.0) && Probability(r, d) >= Probability(t, d)
            && (x == d && d != self && d != via && Probability(t, d) <= c.max ==>
                  Probability(r, d) == MinReal(Boost(Probability(t, d), pVia * p * c.transitivity), c.max) <= c.max)
            && (x != d || d == self || d == via || Probability(t, d) > c.max ==> Probability(r, d) == Probability(t, d))
  {
    UnitIncrement(c, pVia, p);
    BoostBounds(Probability(t, x), pVia * p * c.transitivity);
  }

  /** The value at d after the whole list. */
  function Outcome<I(==)>(c: Config, self: I, via: I, pVia: real, p0: real, heard: seq<(I, real)>, d: I): real {
    if d == self || d == via || p0 > c.max then p0 else MinReal(Gained(p0, Missed(c, pVia, heard, d)), c.max)
  }

  lemma OutcomeStep<I>(c: Config, self: I, via: I, pVia: real, t: Table<I>, heard: seq<(I, real)>, d: I)
    requires UnitTable(t) && Unit(pVia) && Unit(c.transitivity) && UnitList(heard) && heard != []
    ensures var t' := Learn(c, self, via, pVia, t, heard[0].0, heard[0].1);
            Outcome(c, self, via, pVia, Probability(t', d), heard[1..], d) == Outcome(c, self, via, pVia, Probability(t, d), heard, d)
  {
    hide Learn, UnitTable, Boost, Gained;
    var (x, p) := heard[0];
    ProbabilityIsUnit(t, d);
    LearnValue(c, self, via, pVia, t, x, p, d);
    MissedIsUnit(c, pVia, heard[1..], d);
    UnitIncrement(c, pVia, p);
    if x == d {
      var factor := 1.0 - pVia * p * c.transitivity;
      BoostIsGained(Probability(t, d), pVia * p * c.transitivity, factor);
      CapOnce(c.max, Probability(t, d), factor, Missed(c, pVia, heard[1..], d), Missed(c, pVia, heard, d));
    }
  }

  lemma {:induction false} LearnAllValue<I>(c: Config, self: I, via: I, pVia: real, t: Table<I>, heard: seq<(I, real)>, d: I)
    requires UnitTable(t) && Unit(pVia) && Unit(c.transitivity) && UnitList(heard)
    ensures var r := LearnAll(c, self, via, pVia, t, heard);
            && (d in r <==> d in t || Probability(r, d) > 0.0) && Probability(r, d) >= Probability(t, d)
            && Probability(r, d) == Outcome(c, self, via, pVia, Probability(t, d), heard, d)
    decreases |heard|
  {
    hide Learn, UnitTable, Outcome;
    if heard == [] {
      OutcomeOfNothing(c, self, via, pVia, t, d);
    } else {
      var (x, p) := heard[0];
      LearnStaysUnit(c, self, via, pVia, t, x, p);
      LearnValue(c, self, via, pVia, t, x, p, d);
      OutcomeStep(c, self, via, pVia, t, heard, d);
      LearnAllValue(c, self, via, pVia, Learn(c, self, via, pVia, t, x, p), heard[1..], d);
    }
  }

  lemma OutcomeOfNothing<I>(c: Config, self: I, via: I, pVia: real, t: Table<I>, d: I)
    ensures Outcome(c, self, via, pVia, Probability(t, d), [], d) == Probability(t, d)
    ensures d in t <==> d in t || Probability(t, d) > 0.0
  {
  }

  lemma ProbabilityIsUnit<I>(t: Table<I>, d: I)
    requires UnitTable(t)
    ensures Unit(Probability(t, d))
  {
  }

  /** transitive_update, entry by entry: the chance of missing d is multiplied by the chance that none of the list's
      entries for d leads there, up to the cap. Nothing changes for ourselves, the intermediary and entries above the cap,
      nor at all when the intermediary is not above the minimum; an absent entry appears exactly when it is positive. */
  lemma TransitiveUpdateExactly<I>(c: Config, self: I, t: Table<I>, via: I, heard: seq<(I, real)>, d: I) returns (missed: real)
    requires UnitTable(t) && Unit(c.transitivity) && UnitList(heard)
    ensures missed == Missed(c, Probability(t, via), heard, d)
    ensures var r, p0, pVia := TransitiveUpdate(c, self, t, via, heard), Probability(t, d), Probability(t, via);
            && (d in r <==> d in t || Probability(r, d) > 0.0)
            && Probability(r, d) == if pVia <= c.min || d == self || d == via || p0 > c.max then p0
                                    else MinReal(1.0 - (1.0 - p0) * missed, c.max)
  {
    hide LearnAll, Outcome, UnitTable;
    var pVia := Probability(t, via);
    missed := Missed(c, pVia, heard, d);
    ProbabilityIsUnit(t, via);
    OutcomeIs(c, self, via, pVia, Probability(t, d), heard, d, missed);
    if pVia > c.min {
      LearnAllValue(c, self, via, pVia, t, heard, d);
      assert TransitiveUpdate(c, self, t, via, heard) == LearnAll(c, self, via, pVia, t, heard);
    } else {
      OutcomeOfNothing(c, self, via, pVia, t, d);
    }
  }

  lemma OutcomeIs<I>(c: Config, self: I, via: I, pVia: real, p0: real, heard: seq<(I, real)>, d: I, m: real)
    requires m == Missed(c, pVia, heard, d)
    ensures Outcome(c, self, via, pVia, p0, heard, d) == if d == self || d == via || p0 > c.max then p0 else MinReal(1.0 - (1.0 - p0) * m, c.max)
  {
    hide Gained;
    GainedIs(p0, m);
  }

  lemma GainedIs(p: real, m: real)
    ensures Gained(p, m) == 1.0 - (1.0 - p) * m
  {
  }

  // ---------------------------------------------------------------------
  // Repeated encounters
  // ---------------------------------------------------------------------

  /** n further encounters with a known peer: the chance of missing it shrinks by the factor 1 - P_init each, up to the cap. */
  lemma EncountersRaise<I>(c: Config, self: I, t: Table<I>, peer: I, n: nat)
    requires Unit(c.initial) && peer != self && peer in t && Unit(t[peer]) && n > 0
    ensures Encounters(c, self, t, peer, n) == t[peer := MinReal(1.0 - (1.0 - t[peer]) * Power(1.0 - c.initial, n), c.max)]
  {
    hide Power, Encounters;
    EncountersGained(c, self, t, peer, n);
  }

  lemma {:induction false} EncountersGained<I>(c: Config, self: I, t: Table<I>, peer: I, n: nat)
    requires Unit(c.initial) && peer != self && peer in t && Unit(t[peer]) && n > 0
    ensures Encounters(c, self, t, peer, n) == t[peer := MinReal(Gained(t[peer], Power(1.0 - c.initial, n)), c.max)]
  {
    hide Power, Boost, Gained;
    var p, q := t[peer], 1.0 - c.initial;
    var last := Encounters(c, self, t, peer, n - 1);
    PowerStep(q, n);
    if n == 1 {
      assert last == t;
      PowerOne(q);
      BoostIsGained(p, c.initial, q);
    } else {
      var x := Power(q, n - 1);
      EncountersGained(c, self, t, peer, n - 1);
      PowerIsUnit(q, n - 1);
      var before := MinReal(Gained(p, x), c.max);
      BoostIsGained(before, c.initial, q);
      CapOnce(c.max, p, x, q, Power(q, n));
      assert last == t[peer := before];
      assert forall y: real {:trigger last[peer := y]} :: last[peer := y] == t[peer := y];
    }
  }

  lemma {:induction false} PowerIsUnit(b: real, n: nat)
    requires Unit(b)
    ensures Unit(Power(b, n))
  {
    if n > 0 {
      PowerIsUnit(b, n - 1);
      UnitProduct(b, Power(b, n - 1));
    }
  }

  function Encounters<I(==)>(c: Config, self: I, t: Table<I>, peer: I, n: nat): Table<I> {
    if n == 0 then t else Encounter(c, self, Encounters(c, self, t, peer, n - 1), peer)
  }

  function Power(b: real, n: nat): real { if n == 0 then 1.0 else b * Power(b, n - 1) }

  /** 1 - (1 - P_init)^n, the uncapped closed form. */
  function ClosedForm(c: Config, n: nat): real { 1.0 - Power(1.0 - c.initial, n) }

  lemma OneFactorMore(i: real, x: real)
    ensures 1.0 - (1.0 - i) * x == Boost(1.0 - x, i)
  {
    assert (1.0 - i) * x == x - i * x;
    assert (1.0 - (1.0 - x)) * i == i * x;
  }

  lemma {:induction false} ClosedFormBounds(c: Config, n: nat)
    requires Unit(c.initial) && n > 0
    ensures c.initial <= ClosedForm(c, n) <= 1.0
    ensures n > 1 ==> ClosedForm(c, n) == Boost(ClosedForm(c, n - 1), c.initial)
  {
    hide Power, Boost;
    PowerStep(1.0 - c.initial, n);
    if n > 1 {
      ClosedFormBounds(c, n - 1);
      BoostBounds(ClosedForm(c, n - 1), c.initial);
      OneFactorMore(c.initial, Power(1.0 - c.initial, n - 1));
    } else {
      PowerOne(1.0 - c.initial);
    }
  }

  lemma PowerStep(b: real, n: nat)
    requires n > 0
    ensures Power(b, n) == b * Power(b, n - 1)
  {
  }

  lemma PowerOne(b: real)
    ensures Power(b, 1) == b
  {
    assert Power(b, 1) == b * Power(b, 0);
  }

  lemma {:induction false} EncountersValue<I>(c: Config, self: I, t: Table<I>, peer: I, n: nat)
    requires Unit(c.initial) && peer != self && peer !in t && n > 0
    ensures Encounters(c, self, t, peer, n) ==
              t[peer := if n == 1 then c.initial else MinReal(ClosedForm(c, n), c.max)]
  {
    if n == 1 {
      assert Encounters(c, self, t, peer, 0) == t;
    } else {
      EncountersValue(c, self, t, peer, n - 1);
      ClosedFormBounds(c, n);
      ClosedFormBounds(c, n - 1);
      var before := if n == 2 then c.initial else MinReal(ClosedForm(c, n - 1), c.max);
      if n == 2 {
        ClosedFormBounds(c, 1);
        assert ClosedForm(c, 1) == c.initial by {
          assert Power(1.0 - c.initial, 1) == (1.0 - c.initial) * Power(1.0 - c.initial, 0);
        }
      }
      if c.max < ClosedForm(c, n - 1) && c.max <= 1.0 {
        BoostBounds(c.max, c.initial);
        BoostBounds(ClosedForm(c, n - 1), c.initial);
      }
      assert Encounters(c, self, t, peer, n) == Encounter(c, self, t[peer := before], peer);
    }
  }

  /** n encounters from an absent entry follow min(max, 1 - (1 - P_init)^n) for every n
      exactly when P_init is not above the cap: only the first encounter is uncapped. */
  lemma EncountersFollowClosedForm<I>(c: Config, self: I, t: Table<I>, peer: I)
    requires Unit(c.initial) && peer != self && peer !in t
    ensures c.initial <= c.max <==>
              forall n: nat :: n > 0 ==>
                Encounters(c, self, t, peer, n) == t[peer := MinReal(ClosedForm(c, n), c.max)]
  {
    forall n: nat | n > 0
      ensures n > 1 || c.initial <= c.max ==>
                Encounters(c, self, t, peer, n) == t[peer := MinReal(ClosedForm(c, n), c.max)]
    {
      EncountersValue(c, self, t, peer, n);
      ClosedFormBounds(c, n);
      if n == 1 {
        assert Power(1.0 - c.initial, 1) == (1.0 - c.initial) * Power(1.0 - c.initial, 0);
      }
    }
    if c.initial > c.max {
      EncountersValue(c, self, t, peer, 1);
      assert Encounters(c, self, t, peer, 1)[peer] == c.initial;
      assert t[peer := MinReal(ClosedForm(c, 1), c.max)][peer] != c.initial;
    }
  }

  // ---------------------------------------------------------------------
  // Aging
  // ---------------------------------------------------------------------

  function Aged<I(==)>(c: Config, t: Table<I>, k: nat): Table<I> {
    if k == 0 then t else Age(c, Aged(c, t, k - 1))
  }

  lemma ShrinksBelow(p: real, gamma: real, min: real)
    requires 0.0 <= gamma <= 1.0 && 0.0 < min
    ensures p * gamma >= min ==> p >= p * gamma
  {
    if p * gamma >= min {
      if p <= 0.0 { Nonnegative(-p, gamma); assert p * gamma == -(-p * gamma); }
      Nonnegative(p, 1.0 - gamma);
      assert p * (1.0 - gamma) == p - p * gamma;
    }
  }

  lemma AgeEntry<I>(c: Config, t: Table<I>, d: I, p: real, q: real)
    requires 0.0 <= c.aging <= 1.0 && 0.0 < c.min
    requires if d in t then t[d] == p else p < c.min
    requires q == p * c.aging
    ensures d in Age(c, t) <==> q >= c.min
    ensures d in Age(c, t) ==> Age(c, t)[d] == q
  {
    ShrinksBelow(p, c.aging, c.min);
  }

  /** p * gamma^k, multiplied out one firing at a time. */
  function Faded(c: Config, p: real, k: nat): real {
    if k == 0 then p else Faded(c, p, k - 1) * c.aging
  }

  lemma {:induction false} FadedIsPower(c: Config, p: real, k: nat)
    ensures Faded(c, p, k) == p * Power(c.aging, k)
  {
    if k > 0 {
      FadedIsPower(c, p, k - 1);
      Reassociate(p, c.aging, Power(c.aging, k - 1));
      Multiply(Faded(c, p, k - 1), p * Power(c.aging, k - 1), c.aging);
    }
  }

  lemma {:induction false} AgedIsFaded<I>(c: Config, t: Table<I>, d: I, k: nat)
    requires 0.0 <= c.aging <= 1.0 && 0.0 < c.min && d in t && k > 0
    ensures d in Aged(c, t, k) <==> Faded(c, t[d], k) >= c.min
    ensures d in Aged(c, t, k) ==> Aged(c, t, k)[d] == Faded(c, t[d], k)
  {
    if k > 1 { AgedIsFaded(c, t, d, k - 1); }
    AgeEntry(c, Aged(c, t, k - 1), d, Faded(c, t[d], k - 1), Faded(c, t[d], k));
  }

  /** After k firings an untouched entry p is p * gamma^k, or gone once that falls below the minimum. */
  lemma AgedExactly<I>(c: Config, t: Table<I>, d: I, k: nat)
    requires 0.0 <= c.aging <= 1.0 && 0.0 < c.min && d in t && k > 0
    ensures d in Aged(c, t, k) <==> t[d] * Power(c.aging, k) >= c.min
    ensures d in Aged(c, t, k) ==> Aged(c, t, k)[d] == t[d] * Power(c.aging, k)
  {
    hide Power, Faded, Aged;
    AgedIsFaded(c, t, d, k);
    FadedIsPower(c, t[d], k);
  }

  /** k * loss, added up one firing at a time. */
  function Losses(loss: real, k: nat): real { if k == 0 then 0.0 else Losses(loss, k - 1) + loss }

  lemma {:induction false} LossesIsProduct(loss: real, k: nat)
    ensures Losses(loss, k) == (k as real) * loss
  {
    if k > 0 {
      LossesIsProduct(loss, k - 1);
      Distribute((k - 1) as real, 1.0, loss);
      assert k as real == (k - 1) as real + 1.0;
      Multiply(k as real, (k - 1) as real + 1.0, loss);
    }
  }

  lemma {:induction false} AgingLoses<I>(c: Config, t: Table<I>, d: I, k: nat, loss: real)
    requires 0.0 <= c.aging <= 1.0 && 0.0 < c.min && d in t && d in Aged(c, t, k)
    requires loss == c.min * (1.0 - c.aging)
    ensures k > 0 ==> Aged(c, t, k)[d] >= c.min
    ensures Aged(c, t, k)[d] <= t[d] - Losses(loss, k)
  {
    if k > 0 {
      AgingLoses(c, t, d, k - 1, loss);
      var p := Aged(c, t, k - 1)[d];
      AgeEntry(c, Aged(c, t, k - 1), d, p, p * c.aging);
      OneFiringLoses(c, p);
    }
  }

  lemma OneFiringLoses(c: Config, p: real)
    requires 0.0 <= c.aging <= 1.0 && 0.0 < c.min && p * c.aging >= c.min
    ensures p * c.aging <= p - c.min * (1.0 - c.aging)
  {
    ShrinksBelow(p, c.aging, c.min);
    Scale(c.min, p, 1.0 - c.aging);
    assert p * (1.0 - c.aging) == p - p * c.aging;
  }

  /** How many firings remove an entry for good when each costs at least `loss`:
      max(0, floor(excess / loss)) + 1. */
  function FiringsToVanish(excess: real, loss: real): nat
    requires loss > 0.0
  {
    if excess < 0.0 then 1 else Quota(excess, loss).Floor + 1
  }

  /** How many times `loss` fits into `excess`. */
  function Quota(excess: real, loss: real): (q: real)
    requires excess >= 0.0 && loss > 0.0
    ensures q >= 0.0 && q * loss == excess
  {
    excess / loss
  }

  lemma FiringsOutlastExcess(excess: real, loss: real)
    requires loss > 0.0
    ensures Losses(loss, FiringsToVanish(excess, loss)) > excess
  {
    LossesIsProduct(loss, FiringsToVanish(excess, loss));
    if excess >= 0.0 { ScaleStrictly(Quota(excess, loss), FiringsToVanish(excess, loss) as real, loss); }
  }

  /** An untouched entry p is gone after max(0, floor((p - min) / (min * (1 - gamma)))) + 1 firings. */
  lemma AgingForgets<I>(c: Config, t: Table<I>, d: I, loss: real)
    requires 0.0 <= c.aging < 1.0 && 0.0 < c.min && d in t
    requires loss == c.min * (1.0 - c.aging) && loss > 0.0
    ensures d !in Aged(c, t, FiringsToVanish(t[d] - c.min, loss))
  {
    var n := FiringsToVanish(t[d] - c.min, loss);
    FiringsOutlastExcess(t[d] - c.min, loss);
    if d in Aged(c, t, n) {
      AgingLoses(c, t, d, n, loss);
    }
  }

  /** The default rates: meetings with a stranger give 1 - 4^-n up to 99 percent, one piece of hearsay about a stranger a
      quarter of the product of both probabilities, and k firings 0.98^k of an entry, down to one percent. */
  lemma DefaultRates<I>(self: I, t: Table<I>, d: I, via: I, p: real, quarter: real, n: nat)
    requires UnitTable(t) && Unit(p) && n > 0 && d !in t && d != self && d != via && Probability(t, via) > 0.01
    requires quarter == Probability(t, via) * p * 0.25
    ensures Encounters(DEFAULT, self, t, d, n) == t[d := MinReal(1.0 - Power(0.25, n), 0.99)]
    ensures Probability(TransitiveUpdate(DEFAULT, self, t, via, [(d, p)]), d) == MinReal(quarter, 0.99)
    ensures via in Aged(DEFAULT, t, n) <==> t[via] * Power(0.98, n) >= 0.01
    ensures via in Aged(DEFAULT, t, n) ==> Aged(DEFAULT, t, n)[via] == t[via] * Power(0.98, n)
  {
    hide Power, Encounters, TransitiveUpdate, Aged, UnitTable, MinReal, Increment;
    DefaultMeetings(self, t, d, n);
    DefaultIncrement(Probability(t, via), p, quarter);
    HearsayExactly(DEFAULT, self, t, d, via, p, quarter);
    AgedExactly(DEFAULT, t, via, n);
  }

  lemma DefaultIncrement(a: real, p: real, x: real)
    requires x == a * p * 0.25
    ensures x == Increment(DEFAULT, a, p)
  {
  }

  lemma DefaultMeetings<I>(self: I, t: Table<I>, d: I, n: nat)
    requires n > 0 && d !in t && d != self
    ensures Encounters(DEFAULT, self, t, d, n) == t[d := MinReal(1.0 - Power(0.25, n), 0.99)]
  {
    hide Power, Encounters, MinReal;
    EncountersFollowClosedForm(DEFAULT, self, t, d);
    assert Encounters(DEFAULT, self, t, d, n) == t[d := MinReal(ClosedForm(DEFAULT, n), DEFAULT.max)];
  }

  /** One piece of hearsay about a stranger. */
  lemma HearsayExactly<I>(c: Config, self: I, t: Table<I>, d: I, via: I, p: real, x: real)
    requires UnitTable(t) && Unit(p) && Unit(c.transitivity) && 0.0 <= c.max
    requires d !in t && d != self && d != via && Probability(t, via) > c.min && x == Increment(c, Probability(t, via), p)
    ensures Probability(TransitiveUpdate(c, self, t, via, [(d, p)]), d) == MinReal(x, c.max)
  {
    hide TransitiveUpdate, UnitTable, Missed, Increment;
    var missed := TransitiveUpdateExactly(c, self, t, via, [(d, p)], d);
    OneHearsay(c, Probability(t, via), d, p, missed, Probability(t, d), x);
  }

  lemma OneHearsay<I>(c: Config, pVia: real, d: I, p: real, m: real, p0: real, x: real)
    requires m == Missed(c, pVia, [(d, p)], d) && p0 == 0.0 && x == Increment(c, pVia, p)
    ensures 1.0 - (1.0 - p0) * m == x
  {
    assert Missed(c, pVia, [(d, p)][1..], d) == 1.0;
    assert m == 1.0 - x;
  }

  // ---------------------------------------------------------------------
  // Every table a run can produce
  // ---------------------------------------------------------------------

  datatype Operation<!I(==)> = Met(peer: I) | Heard(via: I, heard: seq<(I, real)>) | Decayed | Cleared

  function Apply<I(==)>(c: Config, self: I, t: Table<I>, op: Operation<I>): Table<I> {
    match op
    case Met(peer) => Encounter(c, self, t, peer)
    case Heard(via, heard) => TransitiveUpdate(c, self, t, via, heard)
    case Decayed => Age(c, t)
    case Cleared => map[]
  }

  function Replay<I(==)>(c: Config, self: I, t: Table<I>, ops: seq<Operation<I>>): Table<I>
    decreases |ops|
  {
    if ops == [] then t else Replay(c, self, Apply(c, self, t, ops[0]), ops[1..])
  }

  ghost predicate Sound<I>(c: Config, self: I, t: Table<I>) {
    self !in t && forall d :: d in t ==> 0.0 < t[d] <= c.max
  }

  lemma {:induction false} LearnAllSound<I>(c: Config, self: I, via: I, pVia: real, t: Table<I>, heard: seq<(I, real)>)
    requires Sound(c, self, t)
    ensures Sound(c, self, LearnAll(c, self, via, pVia, t, heard))
    decreases |heard|
  {
    if heard != [] {
      LearnAllSound(c, self, via, pVia, Learn(c, self, via, pVia, t, heard[0].0, heard[0].1), heard[1..]);
    }
  }

  lemma AgeBounds<I>(c: Config, t: Table<I>)
    requires 0.0 <= c.aging <= 1.0 && 0.0 < c.min
    ensures forall d :: d in Age(c, t) ==> c.min <= Age(c, t)[d] <= t[d]
  {
    forall d | d in Age(c, t) ensures Age(c, t)[d] <= t[d] {
      ShrinksBelow(t[d], c.aging, c.min);
    }
  }

  lemma ApplySound<I>(c: Config, self: I, t: Table<I>, op: Operation<I>)
    requires Sensible(c) && Sound(c, self, t)
    ensures Sound(c, self, Apply(c, self, t, op))
    ensures op.Decayed? ==> forall d :: d in Apply(c, self, t, op) ==> Apply(c, self, t, op)[d] >= c.min
  {
    match op {
      case Met(peer) =>
        if peer != self && peer in t { BoostBounds(t[peer], c.initial); }
      case Heard(via, heard) =>
        LearnAllSound(c, self, via, Probability(t, via), t, heard);
      case Decayed =>
        AgeBounds(c, t);
      case Cleared =>
    }
  }

  /** Over every run the table stays within (0, max] and never lists the local node. */
  lemma {:induction false} TablesStaySound<I>(c: Config, self: I, t: Table<I>, ops: seq<Operation<I>>)
    requires Sensible(c) && Sound(c, self, t)
    ensures Sound(c, self, Replay(c, self, t, ops))
    decreases |ops|
  {
    if ops != [] {
      ApplySound(c, self, t, ops[0]);
      TablesStaySound(c, self, Apply(c, self, t, ops[0]), ops[1..]);
    }
  }
}
