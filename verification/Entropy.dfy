/** Entropy estimation of pass stories (crates/indras-crypto/src/entropy.rs, word_frequencies.rs), over exact reals.
    The frequency table and the binary logarithm are parameters: only the range of the ranks and the laws of the
    logarithm are used. */
module Entropy {
  import opened Common

  const SLOTS := 23
  const MIN_ENTROPY_BITS := 256.0
  const UNKNOWN_WORD_ENTROPY := 16.0
  const MIN_WORD_ENTROPY := 1.0
  const MAX_WORD_ENTROPY := 20.0
  const CLUSTER_PENALTY := 1.5
  const WEAK_SLOT_THRESHOLD := 6.0

  type Story = s: seq<string> | |s| == SLOTS witness seq(SLOTS, _ => "")

  datatype Lexicon = Lexicon(rank: string -> Option<nat>, log2: nat -> real) {
    /** Every listed word has a rank between 1 and 500; log2 is a binary logarithm. */
    ghost predicate Sensible() {
      && (forall w :: rank(w).Some? ==> 1 <= rank(w).value <= 500)
      && log2(1) == 0.0 && (forall n: nat :: n >= 1 ==> log2(2 * n) == log2(n) + 1.0)
      && (forall m: nat, n: nat :: 1 <= m < n ==> log2(m) < log2(n))
    }

    predicate Unlisted(w: string) { rank(w).None? }
  }

  // ---------------------------------------------------------------------
  // One slot
  // ---------------------------------------------------------------------

  function Clamp(x: real, lo: real, hi: real): real { MinReal(MaxReal(x, lo), hi) }

  function BaseEntropy(lex: Lexicon, w: string): real {
    match lex.rank(w)
    case Some(r) => Clamp(lex.log2(r) + 1.0, MIN_WORD_ENTROPY, MAX_WORD_ENTROPY)
    case None => UNKNOWN_WORD_ENTROPY
  }

  /** The words expected at a position, and what they cost there. */
  function Expected(position: nat): (r: (seq<string>, real))
    ensures 0.0 <= r.1 <= 2.0
  {
    if position == 0 then
      (["darkness", "shadow", "home", "village", "city", "town", "house", "farm", "world"], 2.0)
    else if position == 1 then
      (["child", "boy", "girl", "dreamer", "nobody", "stranger", "orphan", "student"], 2.0)
    else if position == 2 then
      (["stranger", "message", "letter", "dream", "voice", "fate", "destiny", "death"], 1.5)
    else if position == 3 then
      (["hope", "change", "truth", "light", "knowledge", "power", "freedom", "purpose"], 1.5)
    else if position == 4 || position == 5 then
      (["fear", "doubt", "weakness", "pride", "shame", "guilt", "pain", "loss", "anger"], 2.0)
    else if position == 6 then
      (["door", "gate", "bridge", "path", "road", "threshold", "window", "portal"], 2.0)
    else if position == 7 then
      (["darkness", "unknown", "wilderness", "forest", "desert", "city", "light", "world"], 1.5)
    else if position == 8 then
      (["teacher", "master", "wizard", "stranger", "elder", "sage", "guide", "woman", "man"], 2.0)
    else if position == 9 then
      (["truth", "path", "way", "light", "strength", "power", "wisdom", "secret"], 1.5)
    else if position == 10 || position == 11 || position == 12 then
      (["sword", "shield", "weapon", "tool", "fire", "strength", "friend", "ally", "trust", "courage"], 1.0)
    else if position == 13 then
      (["sword", "shield", "heart", "hope", "faith", "trust", "courage", "spirit", "will"], 1.5)
    else if position == 14 then
      (["darkness", "death", "evil", "fear", "silence", "nothing", "stone", "truth"], 1.5)
    else if position == 15 then
      (["sword", "key", "light", "crystal", "treasure", "crown", "gem", "stone", "gift"], 1.5)
    else if position == 16 then
      (["hope", "truth", "freedom", "light", "power", "peace", "love", "life", "joy"], 1.5)
    else if position == 17 || position == 18 then
      (["light", "truth", "treasure", "knowledge", "path", "road", "darkness", "fire"], 1.0)
    else if position == 19 then
      (["child", "boy", "girl", "fool", "coward", "nobody", "stranger", "shadow"], 1.5)
    else if position == 20 then
      (["hero", "warrior", "king", "queen", "master", "healer", "leader", "sage"], 1.5)
    else if position == 21 || position == 22 then
      (["light", "truth", "wisdom", "hope", "love", "peace", "story", "memory", "knowledge"], 1.0)
    else ([], 0.0)
  }

  /** What an expected word costs at each position. */
  lemma PenaltiesExactly(position: nat)
    ensures Expected(position).1 ==
              if position in {0, 1, 4, 5, 6, 8} then 2.0
              else if position in {10, 11, 12, 17, 18, 21, 22} then 1.0
              else if position < SLOTS then 1.5
              else 0.0
    ensures Expected(position).0 == [] <==> position >= SLOTS
  {
  }

  function PositionPenalty(w: string, position: nat): (p: real)
    ensures 0.0 <= p <= 2.0
  {
    if w in Expected(position).0 then Expected(position).1 else 0.0
  }

  function SlotEntropy(lex: Lexicon, w: string, position: nat): (e: real)
    ensures e >= MIN_WORD_ENTROPY
  {
    MaxReal(BaseEntropy(lex, w) - PositionPenalty(w, position), MIN_WORD_ENTROPY)
  }

  lemma {:induction false} Log2OfPower(lex: Lexicon, k: nat)
    requires lex.Sensible()
    ensures Power2(k) >= 1 && lex.log2(Power2(k)) == k as real
  {
    if k > 0 {
      Log2OfPower(lex, k - 1);
      assert lex.log2(2 * Power2(k - 1)) == lex.log2(Power2(k - 1)) + 1.0;
    }
  }

  lemma Log2IsBracketed(lex: Lexicon, n: nat, k: nat)
    requires lex.Sensible() && Power2(k) <= n < Power2(k + 1)
    ensures k as real <= lex.log2(n) < (k + 1) as real
  {
    hide Power2;
    Log2OfPower(lex, k);
    Log2OfPower(lex, k + 1);
  }

  lemma Log2OfRank(lex: Lexicon, r: nat)
    requires lex.Sensible() && 1 <= r <= 500
    ensures 0.0 <= lex.log2(r) < 9.0
  {
    hide Power2;
    assert Power2(0) == 1 && Power2(9) == 512 by { SmallPowers(); }
    Log2OfPower(lex, 0);
    Log2OfPower(lex, 9);
  }

  lemma SmallPowers()
    ensures Power2(0) == 1 && Power2(8) == 256 && Power2(9) == 512
  {
    assert Power2(3) == 8;
    assert Power2(6) == 64;
  }

  /** Before penalties an unlisted word is worth 16 bits and a listed one log2(rank) + 1: neither clamp ever acts. */
  lemma WordIsWorth(lex: Lexicon, w: string)
    requires lex.Sensible()
    ensures lex.rank(w).None? ==> BaseEntropy(lex, w) == 16.0
    ensures lex.rank(w).Some? ==> BaseEntropy(lex, w) == lex.log2(lex.rank(w).value) + 1.0
  {
    if lex.rank(w).Some? { Log2OfRank(lex, lex.rank(w).value); }
  }

  /** A rank of k + 1 binary digits is worth at least k + 1 and less than k + 2 bits, and a higher rank more; and a slot
      loses exactly the penalty of its position, but never falls below one bit. */
  lemma RankIsWorth(lex: Lexicon, w: string, v: string, k: nat, position: nat)
    requires lex.Sensible() && lex.rank(w).Some? && Power2(k) <= lex.rank(w).value < Power2(k + 1)
    ensures (k + 1) as real <= BaseEntropy(lex, w) < (k + 2) as real
    ensures lex.rank(v).Some? && lex.rank(v).value > lex.rank(w).value ==> BaseEntropy(lex, v) > BaseEntropy(lex, w)
    ensures lex.rank(v).None? ==> BaseEntropy(lex, v) > BaseEntropy(lex, w) + 6.0
    ensures w !in Expected(position).0 ==> SlotEntropy(lex, w, position) == BaseEntropy(lex, w)
    ensures w in Expected(position).0 ==> SlotEntropy(lex, w, position) == MaxReal(BaseEntropy(lex, w) - Expected(position).1, 1.0)
  {
    hide BaseEntropy, Expected;
    WordIsWorth(lex, w);
    WordIsWorth(lex, v);
    Log2IsBracketed(lex, lex.rank(w).value, k);
    Log2OfRank(lex, lex.rank(w).value);
  }

  /** A listed word is worth at most 10 bits, any word at most 16. */
  lemma SlotEntropyBound(lex: Lexicon, w: string, position: nat)
    requires lex.Sensible()
    ensures SlotEntropy(lex, w, position) <= if lex.Unlisted(w) then 16.0 else 10.0
  {
    hide PositionPenalty, Expected, BaseEntropy;
    WordIsWorth(lex, w);
    if lex.rank(w).Some? { Log2OfRank(lex, lex.rank(w).value); }
  }

  // ---------------------------------------------------------------------
  // Clustering
  // ---------------------------------------------------------------------

  datatype Cluster = Cluster(a: seq<string>, b: seq<string>) {
    predicate Has(w: string) { w in a || w in b }
  }

  const CLUSTERS := [
    Cluster(["light", "bright", "glow", "shine", "radiance", "sun", "dawn", "flame", "fire", "spark"],
            ["dark", "darkness", "shadow", "night", "gloom", "dusk", "shade", "black"]),
    Cluster(["sword", "blade", "knife", "dagger", "weapon", "spear", "axe"],
            ["shield", "armor", "helm", "defense", "guard", "protection"]),
    Cluster(["hope", "dream", "wish", "desire", "faith"],
            ["fear", "doubt", "despair", "dread", "terror", "anxiety"]),
    Cluster(["love", "heart", "passion", "devotion", "affection"],
            ["hate", "anger", "rage", "fury", "wrath"]),
    Cluster(["life", "birth", "grow", "bloom", "spring"],
            ["death", "end", "wither", "decay", "fall", "winter"]),
    Cluster(["water", "river", "ocean", "sea", "lake", "rain", "wave", "tide"],
            ["fire", "flame", "blaze", "ember", "spark", "burn", "ash"]),
    Cluster(["knowledge", "wisdom", "truth", "understanding", "insight"],
            ["ignorance", "blind", "fool", "confusion", "mystery"])]

  /** Slot i penalizes slot j through this cluster: both words belong to it and j follows within three positions. */
  predicate Hit(c: Cluster, s: Story, i: nat, j: nat)
    requires i < SLOTS && j < SLOTS
  {
    i < j <= i + 3 && c.Has(s[i]) && c.Has(s[j])
  }

  function One(b: bool): nat { if b then 1 else 0 }

  /** Hits on slot j from the first n slots. */
  function HitsFrom(c: Cluster, s: Story, n: nat, j: nat): nat
    requires n <= SLOTS && j < SLOTS
  {
    if n == 0 then 0 else HitsFrom(c, s, n - 1, j) + One(Hit(c, s, n - 1, j))
  }

  /** Hits on slot j through the first k clusters. */
  function Hits(cs: seq<Cluster>, s: Story, k: nat, j: nat): nat
    requires k <= |cs| && j < SLOTS
  {
    if k == 0 then 0 else Hits(cs, s, k - 1, j) + HitsFrom(cs[k-1], s, SLOTS, j)
  }

  /** The penalty, applied n times. */
  function Lowered(x: real, n: nat): real {
    if n == 0 then x else MaxReal(Lowered(x, n - 1) - CLUSTER_PENALTY, MIN_WORD_ENTROPY)
  }

  lemma {:induction false} LoweredInOneGo(x: real, n: nat)
    requires x >= MIN_WORD_ENTROPY
    ensures Lowered(x, n) == MaxReal(x - CLUSTER_PENALTY * n as real, MIN_WORD_ENTROPY)
  {
    if n > 0 { LoweredInOneGo(x, n - 1); }
  }

  method ApplyClusteringPenalty(s: Story, e: array<real>)
    requires e.Length == SLOTS
    modifies e
    ensures forall j :: 0 <= j < SLOTS ==> e[j] == Lowered(old(e[j]), Hits(CLUSTERS, s, |CLUSTERS|, j))
  {
    hide CLUSTERS;
    for k := 0 to |CLUSTERS|
      invariant forall j :: 0 <= j < SLOTS ==> e[j] == Lowered(old(e[j]), Hits(CLUSTERS, s, k, j))
    {
      ApplyCluster(CLUSTERS[k], s, e);
      forall j | 0 <= j < SLOTS ensures e[j] == Lowered(old(e[j]), Hits(CLUSTERS, s, k + 1, j)) {
        LoweredTwice(old(e[j]), Hits(CLUSTERS, s, k, j), HitsFrom(CLUSTERS[k], s, SLOTS, j));
      }
    }
  }

  method ApplyCluster(c: Cluster, s: Story, e: array<real>)
    requires e.Length == SLOTS
    modifies e
    ensures forall j :: 0 <= j < SLOTS ==> e[j] == Lowered(old(e[j]), HitsFrom(c, s, SLOTS, j))
  {
    for i := 0 to SLOTS
      invariant forall j :: 0 <= j < SLOTS ==> e[j] == Lowered(old(e[j]), HitsFrom(c, s, i, j))
    {
      ApplyRow(c, s, i, e);
      forall j | 0 <= j < SLOTS ensures e[j] == Lowered(old(e[j]), HitsFrom(c, s, i + 1, j)) {
        LoweredTwice(old(e[j]), HitsFrom(c, s, i, j), One(Hit(c, s, i, j)));
      }
    }
  }

  /** The inner loop: slot i against the three slots after it. */
  method ApplyRow(c: Cluster, s: Story, i: nat, e: array<real>)
    requires e.Length == SLOTS && i < SLOTS
    modifies e
    ensures forall j :: 0 <= j < SLOTS ==> e[j] == Lowered(old(e[j]), One(Hit(c, s, i, j)))
  {
    var inA, inB := s[i] in c.a, s[i] in c.b;
    if !inA && !inB {
      return;
    }
    for j := i + 1 to Min(SLOTS, i + 4)
      invariant forall k :: 0 <= k < SLOTS ==> e[k] == if k < j then Lowered(old(e[k]), One(Hit(c, s, i, k))) else old(e[k])
    {
      var alsoA, alsoB := s[j] in c.a, s[j] in c.b;
      if (inA && alsoA) || (inB && alsoB) || (inA && alsoB) || (inB && alsoA) {
        e[j] := MaxReal(e[j] - CLUSTER_PENALTY, MIN_WORD_ENTROPY);
      }
    }
  }

  lemma {:induction false} LoweredTwice(x: real, m: nat, n: nat)
    ensures Lowered(Lowered(x, m), n) == Lowered(x, m + n)
  {
    if n > 0 { LoweredTwice(x, m, n - 1); }
  }

  // ---------------------------------------------------------------------
  // Duplicates
  // ---------------------------------------------------------------------

  predicate Repeats(s: Story, j: nat)
    requires j < SLOTS
  {
    exists i :: 0 <= i < j && s[i] == s[j]
  }

  method ApplyDuplicatePenalty(s: Story, e: array<real>)
    requires e.Length == SLOTS
    modifies e
    ensures forall j :: 0 <= j < SLOTS ==> e[j] == if Repeats(s, j) then MIN_WORD_ENTROPY else old(e[j])
  {
    for i := 0 to SLOTS
      invariant forall j :: 0 <= j < SLOTS ==>
                  e[j] == if exists k :: 0 <= k < Min(i, j) && s[k] == s[j] then MIN_WORD_ENTROPY else old(e[j])
    {
      for j := i + 1 to SLOTS
        invariant forall h :: 0 <= h < SLOTS ==>
                    e[h] == if exists k :: 0 <= k < Min(if h < j then i + 1 else i, h) && s[k] == s[h] then MIN_WORD_ENTROPY else old(e[h])
      {
        if s[i] == s[j] {
          e[j] := MIN_WORD_ENTROPY;
        }
      }
    }
  }

  // ---------------------------------------------------------------------
  // Whole stories
  // ---------------------------------------------------------------------

  /** What slot j finally counts for: nothing but the minimum if it repeats an earlier slot, else its positional entropy
      less one penalty per cluster hit, but never below the minimum. */
  function SlotBits(lex: Lexicon, s: Story, j: nat): real
    requires j < SLOTS
  {
    if Repeats(s, j) then MIN_WORD_ENTROPY
    else MaxReal(SlotEntropy(lex, s[j], j) - CLUSTER_PENALTY * Hits(CLUSTERS, s, |CLUSTERS|, j) as real, MIN_WORD_ENTROPY)
  }

  function SumTo(lex: Lexicon, s: Story, n: nat): real
    requires n <= SLOTS
  {
    if n == 0 then 0.0 else SumTo(lex, s, n - 1) + SlotBits(lex, s, n - 1)
  }

  method StoryEntropy(lex: Lexicon, s: Story) returns (total: real, perSlot: array<real>)
    ensures fresh(perSlot) && perSlot.Length == SLOTS
    ensures forall j :: 0 <= j < SLOTS ==> perSlot[j] == SlotBits(lex, s, j)
    ensures total == SumTo(lex, s, SLOTS)
  {
    hide PositionPenalty, Expected, BaseEntropy, CLUSTERS, SlotEntropy, Hits, Lowered, Repeats;
    perSlot := new real[SLOTS];
    for i := 0 to SLOTS
      invariant forall j :: 0 <= j < i ==> perSlot[j] == SlotEntropy(lex, s[j], j)
    {
      perSlot[i] := SlotEntropy(lex, s[i], i);
    }
    ApplyClusteringPenalty(s, perSlot);
    forall j | 0 <= j < SLOTS
      ensures perSlot[j] == MaxReal(SlotEntropy(lex, s[j], j) - CLUSTER_PENALTY * Hits(CLUSTERS, s, |CLUSTERS|, j) as real, MIN_WORD_ENTROPY)
    {
      LoweredInOneGo(SlotEntropy(lex, s[j], j), Hits(CLUSTERS, s, |CLUSTERS|, j));
    }
    ApplyDuplicatePenalty(s, perSlot);
    total := 0.0;
    for i := 0 to SLOTS
      invariant total == SumTo(lex, s, i)
      invariant forall j :: 0 <= j < SLOTS ==> perSlot[j] == SlotBits(lex, s, j)
    {
      total := total + perSlot[i];
    }
  }

  datatype Verdict = Passed | BelowThreshold(total: real, weak: seq<nat>)

  function WeakSlots(lex: Lexicon, s: Story, n: nat): seq<nat>
    requires n <= SLOTS
  {
    if n == 0 then [] else WeakSlots(lex, s, n - 1) + if SlotBits(lex, s, n - 1) < WEAK_SLOT_THRESHOLD then [n - 1] else []
  }

  /** Passes exactly the stories of at least 256 bits; otherwise reports the slots below 6 bits, in order. */
  method EntropyGate(lex: Lexicon, s: Story) returns (v: Verdict)
    ensures v.Passed? <==> SumTo(lex, s, SLOTS) >= 256.0
    ensures v.BelowThreshold? ==> v.total == SumTo(lex, s, SLOTS) && v.weak == WeakSlots(lex, s, SLOTS)
  {
    hide SlotBits, SumTo;
    var total, perSlot := StoryEntropy(lex, s);
    if total >= MIN_ENTROPY_BITS {
      return Passed;
    }
    var weak := [];
    for i := 0 to SLOTS
      invariant weak == WeakSlots(lex, s, i)
    {
      if perSlot[i] < WEAK_SLOT_THRESHOLD {
        weak := weak + [i];
      }
    }
    return BelowThreshold(total, weak);
  }

  // ---------------------------------------------------------------------
  // What a passing story must contain
  // ---------------------------------------------------------------------

  function Words(s: seq<string>): set<string> { set w | w in s }

  function UnlistedWords(lex: Lexicon, s: seq<string>): set<string> { set w | w in s && lex.Unlisted(w) }

  lemma SlotBitsBound(lex: Lexicon, s: Story, j: nat)
    requires lex.Sensible() && j < SLOTS
    ensures SlotBits(lex, s, j) <= if Repeats(s, j) then 1.0 else if lex.Unlisted(s[j]) then 16.0 else 10.0
  {
    hide CLUSTERS, Hits, SlotEntropy, Repeats, Lexicon.Sensible;
    SlotEntropyBound(lex, s[j], j);
  }

  /** Each slot adds one bit, each new word nine more, each new unlisted word another six. */
  lemma {:induction false} SumBound(lex: Lexicon, s: Story, n: nat)
    requires lex.Sensible() && n <= SLOTS
    ensures SumTo(lex, s, n) <= (n + 9 * |Words(s[..n])| + 6 * |UnlistedWords(lex, s[..n])|) as real
  {
    hide SlotBits, Lexicon.Sensible;
    if n > 0 {
      SumBound(lex, s, n - 1);
      SlotBitsBound(lex, s, n - 1);
      OneMoreWord(lex, s, n - 1);
    }
  }

  lemma OneMoreWord(lex: Lexicon, s: Story, n: nat)
    requires n < SLOTS
    ensures |Words(s[..n+1])| == |Words(s[..n])| + One(!Repeats(s, n))
    ensures |UnlistedWords(lex, s[..n+1])| == |UnlistedWords(lex, s[..n])| + One(!Repeats(s, n) && lex.Unlisted(s[n]))
  {
    var front := s[..n];
    assert s[..n+1] == front + [s[n]];
    assert Repeats(s, n) <==> s[n] in front;
    assert Words(s[..n+1]) == Words(front) + {s[n]};
    assert UnlistedWords(lex, s[..n+1]) == UnlistedWords(lex, front) + if lex.Unlisted(s[n]) then {s[n]} else {};
  }

  /** A story that passes the gate has 9 d + 6 u >= 233 for its d different words and u different unlisted words; so it
      has at least 16 different words, at least 5 of them unlisted. */
  lemma PassingNeedsVariety(lex: Lexicon, s: Story)
    requires lex.Sensible() && SumTo(lex, s, SLOTS) >= 256.0
    ensures 9 * |Words(s)| + 6 * |UnlistedWords(lex, s)| >= 233
    ensures |Words(s)| >= 16 && |UnlistedWords(lex, s)| >= 5
  {
    hide SumTo, Lexicon.Sensible;
    SumBound(lex, s, SLOTS);
    assert s[..SLOTS] == s;
    FewerThanSlots(lex, s, SLOTS);
  }

  lemma {:induction false} FewerThanSlots(lex: Lexicon, s: Story, n: nat)
    requires n <= SLOTS
    ensures |UnlistedWords(lex, s[..n])| <= |Words(s[..n])| <= n
  {
    if n > 0 {
      FewerThanSlots(lex, s, n - 1);
      OneMoreWord(lex, s, n - 1);
    }
  }

  // ---------------------------------------------------------------------
  // What is enough to pass
  // ---------------------------------------------------------------------

  /** No earlier slot uses the word and no cluster contains it. */
  predicate Unpaired(s: Story, j: nat)
    requires j < SLOTS
  {
    !Repeats(s, j) && forall k :: 0 <= k < |CLUSTERS| ==> !CLUSTERS[k].Has(s[j])
  }

  predicate Strong(lex: Lexicon, s: Story, j: nat)
    requires j < SLOTS
  {
    Unpaired(s, j) && lex.Unlisted(s[j])
  }

  /** A listed word that is not expected at its position. */
  predicate Solid(lex: Lexicon, s: Story, j: nat)
    requires j < SLOTS
  {
    Unpaired(s, j) && lex.rank(s[j]).Some? && s[j] !in Expected(j).0
  }

  /** Bits beyond the first that a slot certainly counts for. */
  function Assured(lex: Lexicon, s: Story, j: nat): nat
    requires j < SLOTS
  {
    if Strong(lex, s, j) then 13
    else if Solid(lex, s, j) && lex.rank(s[j]).value >= 1 then FloorLog2(lex.rank(s[j]).value)
    else 0
  }

  function AssuredTo(lex: Lexicon, s: Story, n: nat): nat
    requires n <= SLOTS
  {
    if n == 0 then 0 else AssuredTo(lex, s, n - 1) + Assured(lex, s, n - 1)
  }

  function StrongSlots(lex: Lexicon, s: Story, n: nat): nat
    requires n <= SLOTS
  {
    if n == 0 then 0 else StrongSlots(lex, s, n - 1) + One(Strong(lex, s, n - 1))
  }

  /** Slots with such a listed word of at least this rank. */
  function SolidSlots(lex: Lexicon, s: Story, rank: nat, n: nat): nat
    requires n <= SLOTS
  {
    if n == 0 then 0
    else SolidSlots(lex, s, rank, n - 1) + One(Solid(lex, s, n - 1) && lex.rank(s[n-1]).value >= rank)
  }

  lemma {:induction false} NoHitsFrom(c: Cluster, s: Story, n: nat, j: nat)
    requires n <= SLOTS && j < SLOTS && !c.Has(s[j])
    ensures HitsFrom(c, s, n, j) == 0
  {
    if n > 0 { NoHitsFrom(c, s, n - 1, j); }
  }

  lemma {:induction false} NoHits(cs: seq<Cluster>, s: Story, k: nat, j: nat)
    requires k <= |cs| && j < SLOTS && forall i :: 0 <= i < k ==> !cs[i].Has(s[j])
    ensures Hits(cs, s, k, j) == 0
  {
    if k > 0 {
      NoHits(cs, s, k - 1, j);
      NoHitsFrom(cs[k-1], s, SLOTS, j);
    }
  }

  /** What a slot is worth in the end: one bit if it repeats an earlier one, otherwise its word's bits less the penalty of
      the position and then 1.5 per cluster hit, neither taking it below one bit. */
  lemma SlotIsWorth(lex: Lexicon, s: Story, j: nat)
    requires lex.Sensible() && j < SLOTS
    ensures var word := if lex.rank(s[j]).None? then 16.0 else lex.log2(lex.rank(s[j]).value) + 1.0;
            var placed := MaxReal(word - PositionPenalty(s[j], j), 1.0);
            SlotBits(lex, s, j) == if exists i :: 0 <= i < j && s[i] == s[j] then 1.0
                                   else MaxReal(placed - 1.5 * Hits(CLUSTERS, s, |CLUSTERS|, j) as real, 1.0)
  {
    hide PositionPenalty, CLUSTERS, Hits, BaseEntropy;
    WordIsWorth(lex, s[j]);
  }

  /** The hits of one cluster on slot j: the slots among the three before it whose words belong to the cluster, if its own
      word does. */
  lemma {:induction false} HitsAreCounted(c: Cluster, s: Story, n: nat, j: nat)
    requires n <= SLOTS && j < SLOTS
    ensures HitsFrom(c, s, n, j) == |set i | 0 <= i < n && j - 3 <= i < j && c.Has(s[i]) && c.Has(s[j])|
  {
    var all := set i | 0 <= i < n && j - 3 <= i < j && c.Has(s[i]) && c.Has(s[j]);
    if n == 0 {
      assert all == {};
    } else {
      HitsAreCounted(c, s, n - 1, j);
      var front := set i | 0 <= i < n - 1 && j - 3 <= i < j && c.Has(s[i]) && c.Has(s[j]);
      assert all == front + if Hit(c, s, n - 1, j) then {n - 1} else {};
    }
  }

  lemma UnpairedSlot(lex: Lexicon, s: Story, j: nat)
    requires j < SLOTS && Unpaired(s, j)
    ensures SlotBits(lex, s, j) == MaxReal(BaseEntropy(lex, s[j]) - PositionPenalty(s[j], j), 1.0)
  {
    hide CLUSTERS, Hits, Repeats, PositionPenalty, BaseEntropy;
    NoHits(CLUSTERS, s, |CLUSTERS|, j);
  }

  lemma StrongSlot(lex: Lexicon, s: Story, j: nat)
    requires j < SLOTS
    ensures SlotBits(lex, s, j) >= if Strong(lex, s, j) then 14.0 else 1.0
  {
    hide CLUSTERS, Hits, Unpaired, PositionPenalty, Repeats;
    if Strong(lex, s, j) { UnpairedSlot(lex, s, j); }
  }

  lemma SlotBitsAtLeast(lex: Lexicon, s: Story, j: nat)
    requires lex.Sensible() && j < SLOTS
    ensures SlotBits(lex, s, j) >= (1 + Assured(lex, s, j)) as real
  {
    hide CLUSTERS, Hits, Unpaired, Expected, BaseEntropy, FloorLog2, Power2, Lexicon.Sensible;
    StrongSlot(lex, s, j);
    if Solid(lex, s, j) && lex.rank(s[j]).value >= 1 {
      UnpairedSlot(lex, s, j);
      RankIsWorth(lex, s[j], s[j], FloorLog2(lex.rank(s[j]).value), j);
    }
  }

  lemma {:induction false} SumAtLeast(lex: Lexicon, s: Story, n: nat)
    requires lex.Sensible() && n <= SLOTS
    ensures SumTo(lex, s, n) >= (n + AssuredTo(lex, s, n)) as real
  {
    hide SlotBits, Assured, Lexicon.Sensible;
    if n > 0 {
      SumAtLeast(lex, s, n - 1);
      SlotBitsAtLeast(lex, s, n - 1);
    }
  }

  /** A story passes if its slots are assured of 233 bits beyond their first ones: 13 for every new unlisted word outside
      the clusters, floor(log2 rank) for every new listed one outside them that its position does not expect. */
  lemma AssuredBitsPass(lex: Lexicon, s: Story)
    requires lex.Sensible() && AssuredTo(lex, s, SLOTS) >= 233
    ensures SumTo(lex, s, SLOTS) >= 256.0
  {
    hide SumTo, AssuredTo, Lexicon.Sensible;
    SumAtLeast(lex, s, SLOTS);
  }

  lemma {:induction false} AssuredAtLeast(lex: Lexicon, s: Story, k: nat, n: nat)
    requires n <= SLOTS
    ensures AssuredTo(lex, s, n) >= 13 * StrongSlots(lex, s, n) + k * SolidSlots(lex, s, Power2(k), n)
  {
    hide Strong, Solid, Power2, FloorLog2;
    if n > 0 {
      AssuredAtLeast(lex, s, k, n - 1);
      AssuredOne(lex, s, k, n - 1);
      OneSlotMore(k, SolidSlots(lex, s, Power2(k), n - 1), SolidSlots(lex, s, Power2(k), n));
    }
  }

  lemma OneSlotMore(k: nat, before: nat, after: nat)
    requires before <= after <= before + 1
    ensures k * after == k * before + if after == before then 0 else k
  {
    if after == before + 1 { assert k * (before + 1) == k * before + k; }
  }

  lemma AssuredOne(lex: Lexicon, s: Story, k: nat, j: nat)
    requires j < SLOTS
    ensures Strong(lex, s, j) ==> Assured(lex, s, j) >= 13 && !Solid(lex, s, j)
    ensures Solid(lex, s, j) && lex.rank(s[j]).value >= Power2(k) ==> Assured(lex, s, j) >= k
  {
    hide Unpaired, Expected, FloorLog2, Power2;
    if Solid(lex, s, j) && lex.rank(s[j]).value >= Power2(k) { DigitsGrow(lex.rank(s[j]).value, k); }
  }

  lemma DigitsGrow(n: nat, k: nat)
    requires n >= Power2(k)
    ensures n >= 1 && FloorLog2(n) >= k
  {
    hide FloorLog2, Power2;
    PowersGrow(0, k);
    var digits := FloorLog2(n);
    if digits < k { PowersGrow(digits + 1, k); }
  }

  lemma {:induction false} PowersGrow(a: nat, b: nat)
    requires a <= b
    ensures 1 <= Power2(a) <= Power2(b)
  {
    if a < b { PowersGrow(a, b - 1); } else if a > 0 { PowersGrow(a - 1, a - 1); }
  }

  lemma {:induction false} StrongSumAtLeast(lex: Lexicon, s: Story, n: nat)
    requires n <= SLOTS
    ensures SumTo(lex, s, n) >= (n + 13 * StrongSlots(lex, s, n)) as real
  {
    hide SlotBits, Strong;
    if n > 0 {
      StrongSumAtLeast(lex, s, n - 1);
      StrongSlot(lex, s, n - 1);
    }
  }

  /** Eighteen slots with different unlisted words outside every cluster always pass, whatever the other five hold and
      whatever the ranks of listed words are worth. */
  lemma EighteenStrongSlotsPass(lex: Lexicon, s: Story)
    requires StrongSlots(lex, s, SLOTS) >= 18
    ensures SumTo(lex, s, SLOTS) >= 256.0
  {
    hide SumTo, StrongSlots;
    StrongSumAtLeast(lex, s, SLOTS);
  }

  /** Listed words count: so do fifteen such slots with eight different listed words of rank 256 or more. */
  lemma RareListedWordsPass(lex: Lexicon, s: Story)
    requires lex.Sensible() && StrongSlots(lex, s, SLOTS) >= 15 && SolidSlots(lex, s, 256, SLOTS) >= 8
    ensures SumTo(lex, s, SLOTS) >= 256.0
  {
    hide SumTo, StrongSlots, AssuredTo, SolidSlots, Lexicon.Sensible;
    SmallPowers();
    AssuredAtLeast(lex, s, 8, SLOTS);
    AssuredBitsPass(lex, s);
  }

  /** The gate reports the slots below six bits, in ascending order. */
  lemma {:induction false} WeakSlotsExactly(lex: Lexicon, s: Story, n: nat)
    requires n <= SLOTS
    ensures StrictlyAscending(WeakSlots(lex, s, n))
    ensures forall j :: j in WeakSlots(lex, s, n) <==> 0 <= j < n && SlotBits(lex, s, j) < 6.0
  {
    hide SlotBits, WeakSlots;
    WeakStep(lex, s, n);
    if n > 0 {
      WeakSlotsExactly(lex, s, n - 1);
      var front := WeakSlots(lex, s, n - 1);
      if SlotBits(lex, s, n - 1) < 6.0 {
        forall i | 0 <= i < |front| ensures front[i] < n - 1 { assert front[i] in front; }
        AppendGreatest(front, n - 1);
      }
    }
  }

  lemma WeakStep(lex: Lexicon, s: Story, n: nat)
    requires n <= SLOTS
    ensures n == 0 ==> WeakSlots(lex, s, n) == []
    ensures n > 0 && SlotBits(lex, s, n - 1) < 6.0 ==> WeakSlots(lex, s, n) == WeakSlots(lex, s, n - 1) + [n - 1]
    ensures n > 0 && SlotBits(lex, s, n - 1) >= 6.0 ==> WeakSlots(lex, s, n) == WeakSlots(lex, s, n - 1)
  {
    hide SlotBits;
    if n > 0 { assert WeakSlots(lex, s, n - 1) + [] == WeakSlots(lex, s, n - 1); }
  }
}
