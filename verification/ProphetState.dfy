/** The mutable routing state of one node (crates/indras-dtn/src/prophet.rs), proved against
    the table functions of module Prophet. Timestamps kept only for display are not modelled. */
module ProphetNode {
  import opened Common
  import Prophet

  class ProphetState<I(==)> {
    const localId: I
    const config: Prophet.Config
    var probabilities: Prophet.Table<I>
    var lastAging: int

    constructor (localId: I, config: Prophet.Config, now: int)
      ensures this.localId == localId && this.config == config
      ensures probabilities == map[] && lastAging == now
    {
      this.localId := localId;
      this.config := config;
      probabilities := map[];
      lastAging := now;
    }

    method Encounter(peer: I)
      modifies this`probabilities
      ensures probabilities == Prophet.Encounter(config, localId, old(probabilities), peer)
    {
      if peer == localId {
        return;
      }
      var p := config.initial;
      if peer in probabilities {
        p := MinReal(Prophet.Boost(probabilities[peer], config.initial), config.max);
      }
      probabilities := probabilities[peer := p];
    }

    method TransitiveUpdate(via: I, heard: seq<(I, real)>)
      modifies this`probabilities
      ensures probabilities == Prophet.TransitiveUpdate(config, localId, old(probabilities), via, heard)
    {
      var pVia := Prophet.Probability(probabilities, via);
      if pVia <= config.min {
        return;
      }
      for i := 0 to |heard|
        invariant Prophet.LearnAll(config, localId, via, pVia, probabilities, heard[i..])
               == Prophet.LearnAll(config, localId, via, pVia, old(probabilities), heard)
      {
        assert heard[i..][1..] == heard[i+1..];
        ghost var before := probabilities;
        var (d, p) := heard[i];
        if d != localId && d != via {
          var known := Prophet.Probability(probabilities, d);
          var capped := MinReal(Prophet.Boost(known, Prophet.Increment(config, pVia, p)), config.max);
          if capped > known {
            probabilities := probabilities[d := capped];
          }
        }
        assert probabilities == Prophet.Learn(config, localId, via, pVia, before, heard[i].0, heard[i].1);
      }
    }

    /** Decays the table when the interval has passed: entries that would fall below the minimum
        are removed first, the remaining ones are then scaled in place. */
    method AgeAll(now: int) returns (fired: bool)
      modifies this
      ensures fired <==> now - old(lastAging) >= config.decayInterval
      ensures lastAging == if fired then now else old(lastAging)
      ensures probabilities == if fired then Prophet.Age(config, old(probabilities)) else old(probabilities)
    {
      fired := now - lastAging >= config.decayInterval;
      if !fired {
        return;
      }
      lastAging := now;
      probabilities := probabilities - set d | d in probabilities && Prophet.Decay(config, probabilities[d]) < config.min;
      ScaleAll();
    }

    method ScaleAll()
      modifies this`probabilities
      ensures probabilities == map d | d in old(probabilities) :: Prophet.Decay(config, old(probabilities)[d])
    {
      ghost var kept := probabilities;
      var todo := probabilities.Keys;
      while todo != {}
        invariant probabilities.Keys == kept.Keys && todo <= kept.Keys
        invariant forall d :: d in kept ==> probabilities[d] == if d in todo then kept[d] else Prophet.Decay(config, kept[d])
        decreases |todo|
      {
        var d :| d in todo;
        probabilities := probabilities[d := Prophet.Decay(config, probabilities[d])];
        todo := todo - {d};
      }
    }

    method ForceAge(now: int)
      modifies this
      ensures lastAging == now && probabilities == Prophet.Age(config, old(probabilities))
    {
      lastAging := now - 2 * config.decayInterval;
      var fired := AgeAll(now);
    }

    method BestCandidate(dest: I, candidates: seq<I>) returns (r: Option<I>)
      ensures r == Prophet.BestCandidate(localId, probabilities, dest, candidates)
      ensures r.Some? <==> exists c :: c in candidates && Prophet.ShouldForwardTo(localId, probabilities, dest, c)
    {
      r := None;
      for i := 0 to |candidates|
        invariant r == Prophet.Likeliest(localId, probabilities, dest, candidates[..i])
      {
        assert candidates[..i+1][..i] == candidates[..i];
        var c := candidates[i];
        if c != localId && c != dest &&
           (r.None? || Prophet.Probability(probabilities, r.value) <= Prophet.Probability(probabilities, c)) {
          r := Some(c);
        }
      }
      assert candidates[..|candidates|] == candidates;
      if r.Some? && Prophet.Probability(probabilities, r.value) <= Prophet.Probability(probabilities, dest) {
        r := None;
      }
      Prophet.BestCandidateIsExact(localId, probabilities, dest, candidates);
    }
  }
}
