/** What runs of the artifact operations guarantee: unique live grants, frozen artifacts, linked stewardship histories,
    and exchanges that complete once (crates/indras-artifacts/src/vault.rs, exchange.rs). */
module ArtifactRuns {
  import opened Common
  import opened Artifacts

  datatype Call =
    | Leaf(payload: seq<byte>)
    | Tree(id: ArtifactId, audience: seq<PlayerId>)
    | Give(id: ArtifactId, grantee: PlayerId, mode: AccessMode)
    | Revoke(id: ArtifactId, grantee: PlayerId)
    | RecallIt(id: ArtifactId)
    | HandOn(id: ArtifactId, to: PlayerId)
    | Accept(id: ArtifactId)
    | Reject(id: ArtifactId)
    | Complete(id: ArtifactId)

  /** A call made through the vault of `player` at clock reading `now`. */
  datatype Step = Step(player: PlayerId, now: int, call: Call)

  function Do(s: Store, step: Step): (Store, Reply) {
    match step.call
    case Leaf(payload) => (PlaceLeaf(s, step.player, payload, step.now), Ok(()))
    case Tree(id, audience) => (PlaceTree(s, step.player, id, audience, step.now), Ok(()))
    case Give(id, grantee, mode) => GrantAccess(s, step.player, id, grantee, mode, step.now)
    case Revoke(id, grantee) => RevokeAccess(s, step.player, id, grantee)
    case RecallIt(id) => Recall(s, step.player, id, step.now)
    case HandOn(id, to) => TransferStewardship(s, step.player, id, to, step.now)
    case Accept(id) => AcceptExchange(s, step.player, id)
    case Reject(id) => RejectExchange(s, step.player, id)
    case Complete(id) => CompleteExchange(s, id, step.now)
  }

  /** The store after the first k steps. */
  function After(s: Store, steps: seq<Step>, k: nat): Store
    requires k <= |steps|
  {
    if k == 0 then s else Do(After(s, steps, k - 1), steps[k-1]).0
  }

  /** The call puts a new artifact under this id. */
  predicate Places(call: Call, id: ArtifactId) {
    match call
    case Leaf(payload) => id == Blob(payload)
    case Tree(x, _) => id == x
    case _ => false
  }

  /** A failed call changes nothing. */
  lemma FailureChangesNothing(s: Store, step: Step)
    ensures Do(s, step).1.Err? ==> Do(s, step).0 == s
  {
  }

  // ---------------------------------------------------------------------
  // Grants
  // ---------------------------------------------------------------------

  ghost predicate OneLivePerGrantee(gs: seq<Grant>, now: int) {
    forall i, j :: 0 <= i < j < |gs| && gs[i].grantee == gs[j].grantee ==> !gs[i].Live(now) || !gs[j].Live(now)
  }

  ghost predicate GrantsOk(s: Store, now: int) { forall id :: id in s.artifacts ==> OneLivePerGrantee(s.artifacts[id].grants, now) }

  lemma LaterIsFewer(s: Store, now: int, later: int)
    requires GrantsOk(s, now) && now <= later
    ensures GrantsOk(s, later)
  {
    forall id | id in s.artifacts ensures OneLivePerGrantee(s.artifacts[id].grants, later) {
      var gs := s.artifacts[id].grants;
      assert OneLivePerGrantee(gs, now);
    }
  }

  lemma GiveKeepsOneExactly(gs: seq<Grant>, g: Grant, t: int)
    requires OneLivePerGrantee(gs, t)
    ensures OneLivePerGrantee(gs + [g], t) <==> !g.Live(t) || !HasLiveGrant(gs, g.grantee, t)
  {
    var more := gs + [g];
    if g.Live(t) && HasLiveGrant(gs, g.grantee, t) {
      var h :| h in gs && h.grantee == g.grantee && h.Live(t);
      var i :| 0 <= i < |gs| && gs[i] == h;
      assert more[i].grantee == more[|gs|].grantee && more[i].Live(t) && more[|gs|].Live(t);
    } else {
      forall i, j | 0 <= i < j < |more| && more[i].grantee == more[j].grantee ensures !more[i].Live(t) || !more[j].Live(t) {
        assert more[i] in gs;
      }
    }
  }

  /** retain keeps the order of what it keeps: a grant list without a grantee embeds in the original. */
  lemma {:induction false} WithoutKeepsOne(gs: seq<Grant>, p: PlayerId, now: int)
    requires OneLivePerGrantee(gs, now)
    ensures OneLivePerGrantee(WithoutGrantee(gs, p), now)
    ensures forall g :: g in WithoutGrantee(gs, p) <==> g in gs && g.grantee != p
  {
    hide HasLiveGrant;
    WithoutMembers(gs, p);
    if gs != [] {
      var n := |gs| - 1;
      WithoutKeepsOne(gs[..n], p, now);
      if gs[n].grantee != p {
        WithoutIsFewer(gs[..n], p, gs[n].grantee, now);
        LastIsAlone(gs, now);
        GiveKeepsOneExactly(WithoutGrantee(gs[..n], p), gs[n], now);
      }
    }
  }

  lemma {:induction false} WithoutMembers(gs: seq<Grant>, p: PlayerId)
    ensures forall g :: g in WithoutGrantee(gs, p) <==> g in gs && g.grantee != p
  {
    if gs != [] {
      var n := |gs| - 1;
      WithoutMembers(gs[..n], p);
      assert gs == gs[..n] + [gs[n]];
    }
  }

  lemma WithoutIsFewer(gs: seq<Grant>, p: PlayerId, q: PlayerId, now: int)
    ensures HasLiveGrant(WithoutGrantee(gs, p), q, now) ==> HasLiveGrant(gs, q, now)
  {
    hide WithoutGrantee;
    WithoutMembers(gs, p);
  }

  lemma LastIsAlone(gs: seq<Grant>, now: int)
    requires gs != [] && OneLivePerGrantee(gs, now)
    ensures var n := |gs| - 1; !gs[n].Live(now) || !HasLiveGrant(gs[..n], gs[n].grantee, now)
  {
    var n := |gs| - 1;
    assert gs == gs[..n] + [gs[n]];
    GiveKeepsOneExactly(gs[..n], gs[n], now);
  }

  lemma PutKeepsGrantsExactly(s: Store, id: ArtifactId, a: Artifact, t: int)
    requires GrantsOk(s, t)
    ensures GrantsOk(PutArtifact(s, id, a), t) <==> OneLivePerGrantee(a.grants, t)
  {
    hide OneLivePerGrantee;
    var r := PutArtifact(s, id, a);
    assert id in r.artifacts && r.artifacts[id] == a;
  }

  ghost predicate PlainAudience(call: Call) { call.Tree? ==> NoDuplicates(call.audience) }

  /** What a caller can see beforehand: an audience names nobody twice, and a grant that will be added has expired by
      the reading t, or its grantee has no other grant live at t. */
  ghost predicate AddsNoSecond(s: Store, step: Step, t: int) {
    && PlainAudience(step.call)
    && (step.call.Give? && Refusal(s, step.player, step.call.id).None?
        && !HasLiveGrant(s.artifacts[step.call.id].grants, step.call.grantee, step.now) ==>
          step.call.mode.IsExpired(t) || !HasLiveGrant(s.artifacts[step.call.id].grants, step.call.grantee, t))
  }

  /** At any clock reading t, before or after the call's own, a call keeps live grants unique if and only if it adds no
      second one. */
  lemma GrantsAreKeptExactly(s: Store, step: Step, t: int)
    requires GrantsOk(s, t)
    ensures GrantsOk(Do(s, step).0, t) <==> AddsNoSecond(s, step, t)
  {
    hide GrantsOk, OneLivePerGrantee, PutArtifact, HandTo, HasLiveGrant, WithoutGrantee, FirstGrant, NoDuplicates;
    var now := step.now;
    match step.call {
      case Leaf(payload) =>
        SingleGrant(Grant(step.player, Permanent, now, step.player), t);
        PutKeepsGrantsExactly(s, Blob(payload), NewArtifact(step.player, [Grant(step.player, Permanent, now, step.player)], now), t);
      case Tree(id, audience) =>
        AudienceIsPlainExactly(audience, now, step.player, t);
        PutKeepsGrantsExactly(s, id, NewArtifact(step.player, AudienceGrants(audience, now, step.player), now), t);
      case Give(id, grantee, mode) =>
        if Do(s, step).1.Ok? {
          var a, g := s.artifacts[id], Grant(grantee, mode, now, step.player);
          GrantsOf(s, id, t);
          GiveKeepsOneExactly(a.grants, g, t);
          PutKeepsGrantsExactly(s, id, a.(grants := a.grants + [g]), t);
        }
      case Revoke(id, grantee) =>
        if Do(s, step).1.Ok? {
          var a := s.artifacts[id];
          GrantsOf(s, id, t);
          WithoutKeepsOne(a.grants, grantee, t);
          PutKeepsGrantsExactly(s, id, a.(grants := WithoutGrantee(a.grants, grantee)), t);
        }
      case _ => OthersKeepGrants(s, step, t);
    }
  }

  lemma GrantsOf(s: Store, id: ArtifactId, now: int)
    requires GrantsOk(s, now) && id in s.artifacts
    ensures OneLivePerGrantee(s.artifacts[id].grants, now)
  {
  }

  lemma SingleGrant(g: Grant, now: int)
    ensures OneLivePerGrantee([g], now)
  {
  }

  lemma AudienceIsPlainExactly(audience: seq<PlayerId>, now: int, giver: PlayerId, t: int)
    ensures OneLivePerGrantee(AudienceGrants(audience, now, giver), t) <==> NoDuplicates(audience)
  {
    var gs := AudienceGrants(audience, now, giver);
    if i, j :| 0 <= i < j < |audience| && audience[i] == audience[j] {
      assert gs[i].grantee == gs[j].grantee && gs[i].Live(t) && gs[j].Live(t);
    }
  }

  lemma OthersKeepGrants(s: Store, step: Step, t: int)
    requires GrantsOk(s, t)
    requires step.call.RecallIt? || step.call.HandOn? || step.call.Accept? || step.call.Reject? || step.call.Complete?
    ensures GrantsOk(Do(s, step).0, t)
  {
    hide OneLivePerGrantee, Closed, Accepted, Sides, InRole;
  }

  ghost predicate ClockAdvances(steps: seq<Step>, start: int) {
    && (forall i :: 0 <= i < |steps| ==> start <= steps[i].now)
    && (forall i, j :: 0 <= i <= j < |steps| ==> steps[i].now <= steps[j].now)
  }

  lemma {:induction false} GrantsStayUniqueUpTo(s: Store, steps: seq<Step>, start: int, k: nat)
    requires GrantsOk(s, start) && ClockAdvances(steps, start) && k <= |steps|
    requires forall i :: 0 <= i < |steps| ==> PlainAudience(steps[i].call)
    ensures GrantsOk(After(s, steps, k), if k == 0 then start else steps[k-1].now)
  {
    hide GrantsOk, Do;
    if k > 0 {
      GrantsStayUniqueUpTo(s, steps, start, k - 1);
      var before := After(s, steps, k - 1);
      LaterIsFewer(before, if k == 1 then start else steps[k-2].now, steps[k-1].now);
      GrantsAreKeptExactly(before, steps[k-1], steps[k-1].now);
    }
  }

  /** With a clock that does not go back and audiences without repetition, after every run each grantee has at most one
      live grant per artifact, now and at every later time. */
  lemma LiveGrantsStayUnique(s: Store, steps: seq<Step>, start: int, later: int)
    requires GrantsOk(s, start) && ClockAdvances(steps, start)
    requires forall i :: 0 <= i < |steps| ==> PlainAudience(steps[i].call)
    requires later >= start && forall i :: 0 <= i < |steps| ==> later >= steps[i].now
    ensures GrantsOk(After(s, steps, |steps|), later)
  {
    hide GrantsOk, After;
    GrantsStayUniqueUpTo(s, steps, start, |steps|);
    LaterIsFewer(After(s, steps, |steps|), if |steps| == 0 then start else steps[|steps|-1].now, later);
  }

  /** On every active artifact, for every grantee without grants: a grant made when an earlier timed one has expired is a
      second live grant at every reading of the clock before that expiry at which it is not itself expired. */
  lemma ClockGoingBackDoublesGrants(s: Store, player: PlayerId, id: ArtifactId, p: PlayerId, mode: AccessMode, first: int, expires: int, second: int, t: int)
    requires Refusal(s, player, id).None? && FirstGrant(s.artifacts[id].grants, p).None?
    requires t < expires <= second && !mode.IsExpired(t)
    ensures var steps := [Step(player, first, Give(id, p, Timed(expires))), Step(player, second, Give(id, p, mode))];
            !GrantsOk(After(s, steps, 2), t)
  {
    hide FirstGrant;
    var steps := [Step(player, first, Give(id, p, Timed(expires))), Step(player, second, Give(id, p, mode))];
    var gs, a, b := s.artifacts[id].grants, Grant(p, Timed(expires), first, player), Grant(p, mode, second, player);
    assert After(s, steps, 0) == s;
    assert !HasLiveGrant(gs, p, first) && !HasLiveGrant(gs + [a], p, second);
    var one, two := After(s, steps, 1), After(s, steps, 2);
    assert one.artifacts[id].grants == gs + [a];
    var both := two.artifacts[id].grants;
    assert both == gs + [a] + [b];
    assert both[|gs|] == a && both[|gs| + 1] == b && a.Live(t) && b.Live(t);
  }

  // ---------------------------------------------------------------------
  // Revoking
  // ---------------------------------------------------------------------

  ghost predicate HasPermanent(gs: seq<Grant>, p: PlayerId) { exists g :: g in gs && g.grantee == p && g.mode.Permanent? }

  /** revoke_access looks at the grantee's first grant only: it removes a permanent grant exactly when that first grant
      is not permanent and a later one is. */
  lemma RevokeRemovesPermanentExactly(s: Store, player: PlayerId, id: ArtifactId, grantee: PlayerId)
    requires Refusal(s, player, id).None?
    ensures var gs := s.artifacts[id].grants;
            var (r, reply) := RevokeAccess(s, player, id, grantee);
            && id in r.artifacts
            && ((HasPermanent(gs, grantee) && !HasPermanent(r.artifacts[id].grants, grantee)) <==>
                  HasPermanent(gs, grantee) && !FirstGrant(gs, grantee).value.mode.Permanent?)
            && (reply.Ok? ==> forall g :: g in r.artifacts[id].grants <==> g in gs && g.grantee != grantee)
  {
    var gs := s.artifacts[id].grants;
    WithoutMembers(gs, grantee);
    var (r, reply) := RevokeAccess(s, player, id, grantee);
    if FirstGrant(gs, grantee).Some? {
      var f := FirstGrant(gs, grantee).value;
      assert f.mode.Permanent? ==> HasPermanent(gs, grantee);
    }
  }

  lemma {:induction false} FirstIsFirst(gs: seq<Grant>, p: PlayerId) returns (k: nat)
    requires FirstGrant(gs, p).Some?
    ensures k < |gs| && gs[k] == FirstGrant(gs, p).value && forall i :: 0 <= i < k ==> gs[i].grantee != p
  {
    if gs[0].grantee == p {
      k := 0;
    } else {
      k := FirstIsFirst(gs[1..], p);
      k := k + 1;
    }
  }

  /** In states with at most one live grant per grantee, that first grant can only be a timed one that has expired. */
  lemma OnlyExpiredTimedHidesPermanent(gs: seq<Grant>, p: PlayerId, now: int)
    requires OneLivePerGrantee(gs, now) && HasPermanent(gs, p)
    ensures FirstGrant(gs, p).Some?
    ensures var f := FirstGrant(gs, p).value; f.mode.Permanent? || (f.mode.Timed? && f.mode.expiresAt <= now)
  {
    var k := FirstIsFirst(gs, p);
    var g :| g in gs && g.grantee == p && g.mode.Permanent?;
    var j :| 0 <= j < |gs| && gs[j] == g;
  }

  lemma {:induction false} FirstOfAppend(gs: seq<Grant>, p: PlayerId, more: seq<Grant>)
    requires FirstGrant(gs, p).None? && more != [] && more[0].grantee == p
    ensures FirstGrant(gs + more, p) == Some(more[0])
  {
    if gs == [] {
      assert gs + more == more;
    } else {
      assert gs[0] in gs && (gs + more)[1..] == gs[1..] + more;
      FirstOfAppend(gs[1..], p, more);
    }
  }

  /** The case arises on every active artifact, for every grantee without a grant: let a timed grant expire, grant
      permanently, and the permanent grant can be revoked. */
  lemma PermanentCanBeRevoked(s: Store, player: PlayerId, id: ArtifactId, p: PlayerId, t: int, expires: int, now: int)
    requires Refusal(s, player, id).None? && FirstGrant(s.artifacts[id].grants, p).None? && expires <= now
    ensures var (timed, r1) := GrantAccess(s, player, id, p, Timed(expires), t);
            var (both, r2) := GrantAccess(timed, player, id, p, Permanent, now);
            var (revoked, r3) := RevokeAccess(both, player, id, p);
            && r1.Ok? && r2.Ok? && r3.Ok? && id in both.artifacts && id in revoked.artifacts
            && HasPermanent(both.artifacts[id].grants, p) && !HasPermanent(revoked.artifacts[id].grants, p)
  {
    hide FirstGrant, WithoutGrantee;
    var gs, a, b := s.artifacts[id].grants, Grant(p, Timed(expires), t, player), Grant(p, Permanent, now, player);
    assert !HasLiveGrant(gs, p, t);
    assert !HasLiveGrant(gs + [a], p, now);
    FirstOfAppend(gs, p, [a, b]);
    assert gs + [a] + [b] == gs + [a, b];
    var both := gs + [a] + [b];
    assert both[|gs| + 1] == b && HasPermanent(both, p);
    WithoutMembers(both, p);
  }

  // ---------------------------------------------------------------------
  // Frozen artifacts
  // ---------------------------------------------------------------------

  /** grant, revoke, recall and transfer calls, on any artifacts by any players. */
  predicate VaultCall(call: Call) { call.Give? || call.Revoke? || call.RecallIt? || call.HandOn? }

  lemma FrozenByOne(s: Store, step: Step, id: ArtifactId)
    requires id in s.artifacts && !s.artifacts[id].status.Active? && VaultCall(step.call)
    ensures id in Do(s, step).0.artifacts && Do(s, step).0.artifacts[id] == s.artifacts[id]
    ensures step.call.id == id ==> Do(s, step).1.Err?
  {
    hide HasLiveGrant, FirstGrant, WithoutGrantee;
  }

  /** Once an artifact is recalled or transferred, no run of these calls changes anything about it. */
  lemma {:induction false} InactiveIsFrozen(s: Store, steps: seq<Step>, k: nat, id: ArtifactId)
    requires id in s.artifacts && !s.artifacts[id].status.Active? && k <= |steps|
    requires forall i :: 0 <= i < |steps| ==> VaultCall(steps[i].call)
    ensures id in After(s, steps, k).artifacts && After(s, steps, k).artifacts[id] == s.artifacts[id]
  {
    hide Do;
    if k > 0 {
      InactiveIsFrozen(s, steps, k - 1, id);
      FrozenByOne(After(s, steps, k - 1), steps[k-1], id);
    }
  }

  /** Every check of complete, before anything changes. */
  predicate Completable(s: Store, x: ArtifactId) {
    && x in s.artifacts && !Closed(s.artifacts[x]) && Sides(s, x).Some?
    && Accepted(s.artifacts[x], s.artifacts[Sides(s, x).value.0].steward)
    && Accepted(s.artifacts[x], s.artifacts[Sides(s, x).value.1].steward)
  }

  /** The call completes an exchange that moves this artifact between two different stewards. */
  predicate Moves(s: Store, call: Call, id: ArtifactId) {
    && call.Complete? && Completable(s, call.id)
    && var (o, q) := Sides(s, call.id).value;
       (id == o || id == q) && s.artifacts[o].steward != s.artifacts[q].steward
  }

  ghost predicate SameStanding(a: Artifact, b: Artifact) { a.steward == b.steward && a.status == b.status && a.grants == b.grants }

  lemma CompleteKeepsStanding(s: Store, x: ArtifactId, t: int, id: ArtifactId)
    requires id in s.artifacts
    ensures var r := CompleteExchange(s, x, t).0;
            && id in r.artifacts && r.artifacts[id].status == s.artifacts[id].status && r.artifacts[id].grants == s.artifacts[id].grants
            && (r.artifacts[id].steward == s.artifacts[id].steward <==> !Moves(s, Complete(x), id))
  {
    hide InRole, Accepted, HandTo, Closed;
    if CompleteExchange(s, x, t).1.Ok? {
      var (o, q) := Sides(s, x).value;
      var a, b := s.artifacts[o].steward, s.artifacts[q].steward;
      HandedSteward(s, o, a, b, t);
      HandedSteward(HandTo(s, o, a, b, t), q, b, a, t);
    }
  }

  /** Over all operations: the steward, status and grants of a recalled or transferred artifact stay if and only if the
      call does not place it anew and does not complete an exchange of it between two stewards, because complete never
      looks at the status. */
  lemma InactiveStaysExactly(s: Store, step: Step, id: ArtifactId)
    requires id in s.artifacts && !s.artifacts[id].status.Active?
    ensures id in Do(s, step).0.artifacts
    ensures SameStanding(s.artifacts[id], Do(s, step).0.artifacts[id]) <==> !Places(step.call, id) && !Moves(s, step.call, id)
  {
    hide HasLiveGrant, FirstGrant, WithoutGrantee, Closed, Sides, Accepted, CompleteExchange;
    if step.call.Complete? { CompleteKeepsStanding(s, step.call.id, step.now, id); }
  }

  // ---------------------------------------------------------------------
  // Stewardship histories
  // ---------------------------------------------------------------------

  ghost predicate Linked(h: seq<Handover>) { forall i :: 0 <= i < |h| - 1 ==> h[i].to == h[i+1].from }

  /** The history is a linked chain that ends at the steward. */
  ghost predicate ChainOk(s: Store, id: ArtifactId) {
    && Linked(HistoryOf(s, id))
    && (id in s.artifacts && HistoryOf(s, id) != [] ==> HistoryOf(s, id)[|HistoryOf(s, id)|-1].to == s.artifacts[id].steward)
  }

  lemma HandKeepsChain(s: Store, x: ArtifactId, to: PlayerId, t: int, id: ArtifactId)
    requires x in s.artifacts && ChainOk(s, id)
    ensures ChainOk(HandTo(s, x, s.artifacts[x].steward, to, t), id)
  {
  }

  lemma SameStewardKeepsChain(s: Store, r: Store, id: ArtifactId)
    requires ChainOk(s, id) && r.history == s.history
    requires id in r.artifacts ==> id in s.artifacts && r.artifacts[id].steward == s.artifacts[id].steward
    ensures ChainOk(r, id)
  {
  }

  lemma CompleteKeepsChain(s: Store, x: ArtifactId, t: int, id: ArtifactId)
    requires ChainOk(s, id)
    ensures ChainOk(CompleteExchange(s, x, t).0, id)
  {
    hide Closed, Accepted, InRole, ChainOk, HandTo;
    if CompleteExchange(s, x, t).1.Ok? {
      var (o, r) := Sides(s, x).value;
      var offerer, requester := s.artifacts[o].steward, s.artifacts[r].steward;
      var once := HandTo(s, o, offerer, requester, t);
      HandKeepsChain(s, o, requester, t, id);
      HandedSteward(s, o, offerer, requester, t);
      var both := HandTo(once, r, requester, offerer, t);
      HandKeepsChain(once, r, offerer, t, id);
      HandedSteward(once, r, requester, offerer, t);
      SameStewardKeepsChain(both, CompleteExchange(s, x, t).0, id);
    }
  }

  lemma HandedSteward(s: Store, x: ArtifactId, from: PlayerId, to: PlayerId, t: int)
    requires x in s.artifacts
    ensures var r := HandTo(s, x, from, to, t);
            && r.artifacts.Keys == s.artifacts.Keys && r.artifacts[x] == s.artifacts[x].(steward := to)
            && forall y :: y in s.artifacts && y != x ==> r.artifacts[y] == s.artifacts[y]
  {
  }

  /** Every call keeps the chain of every artifact, except that placing an artifact anew keeps it exactly when its
      history is empty or ends at the player who places it. */
  lemma ChainsAreKeptExactly(s: Store, step: Step, id: ArtifactId)
    requires ChainOk(s, id)
    ensures ChainOk(Do(s, step).0, id) <==>
              Places(step.call, id) ==> HistoryOf(s, id) == [] || HistoryOf(s, id)[|HistoryOf(s, id)|-1].to == step.player
  {
    if step.call.Complete? {
      CompleteKeepsChain(s, step.call.id, step.now, id);
    } else if step.call.HandOn? {
      if Do(s, step).1.Ok? {
        var handed := HandTo(s, step.call.id, s.artifacts[step.call.id].steward, step.call.to, step.now);
        HandKeepsChain(s, step.call.id, step.call.to, step.now, id);
        SameStewardKeepsChain(handed, Do(s, step).0, id);
      }
    } else if !step.call.Leaf? && !step.call.Tree? {
      SimpleCalls(s, step, id);
      SameStewardKeepsChain(s, Do(s, step).0, id);
    }
  }

  lemma SimpleCalls(s: Store, step: Step, id: ArtifactId)
    requires !step.call.Leaf? && !step.call.Tree? && !step.call.HandOn? && !step.call.Complete?
    ensures Do(s, step).0.history == s.history
    ensures id in Do(s, step).0.artifacts ==> id in s.artifacts && Do(s, step).0.artifacts[id].steward == s.artifacts[id].steward
  {
    hide HasLiveGrant, FirstGrant, WithoutGrantee, Closed;
  }

  /** Over any run that does not place the artifact anew, its history stays a linked chain ending at its steward. */
  lemma {:induction false} HistoryIsAChain(s: Store, steps: seq<Step>, k: nat, id: ArtifactId)
    requires ChainOk(s, id) && k <= |steps| && forall i :: 0 <= i < |steps| ==> !Places(steps[i].call, id)
    ensures ChainOk(After(s, steps, k), id)
  {
    hide ChainOk, Do, Places;
    if k > 0 {
      HistoryIsAChain(s, steps, k - 1, id);
      ChainsAreKeptExactly(After(s, steps, k - 1), steps[k-1], id);
    }
  }

  // ---------------------------------------------------------------------
  // Exchanges
  // ---------------------------------------------------------------------

  predicate ExchangeCall(call: Call) { call.Accept? || call.Reject? || call.Complete? }

  predicate IsClosed(s: Store, x: ArtifactId) { x in s.artifacts && Closed(s.artifacts[x]) }

  /** Success swaps the stewards of the two sides and touches nobody else's; both stewards had accepted. */
  lemma CompleteSwapsStewards(s: Store, x: ArtifactId, t: int)
    requires CompleteExchange(s, x, t).1.Ok?
    ensures x in s.artifacts && !Closed(s.artifacts[x]) && Sides(s, x).Some?
    ensures var (o, q) := Sides(s, x).value;
            var (a, b) := (s.artifacts[o].steward, s.artifacts[q].steward);
            var r := CompleteExchange(s, x, t).0;
            && Accepted(s.artifacts[x], a) && Accepted(s.artifacts[x], b)
            && r.artifacts.Keys == s.artifacts.Keys && IsClosed(r, x)
            && (forall id :: id in s.artifacts ==>
                  r.artifacts[id].steward == if id == o then b else if id == q then a else s.artifacts[id].steward)
  {
    hide InRole, Accepted, HandTo;
    var (o, q) := Sides(s, x).value;
    var a, b := s.artifacts[o].steward, s.artifacts[q].steward;
    HandedSteward(s, o, a, b, t);
    HandedSteward(HandTo(s, o, a, b, t), q, b, a, t);
  }

  lemma CompleteKeepsClosed(s: Store, y: ArtifactId, t: int, x: ArtifactId)
    requires IsClosed(s, x)
    ensures IsClosed(CompleteExchange(s, y, t).0, x)
  {
    hide InRole, Accepted, HandTo;
    if CompleteExchange(s, y, t).1.Ok? {
      var (o, q) := Sides(s, y).value;
      var a, b := s.artifacts[o].steward, s.artifacts[q].steward;
      HandedSteward(s, o, a, b, t);
      HandedSteward(HandTo(s, o, a, b, t), q, b, a, t);
    }
  }

  lemma ClosedStaysByOne(s: Store, step: Step, x: ArtifactId)
    requires IsClosed(s, x) && ExchangeCall(step.call)
    ensures IsClosed(Do(s, step).0, x)
  {
    if step.call.Complete? { CompleteKeepsClosed(s, step.call.id, step.now, x); }
  }

  /** Closedness is absorbing over every run of accept, reject and complete, of this exchange and of others. */
  lemma {:induction false} ClosedIsAbsorbing(s: Store, steps: seq<Step>, i: nat, k: nat, x: ArtifactId)
    requires i <= k <= |steps| && IsClosed(After(s, steps, i), x)
    requires forall j :: i <= j < k ==> ExchangeCall(steps[j].call)
    ensures IsClosed(After(s, steps, k), x)
    decreases k
  {
    hide Do, IsClosed;
    if k > i {
      ClosedIsAbsorbing(s, steps, i, k - 1, x);
      ClosedStaysByOne(After(s, steps, k - 1), steps[k-1], x);
    }
  }

  /** In a run of exchange calls, an exchange is completed at most once. */
  lemma CompletesAtMostOnce(s: Store, steps: seq<Step>, i: nat, j: nat, x: ArtifactId)
    requires i < j < |steps| && steps[i].call == steps[j].call == Complete(x)
    requires forall k :: i <= k <= j ==> ExchangeCall(steps[k].call)
    requires Do(After(s, steps, i), steps[i]).1.Ok?
    ensures Do(After(s, steps, j), steps[j]).1 == Err(ExchangeClosed)
  {
    hide HandTo, Closed, InRole;
    CompleteSwapsStewards(After(s, steps, i), x, steps[i].now);
    assert After(s, steps, i + 1) == Do(After(s, steps, i), steps[i]).0;
    ClosedIsAbsorbing(s, steps, i + 1, j, x);
  }
}
