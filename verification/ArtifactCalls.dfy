/** What each single call of the vault and of an exchange does, error cases included, and what a recall and two
    acceptances lead to (crates/indras-artifacts/src/vault.rs, exchange.rs). */
module ArtifactCalls {
  import opened Common
  import opened Artifacts
  import opened ArtifactRuns

  /** Nothing but this artifact differs; no artifact disappears. */
  ghost predicate Only(s: Store, r: Store, id: ArtifactId) {
    && r.artifacts.Keys == s.artifacts.Keys + {id}
    && forall x :: x in s.artifacts && x != id ==> r.artifacts[x] == s.artifacts[x]
  }

  /** Whom require_steward and require_active let pass, and what they tell the others. */
  ghost predicate Guarded(s: Store, player: PlayerId, id: ArtifactId, reply: Reply) {
    && (id !in s.artifacts ==> reply == Err(ArtifactNotFound))
    && (id in s.artifacts && s.artifacts[id].steward != player ==> reply == Err(NotSteward))
    && (id in s.artifacts && s.artifacts[id].steward == player && s.artifacts[id].status != Active ==> reply == Err(NotActive))
  }

  ghost predicate Mine(s: Store, player: PlayerId, id: ArtifactId) {
    id in s.artifacts && s.artifacts[id].steward == player && s.artifacts[id].status == Active
  }

  // ---------------------------------------------------------------------
  // Single calls
  // ---------------------------------------------------------------------

  /** A placed artifact is new in every respect; its placer stewards it. */
  lemma PlacesExactly(s: Store, player: PlayerId, payload: seq<byte>, id: ArtifactId, audience: seq<PlayerId>, now: int)
    ensures var r := PlaceLeaf(s, player, payload, now); var a := r.artifacts[Blob(payload)];
            && Only(s, r, Blob(payload)) && r.history == s.history
            && a.steward == player && a.status == Active && a.createdAt == now && a.references == [] && a.metadata == map[]
            && a.grants == [Grant(player, Permanent, now, player)]
    ensures var r := PlaceTree(s, player, id, audience, now); var a := r.artifacts[id];
            && Only(s, r, id) && r.history == s.history
            && a.steward == player && a.status == Active && a.createdAt == now && a.references == [] && a.metadata == map[]
            && |a.grants| == |audience| && forall i :: 0 <= i < |audience| ==> a.grants[i] == Grant(audience[i], Permanent, now, player)
  {
  }

  /** A grant is refused while another one of the grantee is live, and otherwise appended. */
  lemma GrantsExactly(s: Store, player: PlayerId, id: ArtifactId, grantee: PlayerId, mode: AccessMode, now: int)
    ensures var (r, reply) := GrantAccess(s, player, id, grantee, mode, now);
            && Guarded(s, player, id, reply) && (reply.Err? ==> r == s)
            && (Mine(s, player, id) ==>
                  var a := s.artifacts[id];
                  && (reply == Err(AlreadyGranted) <==>
                        exists g :: g in a.grants && g.grantee == grantee && (g.mode.Timed? ==> now < g.mode.expiresAt))
                  && (reply != Err(AlreadyGranted) ==>
                        && reply == Ok(()) && Only(s, r, id) && r.history == s.history
                        && r.artifacts[id] == a.(grants := a.grants + [Grant(grantee, mode, now, player)])))
  {
  }

  function OthersThan(p: PlayerId): Grant -> bool { (g: Grant) => g.grantee != p }

  lemma {:induction false} WithoutIsFiltered(gs: seq<Grant>, p: PlayerId)
    ensures Filters(gs, WithoutGrantee(gs, p), OthersThan(p))
  {
    hide Filters;
    if gs == [] {
      FiltersNothing(OthersThan(p));
    } else {
      var n := |gs| - 1;
      WithoutIsFiltered(gs[..n], p);
      FiltersOneMore(gs[..n], WithoutGrantee(gs[..n], p), gs[n], OthersThan(p));
      assert gs == gs[..n] + [gs[n]];
      assert WithoutGrantee(gs[..n], p) + [] == WithoutGrantee(gs[..n], p);
    }
  }

  /** The first grant of p is permanent. */
  ghost predicate StartsPermanent(gs: seq<Grant>, p: PlayerId) {
    exists i :: 0 <= i < |gs| && gs[i].grantee == p && gs[i].mode == Permanent && forall j :: 0 <= j < i ==> gs[j].grantee != p
  }

  lemma FirstGrantExactly(gs: seq<Grant>, p: PlayerId)
    ensures FirstGrant(gs, p).None? <==> forall g :: g in gs ==> g.grantee != p
    ensures FirstGrant(gs, p).None? ==> !StartsPermanent(gs, p)
    ensures FirstGrant(gs, p).Some? ==> (FirstGrant(gs, p).value.mode == Permanent <==> StartsPermanent(gs, p))
  {
    hide FirstGrant;
    if FirstGrant(gs, p).Some? {
      var k := FirstIsFirst(gs, p);
      if StartsPermanent(gs, p) {
        var i :| 0 <= i < |gs| && gs[i].grantee == p && gs[i].mode == Permanent && forall j :: 0 <= j < i ==> gs[j].grantee != p;
        assert i == k;
      }
    }
  }

  /** A revocation needs a grant, is refused when the first one is permanent, and otherwise removes exactly the grantee's
      grants, keeping the order of the others. */
  lemma RevokesExactly(s: Store, player: PlayerId, id: ArtifactId, grantee: PlayerId)
    ensures var (r, reply) := RevokeAccess(s, player, id, grantee);
            && Guarded(s, player, id, reply) && (reply.Err? ==> r == s)
            && (Mine(s, player, id) ==>
                  var a := s.artifacts[id];
                  && (reply == Err(ArtifactNotFound) <==> forall g :: g in a.grants ==> g.grantee != grantee)
                  && (reply == Err(CannotRevoke) <==> StartsPermanent(a.grants, grantee))
                  && (reply == Ok(()) <==> reply != Err(ArtifactNotFound) && reply != Err(CannotRevoke))
                  && (reply.Ok? ==>
                        && Only(s, r, id) && r.history == s.history
                        && r.artifacts[id] == a.(grants := r.artifacts[id].grants)
                        && Filters(a.grants, r.artifacts[id].grants, OthersThan(grantee))))
  {
    hide FirstGrant, WithoutGrantee, Filters, StartsPermanent;
    if Mine(s, player, id) {
      FirstGrantExactly(s.artifacts[id].grants, grantee);
      WithoutIsFiltered(s.artifacts[id].grants, grantee);
    }
  }

  /** recall succeeds exactly for the steward of an active artifact and changes its status only. */
  lemma RecallsExactly(s: Store, player: PlayerId, id: ArtifactId, now: int)
    ensures var (r, reply) := Recall(s, player, id, now);
            && Guarded(s, player, id, reply) && (reply == Ok(()) <==> Mine(s, player, id)) && (reply.Err? ==> r == s)
            && (reply.Ok? ==>
                  && Only(s, r, id) && r.history == s.history
                  && r.artifacts[id] == s.artifacts[id].(status := Recalled(now)))
  {
  }

  /** A transfer changes steward and status together and leaves one record of it. */
  lemma TransfersExactly(s: Store, player: PlayerId, id: ArtifactId, to: PlayerId, now: int)
    ensures var (r, reply) := TransferStewardship(s, player, id, to, now);
            && Guarded(s, player, id, reply) && (reply == Ok(()) <==> Mine(s, player, id)) && (reply.Err? ==> r == s)
            && (reply.Ok? ==>
                  && Only(s, r, id)
                  && r.artifacts[id] == s.artifacts[id].(steward := to, status := Transferred(to, now))
                  && HistoryOf(r, id) == HistoryOf(s, id) + [Handover(player, to, now)]
                  && forall x :: x != id ==> HistoryOf(r, x) == HistoryOf(s, x))
  {
  }

  // ---------------------------------------------------------------------
  // A recall is final
  // ---------------------------------------------------------------------

  lemma InactiveRefuses(s: Store, step: Step, id: ArtifactId)
    requires id in s.artifacts && s.artifacts[id].status != Active && VaultCall(step.call) && step.call.id == id
    ensures Do(s, step) == (s, Err(if step.player == s.artifacts[id].steward then NotActive else NotSteward))
  {
    hide HasLiveGrant, FirstGrant, WithoutGrantee;
  }

  /** No step places the artifact anew or completes an exchange that moves it. */
  ghost predicate LeavesAlone(s: Store, steps: seq<Step>, id: ArtifactId) {
    forall i :: 0 <= i < |steps| ==> !Places(steps[i].call, id) && !Moves(After(s, steps, i), steps[i].call, id)
  }

  lemma {:induction false} InactiveStaysOverRuns(s: Store, steps: seq<Step>, k: nat, id: ArtifactId)
    requires id in s.artifacts && s.artifacts[id].status != Active && k <= |steps| && LeavesAlone(s, steps, id)
    ensures id in After(s, steps, k).artifacts && SameStanding(s.artifacts[id], After(s, steps, k).artifacts[id])
  {
    hide Do, Places, Moves;
    if k > 0 {
      InactiveStaysOverRuns(s, steps, k - 1, id);
      InactiveStaysExactly(After(s, steps, k - 1), steps[k-1], id);
    }
  }

  /** After a successful recall, over every run that neither places the artifact anew nor completes an exchange that moves
      it: it stays recalled, with the same steward and grants, and every grant, revocation, recall or transfer of it is
      refused, its steward being told that it is not active. */
  lemma RecallIsFinal(s: Store, player: PlayerId, id: ArtifactId, now: int, steps: seq<Step>, k: nat)
    requires Recall(s, player, id, now).1 == Ok(()) && k <= |steps| && LeavesAlone(Recall(s, player, id, now).0, steps, id)
    ensures var at := After(Recall(s, player, id, now).0, steps, k);
            && id in s.artifacts && id in at.artifacts && at.artifacts[id].status == Recalled(now)
            && at.artifacts[id].steward == player && at.artifacts[id].grants == s.artifacts[id].grants
            && (k < |steps| && VaultCall(steps[k].call) && steps[k].call.id == id ==>
                  Do(at, steps[k]) == (at, Err(if steps[k].player == player then NotActive else NotSteward)))
  {
    hide After, Do, LeavesAlone;
    var r := Recall(s, player, id, now).0;
    RecallsExactly(s, player, id, now);
    InactiveStaysOverRuns(r, steps, k, id);
    var at := After(r, steps, k);
    if k < |steps| && VaultCall(steps[k].call) && steps[k].call.id == id { InactiveRefuses(at, steps[k], id); }
  }

  // ---------------------------------------------------------------------
  // Exchanges
  // ---------------------------------------------------------------------

  ghost predicate OpenExchange(s: Store, x: ArtifactId) {
    && x in s.artifacts
    && (StatusKey in s.artifacts[x].metadata ==>
          s.artifacts[x].metadata[StatusKey] != Rejected && s.artifacts[x].metadata[StatusKey] != Completed)
  }

  ghost predicate ClosedExchange(s: Store, x: ArtifactId) { x in s.artifacts && !OpenExchange(s, x) }

  /** accept adds exactly this player's acceptance to an open exchange. */
  lemma AcceptsExactly(s: Store, player: PlayerId, x: ArtifactId)
    ensures var (r, reply) := AcceptExchange(s, player, x);
            && (reply == Ok(()) <==> OpenExchange(s, x)) && (reply.Err? ==> r == s)
            && (x !in s.artifacts <==> reply == Err(ArtifactNotFound)) && (ClosedExchange(s, x) <==> reply == Err(ExchangeClosed))
            && (reply.Ok? ==>
                  && Only(s, r, x) && r.history == s.history
                  && r.artifacts[x] == s.artifacts[x].(metadata := r.artifacts[x].metadata)
                  && (forall k :: k in r.artifacts[x].metadata <==> k in s.artifacts[x].metadata || k == AcceptedBy(player))
                  && (forall k :: k in s.artifacts[x].metadata && k != AcceptedBy(player) ==>
                        r.artifacts[x].metadata[k] == s.artifacts[x].metadata[k]))
  {
  }

  /** reject closes any exchange and records who rejected it. */
  lemma RejectsExactly(s: Store, player: PlayerId, x: ArtifactId)
    ensures var (r, reply) := RejectExchange(s, player, x);
            && (reply == Ok(()) <==> x in s.artifacts) && (reply.Err? ==> r == s && reply == Err(ArtifactNotFound))
            && (reply.Ok? ==>
                  && Only(s, r, x) && r.history == s.history && ClosedExchange(r, x)
                  && r.artifacts[x] == s.artifacts[x].(metadata := r.artifacts[x].metadata)
                  && RejectedBy(player) in r.artifacts[x].metadata
                  && (forall k :: k != StatusKey && k != RejectedBy(player) ==>
                        && (k in r.artifacts[x].metadata <==> k in s.artifacts[x].metadata)
                        && (k in s.artifacts[x].metadata ==> r.artifacts[x].metadata[k] == s.artifacts[x].metadata[k])))
  {
  }

  /** o and q are the first references in their roles, and both artifacts exist. */
  ghost predicate Between(s: Store, x: ArtifactId, o: ArtifactId, q: ArtifactId) {
    && x in s.artifacts && o in s.artifacts && q in s.artifacts
    && FirstRef(s.artifacts[x].references, Offered, o) && FirstRef(s.artifacts[x].references, Requested, q)
  }

  ghost predicate FirstRef(refs: seq<Ref>, role: Role, id: ArtifactId) {
    exists i :: 0 <= i < |refs| && refs[i].role == Some(role) && refs[i].target == id && forall j :: 0 <= j < i ==> refs[j].role != Some(role)
  }

  lemma {:induction false} InRoleIsFirst(refs: seq<Ref>, role: Role) returns (k: nat)
    ensures InRole(refs, role).None? ==> forall i :: 0 <= i < |refs| ==> refs[i].role != Some(role)
    ensures InRole(refs, role).Some? ==>
              && k < |refs| && refs[k].role == Some(role) && refs[k].target == InRole(refs, role).value
              && forall j :: 0 <= j < k ==> refs[j].role != Some(role)
  {
    k := 0;
    if refs != [] && refs[0].role != Some(role) {
      var i := InRoleIsFirst(refs[1..], role);
      k := i + 1;
      assert forall j :: 0 < j < |refs| ==> refs[j] == refs[1..][j-1];
    }
  }

  lemma InRoleExactly(refs: seq<Ref>, role: Role, id: ArtifactId)
    ensures InRole(refs, role) == Some(id) <==> FirstRef(refs, role, id)
  {
    hide InRole;
    var k := InRoleIsFirst(refs, role);
    if FirstRef(refs, role, id) {
      var i :| 0 <= i < |refs| && refs[i].role == Some(role) && refs[i].target == id && forall j :: 0 <= j < i ==> refs[j].role != Some(role);
      assert InRole(refs, role).Some? && i == k;
    }
  }

  lemma SidesExactly(s: Store, x: ArtifactId, o: ArtifactId, q: ArtifactId)
    requires x in s.artifacts
    ensures Sides(s, x) == Some((o, q)) <==> Between(s, x, o, q)
  {
    hide InRole, FirstRef;
    InRoleExactly(s.artifacts[x].references, Offered, o);
    InRoleExactly(s.artifacts[x].references, Requested, q);
  }

  /** complete succeeds exactly on an open exchange between two existing artifacts whose stewards have both accepted. */
  lemma CompletesExactly(s: Store, x: ArtifactId, now: int, o: ArtifactId, q: ArtifactId)
    requires Between(s, x, o, q)
    ensures var (r, reply) := CompleteExchange(s, x, now); var (a, b) := (s.artifacts[o].steward, s.artifacts[q].steward);
            && (ClosedExchange(s, x) <==> reply == Err(ExchangeClosed))
            && (reply == Ok(()) <==>
                  OpenExchange(s, x) && AcceptedBy(a) in s.artifacts[x].metadata && AcceptedBy(b) in s.artifacts[x].metadata)
            && (reply.Err? ==> r == s && (reply == Err(ExchangeClosed) || reply == Err(ExchangeNotFullyAccepted)))
            && (reply.Ok? && o != q ==>
                  && HistoryOf(r, o) == HistoryOf(s, o) + [Handover(a, b, now)]
                  && HistoryOf(r, q) == HistoryOf(s, q) + [Handover(b, a, now)]
                  && forall y :: y != o && y != q ==> HistoryOf(r, y) == HistoryOf(s, y))
  {
    SidesExactly(s, x, o, q);
    hide Sides, Between;
  }

  ghost predicate SameStewards(s: Store, r: Store) {
    r.artifacts.Keys == s.artifacts.Keys && forall id :: id in s.artifacts ==> r.artifacts[id].steward == s.artifacts[id].steward
  }

  lemma AcceptedTwice(s: Store, x: ArtifactId, o: ArtifactId, q: ArtifactId, first: PlayerId, second: PlayerId)
    requires OpenExchange(s, x) && Between(s, x, o, q)
    ensures var one := AcceptExchange(s, first, x); var two := AcceptExchange(one.0, second, x);
            && one.1 == Ok(()) && two.1 == Ok(()) && OpenExchange(two.0, x) && Between(two.0, x, o, q) && SameStewards(s, two.0)
            && AcceptedBy(first) in two.0.artifacts[x].metadata && AcceptedBy(second) in two.0.artifacts[x].metadata
  {
    hide AcceptExchange, Between;
    AcceptsExactly(s, first, x);
    var one := AcceptExchange(s, first, x).0;
    StillBetween(s, one, x, o, q);
    AcceptsExactly(one, second, x);
    StillBetween(one, AcceptExchange(one, second, x).0, x, o, q);
  }

  /** On any open exchange, an acceptance by each of the two stewards, in either order and whatever was accepted before,
      lets the next complete swap them. */
  lemma TwoAcceptancesComplete(s: Store, x: ArtifactId, o: ArtifactId, q: ArtifactId, offererFirst: bool, now: int)
    requires OpenExchange(s, x) && Between(s, x, o, q)
    ensures var (a, b) := (s.artifacts[o].steward, s.artifacts[q].steward);
            var one := AcceptExchange(s, if offererFirst then a else b, x);
            var two := AcceptExchange(one.0, if offererFirst then b else a, x);
            var (r, reply) := CompleteExchange(two.0, x, now);
            && one.1 == Ok(()) && two.1 == Ok(()) && reply == Ok(()) && ClosedExchange(r, x) && Swapped(s, r, o, q)
  {
    hide AcceptExchange, CompleteExchange, OpenExchange, FirstRef, Sides;
    var a, b := s.artifacts[o].steward, s.artifacts[q].steward;
    var first, second := if offererFirst then a else b, if offererFirst then b else a;
    AcceptedTwice(s, x, o, q, first, second);
    var two := AcceptExchange(AcceptExchange(s, first, x).0, second, x).0;
    CompletesExactly(two, x, now, o, q);
    CompletedSwaps(two, x, o, q, now);
  }

  /** The stewards of o and q have changed places, all others are the same. */
  ghost predicate Swapped(s: Store, r: Store, o: ArtifactId, q: ArtifactId)
    requires o in s.artifacts && q in s.artifacts
  {
    && r.artifacts.Keys == s.artifacts.Keys
    && r.artifacts[o].steward == s.artifacts[q].steward && r.artifacts[q].steward == s.artifacts[o].steward
    && forall id :: id in s.artifacts && id != o && id != q ==> r.artifacts[id].steward == s.artifacts[id].steward
  }

  lemma CompletedSwaps(s: Store, x: ArtifactId, o: ArtifactId, q: ArtifactId, now: int)
    requires Between(s, x, o, q) && CompleteExchange(s, x, now).1 == Ok(())
    ensures ClosedExchange(CompleteExchange(s, x, now).0, x) && Swapped(s, CompleteExchange(s, x, now).0, o, q)
  {
    hide CompleteExchange, FirstRef, Sides, Accepted;
    SidesExactly(s, x, o, q);
    CompleteSwapsStewards(s, x, now);
  }

  lemma StillBetween(s: Store, r: Store, x: ArtifactId, o: ArtifactId, q: ArtifactId)
    requires Between(s, x, o, q) && Only(s, r, x) && r.artifacts[x] == s.artifacts[x].(metadata := r.artifacts[x].metadata)
    ensures Between(r, x, o, q) && SameStewards(s, r)
  {
    hide FirstRef;
  }
}
