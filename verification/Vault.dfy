/** The store, the vault, exchanges and intentions as the code runs them, in place (crates/indras-artifacts/src/store.rs,
    vault.rs, exchange.rs, intention.rs), proved equal to the functions of modules Artifacts and Intentions. */
module Vault {
  import opened Common
  import opened Bytes
  import opened Artifacts
  import opened ArtifactRuns
  import opened Intentions

  class ArtifactStore {
    var artifacts: map<ArtifactId, Artifact>
    var history: map<ArtifactId, seq<Handover>>

    ghost function View(): Store
      reads this
    {
      Store(artifacts, history)
    }

    constructor ()
      ensures View() == Store(map[], map[])
    {
      artifacts, history := map[], map[];
    }

    method Put(id: ArtifactId, a: Artifact)
      modifies this`artifacts
      ensures View() == PutArtifact(old(View()), id, a)
    {
      artifacts := artifacts[id := a];
    }

    method UpdateSteward(id: ArtifactId, to: PlayerId) returns (r: Reply)
      modifies this`artifacts
      ensures r.Ok? <==> id in old(artifacts)
      ensures artifacts == if r.Ok? then old(artifacts)[id := old(artifacts)[id].(steward := to)] else old(artifacts)
    {
      if id !in artifacts {
        return Err(ArtifactNotFound);
      }
      artifacts := artifacts[id := artifacts[id].(steward := to)];
      return Ok(());
    }

    method UpdateStatus(id: ArtifactId, status: Status) returns (r: Reply)
      modifies this`artifacts
      ensures r == if id in old(artifacts) then Ok(()) else Err(ArtifactNotFound)
      ensures artifacts == if r.Ok? then old(artifacts)[id := old(artifacts)[id].(status := status)] else old(artifacts)
    {
      if id !in artifacts {
        return Err(ArtifactNotFound);
      }
      artifacts := artifacts[id := artifacts[id].(status := status)];
      return Ok(());
    }

    method AddGrant(id: ArtifactId, g: Grant) returns (r: Reply)
      modifies this`artifacts
      ensures r == if id in old(artifacts) then Ok(()) else Err(ArtifactNotFound)
      ensures artifacts == if r.Ok? then old(artifacts)[id := old(artifacts)[id].(grants := old(artifacts)[id].grants + [g])] else old(artifacts)
    {
      if id !in artifacts {
        return Err(ArtifactNotFound);
      }
      artifacts := artifacts[id := artifacts[id].(grants := artifacts[id].grants + [g])];
      return Ok(());
    }

    /** Vec::retain: keeps the other grantees' grants in order. */
    method RemoveGrant(id: ArtifactId, p: PlayerId) returns (r: Reply)
      modifies this`artifacts
      ensures r == if id in old(artifacts) then Ok(()) else Err(ArtifactNotFound)
      ensures artifacts == if r.Ok? then old(artifacts)[id := old(artifacts)[id].(grants := WithoutGrantee(old(artifacts)[id].grants, p))] else old(artifacts)
    {
      if id !in artifacts {
        return Err(ArtifactNotFound);
      }
      var gs, kept := artifacts[id].grants, [];
      for i := 0 to |gs|
        invariant kept == WithoutGrantee(gs[..i], p)
      {
        assert gs[..i+1][..i] == gs[..i];
        if gs[i].grantee != p {
          kept := kept + [gs[i]];
        }
      }
      assert gs[..|gs|] == gs;
      artifacts := artifacts[id := artifacts[id].(grants := kept)];
      return Ok(());
    }

    method RemoveReference(id: ArtifactId, child: ArtifactId) returns (r: Reply)
      modifies this`artifacts
      ensures r == if id in old(artifacts) then Ok(()) else Err(ArtifactNotFound)
      ensures artifacts == if r.Ok? then old(artifacts)[id := old(artifacts)[id].(references := WithoutTarget(old(artifacts)[id].references, child))] else old(artifacts)
    {
      if id !in artifacts {
        return Err(ArtifactNotFound);
      }
      var refs, kept := artifacts[id].references, [];
      for i := 0 to |refs|
        invariant kept == WithoutTarget(refs[..i], child)
      {
        assert refs[..i+1][..i] == refs[..i];
        if refs[i].target != child {
          kept := kept + [refs[i]];
        }
      }
      assert refs[..|refs|] == refs;
      artifacts := artifacts[id := artifacts[id].(references := kept)];
      return Ok(());
    }

    method RecordTransfer(id: ArtifactId, record: Handover)
      modifies this`history
      ensures history == old(history)[id := HistoryOf(old(View()), id) + [record]]
    {
      history := history[id := (if id in history then history[id] else []) + [record]];
    }
  }

  class Vault {
    const player: PlayerId
    const store: ArtifactStore

    /** Vault::in_memory: the store holds the vault's own root, under a fresh random name. */
    constructor (player: PlayerId, root: nat, now: int)
      ensures fresh(store) && this.player == player
      ensures store.View() == Artifacts.PlaceTree(Store(map[], map[]), player, Doc(root), [player], now)
    {
      this.player := player;
      store := new ArtifactStore();
      new;
      PlaceTree(Doc(root), [player], now);
    }

    method PlaceLeaf(payload: seq<byte>, now: int) returns (id: ArtifactId)
      modifies store
      ensures id == Blob(payload) && store.View() == Artifacts.PlaceLeaf(old(store.View()), player, payload, now)
    {
      id := Blob(payload);
      store.Put(id, Artifact(player, [Grant(player, Permanent, now, player)], Active, now, [], map[], []));
    }

    method PlaceTree(id: ArtifactId, audience: seq<PlayerId>, now: int)
      modifies store
      ensures store.View() == Artifacts.PlaceTree(old(store.View()), player, id, audience, now)
    {
      var grants := [];
      for i := 0 to |audience|
        invariant grants == AudienceGrants(audience[..i], now, player)
        invariant store.View() == old(store.View())
      {
        grants := grants + [Grant(audience[i], Permanent, now, player)];
      }
      assert audience[..|audience|] == audience;
      store.Put(id, Artifact(player, grants, Active, now, [], map[], []));
    }

    /** require_steward, then require_active. */
    method Require(id: ArtifactId) returns (r: Option<Error>)
      ensures r == Refusal(store.View(), player, id)
    {
      if id !in store.artifacts {
        return Some(ArtifactNotFound);
      }
      if store.artifacts[id].steward != player {
        return Some(NotSteward);
      }
      if !store.artifacts[id].status.Active? {
        return Some(NotActive);
      }
      return None;
    }

    method GrantAccess(id: ArtifactId, grantee: PlayerId, mode: AccessMode, now: int) returns (r: Reply)
      modifies store
      ensures (store.View(), r) == Artifacts.GrantAccess(old(store.View()), player, id, grantee, mode, now)
    {
      var refused := Require(id);
      if refused.Some? {
        return Err(refused.value);
      }
      var gs := store.artifacts[id].grants;
      for i := 0 to |gs|
        invariant store.View() == old(store.View())
        invariant forall j :: 0 <= j < i ==> !(gs[j].grantee == grantee && gs[j].Live(now))
      {
        if gs[i].grantee == grantee && gs[i].Live(now) {
          assert gs[i] in gs;
          return Err(AlreadyGranted);
        }
      }
      r := store.AddGrant(id, Grant(grantee, mode, now, player));
    }

    method RevokeAccess(id: ArtifactId, grantee: PlayerId) returns (r: Reply)
      modifies store
      ensures (store.View(), r) == Artifacts.RevokeAccess(old(store.View()), player, id, grantee)
    {
      var refused := Require(id);
      if refused.Some? {
        return Err(refused.value);
      }
      match FirstGrant(store.artifacts[id].grants, grantee)
      case None =>
        r := Err(ArtifactNotFound);
      case Some(g) =>
        if g.mode.Permanent? {
          r := Err(CannotRevoke);
        } else {
          r := store.RemoveGrant(id, grantee);
        }
    }

    method Recall(id: ArtifactId, now: int) returns (r: Reply)
      modifies store
      ensures (store.View(), r) == Artifacts.Recall(old(store.View()), player, id, now)
    {
      var refused := Require(id);
      if refused.Some? {
        return Err(refused.value);
      }
      r := store.UpdateStatus(id, Recalled(now));
    }

    method TransferStewardship(id: ArtifactId, to: PlayerId, now: int) returns (r: Reply)
      modifies store
      ensures (store.View(), r) == Artifacts.TransferStewardship(old(store.View()), player, id, to, now)
    {
      var refused := Require(id);
      if refused.Some? {
        return Err(refused.value);
      }
      store.RecordTransfer(id, Handover(store.artifacts[id].steward, to, now));
      var _ := store.UpdateSteward(id, to);
      r := store.UpdateStatus(id, Transferred(to, now));
    }

    method RemoveRef(id: ArtifactId, child: ArtifactId) returns (r: Reply)
      modifies store
      ensures (store.View(), r) == Intentions.RemoveRef(old(store.View()), player, id, child)
    {
      if id !in store.artifacts {
        return Err(ArtifactNotFound);
      }
      if store.artifacts[id].steward != player {
        return Err(NotSteward);
      }
      r := store.RemoveReference(id, child);
    }

    /** Get, modify, put. */
    method SetMetadata(id: ArtifactId, key: Key, value: Value)
      requires id in store.artifacts
      modifies store
      ensures store.View() == Annotate(old(store.View()), id, key, value)
    {
      var a := store.artifacts[id];
      a := a.(metadata := a.metadata[key := value]);
      store.Put(id, a);
    }
  }

  // ---------------------------------------------------------------------
  // Exchanges, by the id of their artifact
  // ---------------------------------------------------------------------

  method Accept(vault: Vault, x: ArtifactId) returns (r: Reply)
    modifies vault.store
    ensures (vault.store.View(), r) == AcceptExchange(old(vault.store.View()), vault.player, x)
  {
    if x !in vault.store.artifacts {
      return Err(ArtifactNotFound);
    }
    if Closed(vault.store.artifacts[x]) {
      return Err(ExchangeClosed);
    }
    vault.SetMetadata(x, AcceptedBy(vault.player), Yes);
    return Ok(());
  }

  method Reject(vault: Vault, x: ArtifactId) returns (r: Reply)
    modifies vault.store
    ensures (vault.store.View(), r) == RejectExchange(old(vault.store.View()), vault.player, x)
    ensures r.Ok? ==> IsClosed(vault.store.View(), x)
  {
    if x !in vault.store.artifacts {
      return Err(ArtifactNotFound);
    }
    vault.SetMetadata(x, StatusKey, Rejected);
    vault.SetMetadata(x, RejectedBy(vault.player), Yes);
    return Ok(());
  }

  /** Success closes the exchange and swaps exactly the two stewards. */
  method Complete(vault: Vault, x: ArtifactId, now: int) returns (r: Reply)
    modifies vault.store
    ensures (vault.store.View(), r) == CompleteExchange(old(vault.store.View()), x, now)
    ensures r.Ok? ==> IsClosed(vault.store.View(), x)
  {
    hide InRole, Accepted, Closed;
    ghost var s := vault.store.View();
    if x !in vault.store.artifacts {
      return Err(ArtifactNotFound);
    }
    var exchange := vault.store.artifacts[x];
    if Closed(exchange) {
      return Err(ExchangeClosed);
    }
    var offered, requested := InRole(exchange.references, Offered), InRole(exchange.references, Requested);
    if offered.None? || requested.None? || offered.value !in vault.store.artifacts || requested.value !in vault.store.artifacts {
      return Err(ArtifactNotFound);
    }
    var o, q := offered.value, requested.value;
    var offerer, requester := vault.store.artifacts[o].steward, vault.store.artifacts[q].steward;
    if !Artifacts.Accepted(exchange, offerer) || !Artifacts.Accepted(exchange, requester) {
      return Err(ExchangeNotFullyAccepted);
    }
    vault.store.RecordTransfer(o, Handover(offerer, requester, now));
    var _ := vault.store.UpdateSteward(o, requester);
    assert vault.store.View() == HandTo(s, o, offerer, requester, now);
    vault.store.RecordTransfer(q, Handover(requester, offerer, now));
    var _ := vault.store.UpdateSteward(q, offerer);
    assert vault.store.View() == HandTo(HandTo(s, o, offerer, requester, now), q, requester, offerer, now);
    vault.SetMetadata(x, StatusKey, Completed);
    CompleteSwapsStewards(s, x, now);
    return Ok(());
  }

  // ---------------------------------------------------------------------
  // Intentions
  // ---------------------------------------------------------------------

  method MintToken(vault: Vault, me: ArtifactId, w: Window, now: int) returns (token: ArtifactId)
    modifies vault.store
    ensures token == TokenOf(w) && vault.store.View() == Mint(old(vault.store.View()), vault.player, me, w, now)
  {
    token := vault.PlaceLeaf(I64Bytes(w.duration), now);
    var a := vault.store.artifacts[token];
    a := a.(blessings := a.blessings + [Blessing(vault.player, me, now)]);
    vault.store.Put(token, a);
  }

  method ReleaseWindow(vault: Vault, me: ArtifactId, w: Window, submitter: PlayerId, now: int) returns (r: Result<ArtifactId>)
    modifies vault.store
    ensures (vault.store.View(), r) == ReleaseOne(old(vault.store.View()), vault.player, me, w, submitter, now)
  {
    hide Mint, TransferStewardship;
    var token := MintToken(vault, me, w, now);
    var reply := vault.TransferStewardship(token, submitter, now);
    if reply.Err? {
      return Err(reply.error);
    }
    if me !in vault.store.artifacts {
      return Err(ArtifactNotFound);
    }
    vault.SetMetadata(me, ReleasedAt(vault.player, w.start), ProofOf(submitter));
    return Ok(token);
  }

  method ReleaseAttention(vault: Vault, me: ArtifactId, ws: seq<Window>, submitter: PlayerId, now: int) returns (r: Result<seq<ArtifactId>>)
    modifies vault.store
    ensures (vault.store.View(), r) == Release(old(vault.store.View()), vault.player, me, ws, submitter, now)
  {
    hide ReleaseOne, Release;
    var created: seq<ArtifactId> := [];
    ReleaseStep(vault.store.View(), vault.player, me, ws, submitter, now, 0);
    ghost var whole := Release(vault.store.View(), vault.player, me, ws, submitter, now);
    assert whole.1.Ok? ==> created + whole.1.value == whole.1.value;
    for i := 0 to |ws|
      invariant var rest := Release(vault.store.View(), vault.player, me, ws[i..], submitter, now);
                Release(old(vault.store.View()), vault.player, me, ws, submitter, now) ==
                  (rest.0, if rest.1.Ok? then Ok(created + rest.1.value) else rest.1)
    {
      ReleaseStep(vault.store.View(), vault.player, me, ws, submitter, now, i);
      var one := ReleaseWindow(vault, me, ws[i], submitter, now);
      if one.Err? {
        return Err(one.error);
      }
      ghost var rest := Release(vault.store.View(), vault.player, me, ws[i+1..], submitter, now);
      assert rest.1.Ok? ==> created + ([one.value] + rest.1.value) == (created + [one.value]) + rest.1.value;
      created := created + [one.value];
    }
    ReleaseStep(vault.store.View(), vault.player, me, ws, submitter, now, |ws|);
    assert created + [] == created;
    return Ok(created);
  }

  lemma ReleaseStep(s: Store, player: PlayerId, me: ArtifactId, ws: seq<Window>, submitter: PlayerId, now: int, i: nat)
    requires i <= |ws|
    ensures Release(s, player, me, ws[i..], submitter, now) ==
              if i == |ws| then (s, Ok([]))
              else
                var (t, one) := ReleaseOne(s, player, me, ws[i], submitter, now);
                if one.Err? then (t, Err(one.error))
                else
                  var (u, rest) := Release(t, player, me, ws[i+1..], submitter, now);
                  (u, if rest.Ok? then Ok([one.value] + rest.value) else rest)
    ensures i == 0 ==> ws[i..] == ws
  {
    hide ReleaseOne;
    if i < |ws| { assert ws[i..][1..] == ws[i+1..]; }
  }

  method ReleasePledgedTokens(vault: Vault, me: ArtifactId, tokens: seq<ArtifactId>, submitter: PlayerId, now: int) returns (r: Reply)
    modifies vault.store
    ensures (vault.store.View(), r) == ReleasePledged(old(vault.store.View()), vault.player, me, tokens, submitter, now)
    ensures r.Ok? ==> NoDuplicates(tokens)
  {
    hide TransferStewardship, Intentions.RemoveRef, ReleasePledged, NoDuplicates;
    ghost var s := vault.store.View();
    if ReleasePledged(s, vault.player, me, tokens, submitter, now).1.Ok? {
      PledgesAreReleasedOnce(s, vault.player, me, tokens, submitter, now, me);
    }
    PledgedStep(s, vault.player, me, tokens, submitter, now, 0);
    for i := 0 to |tokens|
      invariant ReleasePledged(vault.store.View(), vault.player, me, tokens[i..], submitter, now)
             == ReleasePledged(s, vault.player, me, tokens, submitter, now)
    {
      PledgedStep(vault.store.View(), vault.player, me, tokens, submitter, now, i);
      r := vault.TransferStewardship(tokens[i], submitter, now);
      if r.Err? {
        return;
      }
      r := vault.RemoveRef(me, tokens[i]);
      if r.Err? {
        return;
      }
    }
    PledgedStep(vault.store.View(), vault.player, me, tokens, submitter, now, |tokens|);
    return Ok(());
  }

  lemma PledgedStep(s: Store, player: PlayerId, me: ArtifactId, tokens: seq<ArtifactId>, submitter: PlayerId, now: int, i: nat)
    requires i <= |tokens|
    ensures ReleasePledged(s, player, me, tokens[i..], submitter, now) ==
              if i == |tokens| then (s, Ok(()))
              else
                var (t, r1) := Artifacts.TransferStewardship(s, player, tokens[i], submitter, now);
                if r1.Err? then (t, r1)
                else
                  var (u, r2) := Intentions.RemoveRef(t, player, me, tokens[i]);
                  if r2.Err? then (u, r2) else ReleasePledged(u, player, me, tokens[i+1..], submitter, now)
    ensures i == 0 ==> tokens[i..] == tokens
  {
    hide Artifacts.TransferStewardship, Intentions.RemoveRef;
    if i < |tokens| { assert tokens[i..][1..] == tokens[i+1..]; }
  }

  /** The windows whose start the intention's metadata does not list, in order. */
  method UnreleasedAttention(vault: Vault, who: PlayerId, me: ArtifactId, all: seq<Window>) returns (r: Result<seq<Window>>)
    ensures r == Unreleased(vault.store.View(), who, me, all)
  {
    if me !in vault.store.artifacts {
      return Err(ArtifactNotFound);
    }
    var metadata := vault.store.artifacts[me].metadata;
    var gone := set k | k in metadata && k.ReleasedAt? && k.who == who :: k.start;
    var kept := [];
    for i := 0 to |all|
      invariant kept == Keep(all[..i], gone)
    {
      assert all[..i+1][..i] == all[..i];
      if all[i].start !in gone {
        kept := kept + [all[i]];
      }
    }
    assert all[..|all|] == all;
    return Ok(kept);
  }
}
