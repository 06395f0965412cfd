/** Artifacts, access grants and the artifact store (crates/indras-artifacts/src/artifact.rs, access.rs, store.rs),
    and the vault operations as functions on store values (vault.rs). */
module Artifacts {
  import opened Common

  type PlayerId = nat

  /** A leaf is named by the BLAKE3 hash of its content; the hash is taken to be injective, so the content itself
      stands for it. */
  datatype ArtifactId = Blob(content: seq<byte>) | Doc(name: nat)

  datatype AccessMode = Public | Revocable | Permanent | Timed(expiresAt: int) | Transfer {
    predicate IsExpired(now: int) { Timed? && now >= expiresAt }
  }

  datatype Grant = Grant(grantee: PlayerId, mode: AccessMode, grantedAt: int, grantedBy: PlayerId) {
    predicate Live(now: int) { !mode.IsExpired(now) }
  }

  datatype Status = Active | Recalled(recalledAt: int) | Transferred(to: PlayerId, transferredAt: int)

  /** Metadata keys and values, parsed. */
  datatype Key = StatusKey | AcceptedBy(who: PlayerId) | RejectedBy(who: PlayerId) | ReleasedAt(who: PlayerId, start: int)

  datatype Value = OpenState | Fulfilled | Rejected | Completed | Yes | ProofOf(who: PlayerId)

  datatype Role = Offered | Requested | Conversation | Other(text: string)

  datatype Ref = Ref(target: ArtifactId, position: nat, role: Option<Role>)

  datatype Blessing = Blessing(from: PlayerId, quest: ArtifactId, at: int)

  datatype Artifact = Artifact(
    steward: PlayerId, grants: seq<Grant>, status: Status, createdAt: int, references: seq<Ref>,
    metadata: map<Key, Value>, blessings: seq<Blessing>)

  /** One change of steward. */
  datatype Handover = Handover(from: PlayerId, to: PlayerId, at: int)

  datatype Store = Store(artifacts: map<ArtifactId, Artifact>, history: map<ArtifactId, seq<Handover>>)

  datatype Error =
    NotSteward | ArtifactNotFound | NotActive | AlreadyGranted | CannotRevoke | ExchangeClosed | ExchangeNotFullyAccepted

  datatype Result<+T> = Ok(value: T) | Err(error: Error)

  type Reply = Result<()>

  function HistoryOf(s: Store, id: ArtifactId): seq<Handover> { if id in s.history then s.history[id] else [] }

  // ---------------------------------------------------------------------
  // Placing
  // ---------------------------------------------------------------------

  function NewArtifact(player: PlayerId, grants: seq<Grant>, now: int): Artifact {
    Artifact(player, grants, Active, now, [], map[], [])
  }

  function PutArtifact(s: Store, id: ArtifactId, a: Artifact): Store { s.(artifacts := s.artifacts[id := a]) }

  function AudienceGrants(audience: seq<PlayerId>, now: int, giver: PlayerId): (r: seq<Grant>)
    ensures |r| == |audience| && forall i :: 0 <= i < |r| ==> r[i] == Grant(audience[i], Permanent, now, giver)
  {
    seq(|audience|, i requires 0 <= i < |audience| => Grant(audience[i], Permanent, now, giver))
  }

  function PlaceLeaf(s: Store, player: PlayerId, payload: seq<byte>, now: int): Store {
    PutArtifact(s, Blob(payload), NewArtifact(player, [Grant(player, Permanent, now, player)], now))
  }

  /** `id` is the fresh random name of the container, or the caller's own. */
  function PlaceTree(s: Store, player: PlayerId, id: ArtifactId, audience: seq<PlayerId>, now: int): Store {
    PutArtifact(s, id, NewArtifact(player, AudienceGrants(audience, now, player), now))
  }

  // ---------------------------------------------------------------------
  // Steward-only operations
  // ---------------------------------------------------------------------

  /** require_steward, then require_active. */
  function Refusal(s: Store, player: PlayerId, id: ArtifactId): (r: Option<Error>)
    ensures r.None? <==> id in s.artifacts && s.artifacts[id].steward == player && s.artifacts[id].status.Active?
  {
    if id !in s.artifacts then Some(ArtifactNotFound)
    else if s.artifacts[id].steward != player then Some(NotSteward)
    else if !s.artifacts[id].status.Active? then Some(NotActive)
    else None
  }

  predicate HasLiveGrant(gs: seq<Grant>, p: PlayerId, now: int) { exists g :: g in gs && g.grantee == p && g.Live(now) }

  function GrantAccess(s: Store, player: PlayerId, id: ArtifactId, grantee: PlayerId, mode: AccessMode, now: int): (Store, Reply) {
    var refused := Refusal(s, player, id);
    if refused.Some? then (s, Err(refused.value))
    else
      var a := s.artifacts[id];
      if HasLiveGrant(a.grants, grantee, now) then (s, Err(AlreadyGranted))
      else (PutArtifact(s, id, a.(grants := a.grants + [Grant(grantee, mode, now, player)])), Ok(()))
  }

  /** Vec::retain(|g| g.grantee != p). */
  function WithoutGrantee(gs: seq<Grant>, p: PlayerId): seq<Grant> {
    if gs == [] then []
    else WithoutGrantee(gs[..|gs|-1], p) + if gs[|gs|-1].grantee != p then [gs[|gs|-1]] else []
  }

  function FirstGrant(gs: seq<Grant>, p: PlayerId): (r: Option<Grant>)
    ensures r.Some? ==> r.value in gs && r.value.grantee == p
    ensures r.None? <==> forall g :: g in gs ==> g.grantee != p
  {
    if gs == [] then None else if gs[0].grantee == p then Some(gs[0]) else FirstGrant(gs[1..], p)
  }

  function RevokeAccess(s: Store, player: PlayerId, id: ArtifactId, grantee: PlayerId): (Store, Reply) {
    var refused := Refusal(s, player, id);
    if refused.Some? then (s, Err(refused.value))
    else
      var a := s.artifacts[id];
      match FirstGrant(a.grants, grantee)
      case None => (s, Err(ArtifactNotFound))
      case Some(g) =>
        if g.mode.Permanent? then (s, Err(CannotRevoke))
        else (PutArtifact(s, id, a.(grants := WithoutGrantee(a.grants, grantee))), Ok(()))
  }

  function Recall(s: Store, player: PlayerId, id: ArtifactId, now: int): (Store, Reply) {
    var refused := Refusal(s, player, id);
    if refused.Some? then (s, Err(refused.value))
    else (PutArtifact(s, id, s.artifacts[id].(status := Recalled(now))), Ok(()))
  }

  /** Appends to the history and changes the steward: what a transfer and a completed exchange share. */
  function HandTo(s: Store, id: ArtifactId, from: PlayerId, to: PlayerId, now: int): Store
    requires id in s.artifacts
  {
    Store(s.artifacts[id := s.artifacts[id].(steward := to)],
          s.history[id := HistoryOf(s, id) + [Handover(from, to, now)]])
  }

  function TransferStewardship(s: Store, player: PlayerId, id: ArtifactId, to: PlayerId, now: int): (Store, Reply) {
    var refused := Refusal(s, player, id);
    if refused.Some? then (s, Err(refused.value))
    else
      var handed := HandTo(s, id, s.artifacts[id].steward, to, now);
      (PutArtifact(handed, id, handed.artifacts[id].(status := Transferred(to, now))), Ok(()))
  }

  // ---------------------------------------------------------------------
  // Exchanges
  // ---------------------------------------------------------------------

  predicate Closed(a: Artifact) { StatusKey in a.metadata && (a.metadata[StatusKey] == Rejected || a.metadata[StatusKey] == Completed) }

  predicate Accepted(a: Artifact, p: PlayerId) { AcceptedBy(p) in a.metadata }

  function InRole(refs: seq<Ref>, role: Role): (r: Option<ArtifactId>)
    ensures r.Some? ==> exists x :: x in refs && x.role == Some(role) && x.target == r.value
  {
    if refs == [] then None else if refs[0].role == Some(role) then Some(refs[0].target) else InRole(refs[1..], role)
  }

  function Annotate(s: Store, id: ArtifactId, key: Key, value: Value): Store
    requires id in s.artifacts
  {
    PutArtifact(s, id, s.artifacts[id].(metadata := s.artifacts[id].metadata[key := value]))
  }

  function AcceptExchange(s: Store, player: PlayerId, x: ArtifactId): (Store, Reply) {
    if x !in s.artifacts then (s, Err(ArtifactNotFound))
    else if Closed(s.artifacts[x]) then (s, Err(ExchangeClosed))
    else (Annotate(s, x, AcceptedBy(player), Yes), Ok(()))
  }

  function RejectExchange(s: Store, player: PlayerId, x: ArtifactId): (Store, Reply) {
    if x !in s.artifacts then (s, Err(ArtifactNotFound))
    else (Annotate(Annotate(s, x, StatusKey, Rejected), x, RejectedBy(player), Yes), Ok(()))
  }

  /** The two sides of an exchange, when both references resolve. */
  function Sides(s: Store, x: ArtifactId): (r: Option<(ArtifactId, ArtifactId)>)
    requires x in s.artifacts
    ensures r.Some? ==> r.value.0 in s.artifacts && r.value.1 in s.artifacts
  {
    var offered, requested := InRole(s.artifacts[x].references, Offered), InRole(s.artifacts[x].references, Requested);
    if offered.Some? && requested.Some? && offered.value in s.artifacts && requested.value in s.artifacts
    then Some((offered.value, requested.value)) else None
  }

  function CompleteExchange(s: Store, x: ArtifactId, now: int): (Store, Reply) {
    if x !in s.artifacts then (s, Err(ArtifactNotFound))
    else if Closed(s.artifacts[x]) then (s, Err(ExchangeClosed))
    else match Sides(s, x)
      case None => (s, Err(ArtifactNotFound))
      case Some((o, r)) =>
        var offerer, requester := s.artifacts[o].steward, s.artifacts[r].steward;
        if !Accepted(s.artifacts[x], offerer) || !Accepted(s.artifacts[x], requester) then (s, Err(ExchangeNotFullyAccepted))
        else
          var once := HandTo(s, o, offerer, requester, now);
          var both := HandTo(once, r, requester, offerer, now);
          (Annotate(both, x, StatusKey, Completed), Ok(()))
  }
}
