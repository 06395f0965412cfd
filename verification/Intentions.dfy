/** Releasing attention as tokens (crates/indras-artifacts/src/intention.rs). Dwell windows are given. */
module Intentions {
  import opened Common
  import opened Bytes
  import opened Artifacts
  import opened ArtifactRuns

  datatype Window = Window(start: int, duration: i64)

  /** A token is the leaf whose content is the duration. */
  function TokenOf(w: Window): ArtifactId { Blob(I64Bytes(w.duration)) }

  lemma TokensDifferExactly(v: Window, w: Window)
    ensures TokenOf(v) == TokenOf(w) <==> v.duration == w.duration
  {
    I64RoundTrip(v.duration);
    I64RoundTrip(w.duration);
  }

  // ---------------------------------------------------------------------
  // release_attention
  // ---------------------------------------------------------------------

  /** A freshly placed and blessed token. */
  function Mint(s: Store, player: PlayerId, me: ArtifactId, w: Window, now: int): (r: Store)
    ensures TokenOf(w) in r.artifacts && Refusal(r, player, TokenOf(w)).None?
    ensures r.history == s.history && r.artifacts.Keys == s.artifacts.Keys + {TokenOf(w)}
    ensures forall id :: id in s.artifacts && id != TokenOf(w) ==> r.artifacts[id] == s.artifacts[id]
  {
    var placed := PlaceLeaf(s, player, I64Bytes(w.duration), now);
    var token := placed.artifacts[TokenOf(w)];
    PutArtifact(placed, TokenOf(w), token.(blessings := token.blessings + [Blessing(player, me, now)]))
  }

  /** One round of the loop; a missing intention is noticed only after the token has been handed over. */
  function ReleaseOne(s: Store, player: PlayerId, me: ArtifactId, w: Window, submitter: PlayerId, now: int): (Store, Result<ArtifactId>) {
    var (handed, reply) := TransferStewardship(Mint(s, player, me, w, now), player, TokenOf(w), submitter, now);
    if reply.Err? then (handed, Err(reply.error))
    else if me !in handed.artifacts then (handed, Err(ArtifactNotFound))
    else (Annotate(handed, me, ReleasedAt(player, w.start), ProofOf(submitter)), Ok(TokenOf(w)))
  }

  function Release(s: Store, player: PlayerId, me: ArtifactId, ws: seq<Window>, submitter: PlayerId, now: int): (Store, Result<seq<ArtifactId>>)
    decreases |ws|
  {
    if ws == [] then (s, Ok([]))
    else
      match ReleaseOne(s, player, me, ws[0], submitter, now)
      case (t, Err(e)) => (t, Err(e))
      case (t, Ok(token)) =>
        match Release(t, player, me, ws[1..], submitter, now)
        case (u, Err(e)) => (u, Err(e))
        case (u, Ok(tokens)) => (u, Ok([token] + tokens))
  }

  /** The effect of one round on any artifact. */
  lemma RoundEffect(s: Store, player: PlayerId, me: ArtifactId, w: Window, submitter: PlayerId, now: int, id: ArtifactId)
    ensures var (r, reply) := ReleaseOne(s, player, me, w, submitter, now);
            && (reply.Ok? <==> me in s.artifacts || me == TokenOf(w))
            && (reply.Ok? ==> reply.value == TokenOf(w))
            && TokenOf(w) in r.artifacts && r.artifacts[TokenOf(w)].steward == submitter
            && (id in r.artifacts <==> id in s.artifacts || id == TokenOf(w))
            && (id != TokenOf(w) ==> HistoryOf(r, id) == HistoryOf(s, id))
            && HistoryOf(r, TokenOf(w)) == HistoryOf(s, TokenOf(w)) + [Handover(player, submitter, now)]
            && (id in s.artifacts && id != TokenOf(w) ==>
                  && r.artifacts[id].steward == s.artifacts[id].steward
                  && (id != me ==> r.artifacts[id] == s.artifacts[id])
                  && (id == me ==> r.artifacts[id].metadata == s.artifacts[id].metadata[ReleasedAt(player, w.start) := ProofOf(submitter)]))
  {
    hide Mint, TokenOf;
  }

  predicate Mentions(ws: seq<Window>, id: ArtifactId) { exists w :: w in ws && TokenOf(w) == id }

  lemma MentionsFirst(ws: seq<Window>, id: ArtifactId)
    requires ws != []
    ensures Mentions(ws, id) <==> TokenOf(ws[0]) == id || Mentions(ws[1..], id)
  {
    if Mentions(ws[1..], id) {
      var w :| w in ws[1..] && TokenOf(w) == id;
      assert w in ws;
    }
    if Mentions(ws, id) {
      var w :| w in ws && TokenOf(w) == id;
      assert w == ws[0] || w in ws[1..];
    }
    assert ws[0] in ws;
  }

  /** Release fails exactly when the intention is missing and the first token does not happen to bear its id. When it
      succeeds it returns the tokens of the windows in order; all of them are then held by the submitter, and the
      steward of nothing else has changed. */
  lemma {:induction false} ReleaseHandsTokens(s: Store, player: PlayerId, me: ArtifactId, ws: seq<Window>, submitter: PlayerId, now: int, id: ArtifactId)
    ensures var (r, reply) := Release(s, player, me, ws, submitter, now);
            && (reply.Ok? <==> ws == [] || me in s.artifacts || me == TokenOf(ws[0]))
            && (reply.Ok? ==>
                  && |reply.value| == |ws| && (forall i :: 0 <= i < |ws| ==> reply.value[i] == TokenOf(ws[i]))
                  && (id in r.artifacts <==> id in s.artifacts || Mentions(ws, id))
                  && (Mentions(ws, id) ==> r.artifacts[id].steward == submitter)
                  && (id in s.artifacts && !Mentions(ws, id) ==> r.artifacts[id].steward == s.artifacts[id].steward))
    decreases |ws|
  {
    hide ReleaseOne, Mentions, TokenOf;
    if ws == [] {
      NothingMentioned(id);
    } else {
      RoundEffect(s, player, me, ws[0], submitter, now, id);
      RoundEffect(s, player, me, ws[0], submitter, now, me);
      MentionsFirst(ws, id);
      var (t, reply) := ReleaseOne(s, player, me, ws[0], submitter, now);
      if reply.Ok? { ReleaseHandsTokens(t, player, me, ws[1..], submitter, now, id); }
    }
  }

  lemma NothingMentioned(id: ArtifactId)
    ensures !Mentions([], id)
  {
  }

  /** A released token: new, blessed once by its releaser for the intention, and transferred to the submitter. */
  function ReleasedToken(player: PlayerId, me: ArtifactId, submitter: PlayerId, now: int): Artifact {
    Artifact(submitter, [Grant(player, Permanent, now, player)], Transferred(submitter, now), now, [], map[], [Blessing(player, me, now)])
  }

  lemma RoundMakesToken(s: Store, player: PlayerId, me: ArtifactId, w: Window, submitter: PlayerId, now: int)
    requires me != TokenOf(w)
    ensures var r := ReleaseOne(s, player, me, w, submitter, now).0;
            TokenOf(w) in r.artifacts && r.artifacts[TokenOf(w)] == ReleasedToken(player, me, submitter, now)
  {
    hide I64Bytes;
  }

  /** Every token of a release is such a token in the end, whatever was stored under its id before. */
  lemma {:induction false} TokensAreBlessed(s: Store, player: PlayerId, me: ArtifactId, ws: seq<Window>, submitter: PlayerId, now: int, id: ArtifactId)
    requires Release(s, player, me, ws, submitter, now).1.Ok? && id != me
    requires Mentions(ws, id) || (id in s.artifacts && s.artifacts[id] == ReleasedToken(player, me, submitter, now))
    ensures var r := Release(s, player, me, ws, submitter, now).0;
            id in r.artifacts && r.artifacts[id] == ReleasedToken(player, me, submitter, now)
    decreases |ws|
  {
    hide ReleaseOne, Mentions, TokenOf;
    if ws == [] {
      NothingMentioned(id);
    } else {
      MentionsFirst(ws, id);
      RoundEffect(s, player, me, ws[0], submitter, now, id);
      if TokenOf(ws[0]) == id { RoundMakesToken(s, player, me, ws[0], submitter, now); }
      TokensAreBlessed(ReleaseOne(s, player, me, ws[0], submitter, now).0, player, me, ws[1..], submitter, now, id);
    }
  }

  /** A failed release has already minted the first window's token and given it away. */
  lemma FailureLeavesAToken(s: Store, player: PlayerId, me: ArtifactId, ws: seq<Window>, submitter: PlayerId, now: int)
    requires Release(s, player, me, ws, submitter, now).1.Err?
    ensures var r := Release(s, player, me, ws, submitter, now).0;
            && ws != [] && TokenOf(ws[0]) in r.artifacts && r.artifacts[TokenOf(ws[0])].steward == submitter
            && me !in r.artifacts
  {
    hide ReleaseOne, TokenOf;
    ReleaseHandsTokens(s, player, me, ws, submitter, now, me);
    RoundEffect(s, player, me, ws[0], submitter, now, me);
  }

  /** As many different tokens as windows, exactly when no two windows are equally long. */
  lemma TokensAreDistinctExactly(s: Store, player: PlayerId, me: ArtifactId, ws: seq<Window>, submitter: PlayerId, now: int)
    requires Release(s, player, me, ws, submitter, now).1.Ok?
    ensures var tokens := Release(s, player, me, ws, submitter, now).1.value;
            NoDuplicates(tokens) <==> forall i, j :: 0 <= i < j < |ws| ==> ws[i].duration != ws[j].duration
  {
    hide TokenOf;
    ReleaseHandsTokens(s, player, me, ws, submitter, now, me);
    var tokens := Release(s, player, me, ws, submitter, now).1.value;
    forall i, j | 0 <= i < j < |ws| ensures tokens[i] != tokens[j] <==> ws[i].duration != ws[j].duration {
      TokensDifferExactly(ws[i], ws[j]);
    }
  }

  // ---------------------------------------------------------------------
  // unreleased_attention
  // ---------------------------------------------------------------------

  function Keep(ws: seq<Window>, gone: set<int>): seq<Window> {
    if ws == [] then [] else Keep(ws[..|ws|-1], gone) + if ws[|ws|-1].start in gone then [] else [ws[|ws|-1]]
  }

  lemma {:induction false} KeepMembers(ws: seq<Window>, gone: set<int>, w: Window)
    ensures w in Keep(ws, gone) <==> w in ws && w.start !in gone
  {
    if ws != [] { KeepMembers(ws[..|ws|-1], gone, w); }
  }

  function ReleasedStarts(a: Artifact, player: PlayerId): set<int> {
    set k | k in a.metadata && k.ReleasedAt? && k.who == player :: k.start
  }

  /** Windows of `player` on this intention that have not been released, in order. */
  function Unreleased(s: Store, player: PlayerId, me: ArtifactId, all: seq<Window>): Result<seq<Window>> {
    if me !in s.artifacts then Err(ArtifactNotFound) else Ok(Keep(all, ReleasedStarts(s.artifacts[me], player)))
  }

  function NotReleased(a: Artifact, player: PlayerId): Window -> bool { (w: Window) => ReleasedAt(player, w.start) !in a.metadata }

  lemma {:induction false} KeepIsFiltered(ws: seq<Window>, a: Artifact, player: PlayerId)
    ensures Filters(ws, Keep(ws, ReleasedStarts(a, player)), NotReleased(a, player))
  {
    hide Filters, ReleasedStarts;
    var gone, keep := ReleasedStarts(a, player), NotReleased(a, player);
    if ws == [] {
      FiltersNothing(keep);
    } else {
      var n := |ws| - 1;
      KeepIsFiltered(ws[..n], a, player);
      FiltersOneMore(ws[..n], Keep(ws[..n], gone), ws[n], keep);
      StartIsReleased(a, player, ws[n]);
      assert ws == ws[..n] + [ws[n]];
      assert Keep(ws[..n], gone) + [] == Keep(ws[..n], gone);
    }
  }

  lemma StartIsReleased(a: Artifact, player: PlayerId, w: Window)
    ensures w.start in ReleasedStarts(a, player) <==> ReleasedAt(player, w.start) in a.metadata
  {
  }

  /** unreleased_attention lists exactly the windows without a release record of this player, in order. */
  lemma UnreleasedExactly(s: Store, player: PlayerId, me: ArtifactId, all: seq<Window>)
    ensures me !in s.artifacts <==> Unreleased(s, player, me, all) == Err(ArtifactNotFound)
    ensures me in s.artifacts ==>
              && Unreleased(s, player, me, all).Ok?
              && Filters(all, Unreleased(s, player, me, all).value, NotReleased(s.artifacts[me], player))
  {
    hide Filters, Keep, ReleasedStarts;
    if me in s.artifacts { KeepIsFiltered(all, s.artifacts[me], player); }
  }

  function Starts(ws: seq<Window>): set<int> { set w | w in ws :: w.start }

  lemma {:induction false} KeepTwice(ws: seq<Window>, a: set<int>, b: set<int>)
    ensures Keep(ws, a + b) == Keep(Keep(ws, a), b)
  {
    if ws != [] {
      var n := |ws| - 1;
      KeepTwice(ws[..n], a, b);
      if ws[n].start !in a {
        assert Keep(ws, a)[..|Keep(ws, a)|-1] == Keep(ws[..n], a);
      } else {
        assert Keep(ws, a) == Keep(ws[..n], a);
      }
    }
  }

  lemma AnnotateReleases(a: Artifact, r: Artifact, player: PlayerId, start: int, submitter: PlayerId)
    requires r.metadata == a.metadata[ReleasedAt(player, start) := ProofOf(submitter)]
    ensures ReleasedStarts(r, player) == ReleasedStarts(a, player) + {start}
  {
    assert ReleasedAt(player, start) in r.metadata;
    forall x | x in ReleasedStarts(a, player) ensures x in ReleasedStarts(r, player) {
      assert ReleasedAt(player, x) in r.metadata;
    }
    forall x | x in ReleasedStarts(r, player) && x != start ensures x in ReleasedStarts(a, player) {
      assert ReleasedAt(player, x) in a.metadata;
    }
  }

  lemma {:induction false} ReleaseMarks(s: Store, player: PlayerId, me: ArtifactId, ws: seq<Window>, submitter: PlayerId, now: int)
    requires me in s.artifacts && !Mentions(ws, me)
    ensures var (r, reply) := Release(s, player, me, ws, submitter, now);
            && reply.Ok? && me in r.artifacts
            && ReleasedStarts(r.artifacts[me], player) == ReleasedStarts(s.artifacts[me], player) + Starts(ws)
    decreases |ws|
  {
    hide ReleaseOne, Mentions, ReleasedStarts, TokenOf;
    if ws != [] {
      MentionsFirst(ws, me);
      RoundEffect(s, player, me, ws[0], submitter, now, me);
      var t := ReleaseOne(s, player, me, ws[0], submitter, now).0;
      AnnotateReleases(s.artifacts[me], t.artifacts[me], player, ws[0].start, submitter);
      ReleaseMarks(t, player, me, ws[1..], submitter, now);
      assert Starts(ws) == {ws[0].start} + Starts(ws[1..]) by { StartsFirst(ws); }
    }
  }

  lemma StartsFirst(ws: seq<Window>)
    requires ws != []
    ensures Starts(ws) == {ws[0].start} + Starts(ws[1..])
  {
    assert ws == [ws[0]] + ws[1..];
  }

  /** After a release, the unreleased windows are the previously unreleased ones, in order, less exactly those that
      start when a released window starts. */
  lemma UnreleasedShrinksExactly(s: Store, player: PlayerId, me: ArtifactId, ws: seq<Window>, submitter: PlayerId, now: int, all: seq<Window>)
    requires me in s.artifacts && !Mentions(ws, me)
    ensures var r := Release(s, player, me, ws, submitter, now).0;
            && Unreleased(s, player, me, all).Ok? && Unreleased(r, player, me, all).Ok?
            && Unreleased(r, player, me, all).value == Keep(Unreleased(s, player, me, all).value, Starts(ws))
  {
    hide Release, Mentions, Keep, ReleasedStarts;
    ReleaseMarks(s, player, me, ws, submitter, now);
    KeepTwice(all, ReleasedStarts(s.artifacts[me], player), Starts(ws));
  }

  /** If windows have different start times, releasing some of them omits exactly those. */
  lemma ReleasedWindowsAreOmitted(s: Store, player: PlayerId, me: ArtifactId, ws: seq<Window>, submitter: PlayerId, now: int, all: seq<Window>, w: Window)
    requires me in s.artifacts && !Mentions(ws, me) && w in all && (forall v :: v in ws ==> v in all)
    requires forall u, v :: u in all && v in all && u.start == v.start ==> u == v
    ensures var r := Release(s, player, me, ws, submitter, now).0;
            && Unreleased(s, player, me, all).Ok? && Unreleased(r, player, me, all).Ok?
            && (w in Unreleased(r, player, me, all).value <==> w in Unreleased(s, player, me, all).value && w !in ws)
  {
    hide Release, Mentions, Keep, ReleasedStarts;
    UnreleasedShrinksExactly(s, player, me, ws, submitter, now, all);
    KeepMembers(Unreleased(s, player, me, all).value, Starts(ws), w);
    assert w.start in Starts(ws) <==> w in ws by {
      if w.start in Starts(ws) {
        var v :| v in ws && v.start == w.start;
      }
    }
  }

  // ---------------------------------------------------------------------
  // Histories of tokens
  // ---------------------------------------------------------------------

  /** A round keeps every chain, except that minting over a token whose history ends elsewhere breaks its chain. */
  lemma RoundKeepsChainExactly(s: Store, player: PlayerId, me: ArtifactId, w: Window, submitter: PlayerId, now: int, id: ArtifactId)
    requires ChainOk(s, id)
    ensures var h, r := HistoryOf(s, id), ReleaseOne(s, player, me, w, submitter, now).0;
            ChainOk(r, id) <==> (id == TokenOf(w) ==> h == [] || h[|h|-1].to == player)
  {
    hide ReleaseOne, TokenOf;
    RoundEffect(s, player, me, w, submitter, now, id);
    var h, r := HistoryOf(s, id), ReleaseOne(s, player, me, w, submitter, now).0;
    if id == TokenOf(w) {
      var g := h + [Handover(player, submitter, now)];
      assert HistoryOf(r, id) == g;
      if h == [] || h[|h|-1].to == player {
        assert Linked(g);
      } else {
        assert g[|h|-1].to != g[|h|].from;
      }
    }
  }

  /** How many of the windows mint this token. */
  function Mints(ws: seq<Window>, id: ArtifactId): nat {
    if ws == [] then 0 else Mints(ws[1..], id) + if TokenOf(ws[0]) == id then 1 else 0
  }

  /** The history is empty or ends at the player. */
  predicate EndsAt(h: seq<Handover>, p: PlayerId) { h == [] || h[|h|-1].to == p }

  /** Histories only grow, so a missing link stays missing. */
  lemma {:induction false} BrokenStaysBroken(s: Store, player: PlayerId, me: ArtifactId, ws: seq<Window>, submitter: PlayerId, now: int, id: ArtifactId)
    requires !Linked(HistoryOf(s, id))
    ensures !Linked(HistoryOf(Release(s, player, me, ws, submitter, now).0, id))
    decreases |ws|
  {
    hide ReleaseOne, TokenOf, HistoryOf;
    if ws != [] {
      var (t, reply) := ReleaseOne(s, player, me, ws[0], submitter, now);
      RoundEffect(s, player, me, ws[0], submitter, now, id);
      var h := HistoryOf(s, id);
      var i :| 0 <= i < |h| - 1 && h[i].to != h[i+1].from;
      assert HistoryOf(t, id)[i].to != HistoryOf(t, id)[i+1].from;
      if reply.Ok? { BrokenStaysBroken(t, player, me, ws[1..], submitter, now, id); }
    }
  }

  lemma BrokenChain(s: Store, player: PlayerId, me: ArtifactId, w: Window, submitter: PlayerId, now: int)
    requires ChainOk(s, TokenOf(w)) && !EndsAt(HistoryOf(s, TokenOf(w)), player)
    ensures !Linked(HistoryOf(ReleaseOne(s, player, me, w, submitter, now).0, TokenOf(w)))
  {
    hide ReleaseOne, TokenOf, HistoryOf;
    RoundEffect(s, player, me, w, submitter, now, TokenOf(w));
    var h := HistoryOf(s, TokenOf(w));
    var g := h + [Handover(player, submitter, now)];
    assert g[|h|-1].to != g[|h|].from;
  }

  /** The windows the loop gets through: all of them, or only the first when the intention is then found missing. */
  function Processed(s: Store, me: ArtifactId, ws: seq<Window>): seq<Window> {
    if ws == [] || me in s.artifacts || me == TokenOf(ws[0]) then ws else ws[..1]
  }

  /** release_attention keeps the history of an artifact a chain ending at its steward if and only if it does not mint
      that artifact, or the history was empty or ended at the releaser and, moreover, the token is minted once only or
      releaser and submitter are the same. */
  lemma {:induction false} ReleaseKeepsChainExactly(s: Store, player: PlayerId, me: ArtifactId, ws: seq<Window>, submitter: PlayerId, now: int, id: ArtifactId)
    requires ChainOk(s, id)
    ensures var n := Mints(Processed(s, me, ws), id);
            ChainOk(Release(s, player, me, ws, submitter, now).0, id) <==>
              n == 0 || (EndsAt(HistoryOf(s, id), player) && (n == 1 || submitter == player))
    decreases |ws|
  {
    hide ReleaseOne, TokenOf, HistoryOf;
    if ws != [] {
      var (t, reply) := ReleaseOne(s, player, me, ws[0], submitter, now);
      RoundEffect(s, player, me, ws[0], submitter, now, id);
      RoundEffect(s, player, me, ws[0], submitter, now, me);
      RoundKeepsChainExactly(s, player, me, ws[0], submitter, now, id);
      if reply.Err? {
        assert ws[..1][1..] == [];
      } else if ChainOk(t, id) {
        ReleaseKeepsChainExactly(t, player, me, ws[1..], submitter, now, id);
      } else {
        BrokenChain(s, player, me, ws[0], submitter, now);
        BrokenStaysBroken(t, player, me, ws[1..], submitter, now, id);
      }
    }
  }

  lemma {:induction false} MintsAtMostOnce(ws: seq<Window>, id: ArtifactId)
    requires forall i, j :: 0 <= i < j < |ws| ==> ws[i].duration != ws[j].duration
    ensures Mints(ws, id) <= 1 && (Mints(ws, id) == 1 ==> exists i :: 0 <= i < |ws| && TokenOf(ws[i]) == id)
  {
    hide TokenOf;
    if ws != [] {
      MintsAtMostOnce(ws[1..], id);
      if i :| 0 <= i < |ws[1..]| && TokenOf(ws[1..][i]) == id {
        TokensDifferExactly(ws[0], ws[i+1]);
      }
    }
  }

  lemma {:induction false} MintsEach(ws: seq<Window>, i: nat)
    requires i < |ws|
    ensures Mints(ws, TokenOf(ws[i])) >= 1
  {
    hide TokenOf;
    if i > 0 { MintsEach(ws[1..], i - 1); }
  }

  lemma {:induction false} MintsTwice(ws: seq<Window>, i: nat, j: nat)
    requires i < j < |ws| && ws[i].duration == ws[j].duration
    ensures Mints(ws, TokenOf(ws[i])) >= 2
  {
    hide TokenOf;
    TokensDifferExactly(ws[i], ws[j]);
    if i == 0 {
      MintsEach(ws[1..], j - 1);
    } else {
      MintsTwice(ws[1..], i - 1, j - 1);
    }
  }

  /** In particular, windows of different, never before minted durations keep every history a chain. */
  lemma ReleaseKeepsChains(s: Store, player: PlayerId, me: ArtifactId, ws: seq<Window>, submitter: PlayerId, now: int, id: ArtifactId)
    requires ChainOk(s, id)
    requires forall i :: 0 <= i < |ws| ==> HistoryOf(s, TokenOf(ws[i])) == []
    requires forall i, j :: 0 <= i < j < |ws| ==> ws[i].duration != ws[j].duration
    ensures ChainOk(Release(s, player, me, ws, submitter, now).0, id)
  {
    hide ChainOk, Release, TokenOf, HistoryOf;
    MintsAtMostOnce(Processed(s, me, ws), id);
    ReleaseKeepsChainExactly(s, player, me, ws, submitter, now, id);
  }

  /** And two equally long windows anywhere in the list keep their token's history a chain only if releaser and
      submitter are the same. */
  lemma EqualDurationsBreakTheChain(s: Store, player: PlayerId, me: ArtifactId, ws: seq<Window>, submitter: PlayerId, now: int, i: nat, j: nat)
    requires me in s.artifacts && i < j < |ws| && ws[i].duration == ws[j].duration
    requires ChainOk(s, TokenOf(ws[i])) && HistoryOf(s, TokenOf(ws[i])) == []
    ensures ChainOk(Release(s, player, me, ws, submitter, now).0, TokenOf(ws[i])) <==> submitter == player
  {
    hide ChainOk, Release, TokenOf, HistoryOf;
    MintsTwice(ws, i, j);
    ReleaseKeepsChainExactly(s, player, me, ws, submitter, now, TokenOf(ws[i]));
  }

  // ---------------------------------------------------------------------
  // release_pledged_tokens
  // ---------------------------------------------------------------------

  function WithoutTarget(refs: seq<Ref>, target: ArtifactId): seq<Ref> {
    if refs == [] then []
    else WithoutTarget(refs[..|refs|-1], target) + if refs[|refs|-1].target != target then [refs[|refs|-1]] else []
  }

  /** Vault::remove_ref: for the steward, whatever the status. */
  function RemoveRef(s: Store, player: PlayerId, id: ArtifactId, child: ArtifactId): (Store, Reply) {
    if id !in s.artifacts then (s, Err(ArtifactNotFound))
    else if s.artifacts[id].steward != player then (s, Err(NotSteward))
    else (PutArtifact(s, id, s.artifacts[id].(references := WithoutTarget(s.artifacts[id].references, child))), Ok(()))
  }

  function ReleasePledged(s: Store, player: PlayerId, me: ArtifactId, tokens: seq<ArtifactId>, submitter: PlayerId, now: int): (Store, Reply)
    decreases |tokens|
  {
    if tokens == [] then (s, Ok(()))
    else
      match TransferStewardship(s, player, tokens[0], submitter, now)
      case (t, Err(e)) => (t, Err(e))
      case (t, Ok(_)) =>
        match RemoveRef(t, player, me, tokens[0])
        case (u, Err(e)) => (u, Err(e))
        case (u, Ok(_)) => ReleasePledged(u, player, me, tokens[1..], submitter, now)
  }

  lemma PledgedRound(s: Store, player: PlayerId, me: ArtifactId, token: ArtifactId, submitter: PlayerId, now: int, id: ArtifactId)
    ensures var (t, r1) := TransferStewardship(s, player, token, submitter, now);
            var (u, r2) := RemoveRef(t, player, me, token);
            && (r1.Ok? <==> Refusal(s, player, token).None?)
            && (r1.Ok? && r2.Ok? ==>
                  && token in u.artifacts && u.artifacts[token].steward == submitter && !u.artifacts[token].status.Active?
                  && u.artifacts.Keys == s.artifacts.Keys
                  && (id in s.artifacts && id != token ==>
                        u.artifacts[id].steward == s.artifacts[id].steward && u.artifacts[id].status == s.artifacts[id].status))
  {
    hide WithoutTarget;
  }

  /** A successful release of pledged tokens hands over every listed token, each of which the releaser held, active, and
      no token twice; nothing else changes hands. */
  lemma {:induction false} PledgesAreReleasedOnce(s: Store, player: PlayerId, me: ArtifactId, tokens: seq<ArtifactId>, submitter: PlayerId, now: int, id: ArtifactId)
    requires ReleasePledged(s, player, me, tokens, submitter, now).1.Ok?
    ensures NoDuplicates(tokens) && forall i :: 0 <= i < |tokens| ==> Refusal(s, player, tokens[i]).None?
    ensures var r := ReleasePledged(s, player, me, tokens, submitter, now).0;
            && r.artifacts.Keys == s.artifacts.Keys
            && (id in tokens ==> id in r.artifacts && r.artifacts[id].steward == submitter && !r.artifacts[id].status.Active?)
            && (id in s.artifacts && id !in tokens ==> r.artifacts[id].steward == s.artifacts[id].steward && r.artifacts[id].status == s.artifacts[id].status)
    decreases |tokens|
  {
    hide TransferStewardship, RemoveRef, WithoutTarget;
    if tokens != [] {
      var u := RemoveRef(TransferStewardship(s, player, tokens[0], submitter, now).0, player, me, tokens[0]).0;
      PledgedRound(s, player, me, tokens[0], submitter, now, id);
      PledgesAreReleasedOnce(u, player, me, tokens[1..], submitter, now, id);
      forall i | 1 <= i < |tokens| ensures tokens[i] != tokens[0] && Refusal(s, player, tokens[i]).None? {
        assert tokens[1..][i-1] == tokens[i] && Refusal(u, player, tokens[i]).None?;
        PledgedRound(s, player, me, tokens[0], submitter, now, tokens[i]);
      }
    }
  }

  function WithoutTargets(refs: seq<Ref>, gone: set<ArtifactId>): seq<Ref> {
    if refs == [] then []
    else WithoutTargets(refs[..|refs|-1], gone) + if refs[|refs|-1].target !in gone then [refs[|refs|-1]] else []
  }

  function TargetsOutside(gone: set<ArtifactId>): Ref -> bool { (x: Ref) => x.target !in gone }

  lemma {:induction false} WithoutTargetsIsFiltered(refs: seq<Ref>, gone: set<ArtifactId>)
    ensures Filters(refs, WithoutTargets(refs, gone), TargetsOutside(gone))
  {
    hide Filters;
    if refs == [] {
      FiltersNothing(TargetsOutside(gone));
    } else {
      var n := |refs| - 1;
      WithoutTargetsIsFiltered(refs[..n], gone);
      FiltersOneMore(refs[..n], WithoutTargets(refs[..n], gone), refs[n], TargetsOutside(gone));
      assert refs == refs[..n] + [refs[n]];
      assert WithoutTargets(refs[..n], gone) + [] == WithoutTargets(refs[..n], gone);
    }
  }

  lemma {:induction false} OneTargetFirst(refs: seq<Ref>, target: ArtifactId, gone: set<ArtifactId>)
    ensures WithoutTargets(WithoutTarget(refs, target), gone) == WithoutTargets(refs, gone + {target})
  {
    if refs != [] {
      var n := |refs| - 1;
      OneTargetFirst(refs[..n], target, gone);
      var front := WithoutTarget(refs[..n], target);
      if refs[n].target != target {
        assert (front + [refs[n]])[..|front|] == front;
      } else {
        assert front + [] == front;
      }
    }
  }

  function IdSet(tokens: seq<ArtifactId>): set<ArtifactId> { set t | t in tokens }

  lemma {:induction false} NothingWithout(refs: seq<Ref>)
    ensures WithoutTargets(refs, {}) == refs
  {
    if refs != [] { NothingWithout(refs[..|refs|-1]); }
  }

  lemma PledgedRefs(s: Store, player: PlayerId, me: ArtifactId, token: ArtifactId, submitter: PlayerId, now: int)
    requires me in s.artifacts
    ensures var (t, r1) := TransferStewardship(s, player, token, submitter, now);
            var (u, r2) := RemoveRef(t, player, me, token);
            r1.Ok? && r2.Ok? ==> me in u.artifacts && u.artifacts[me].references == WithoutTarget(s.artifacts[me].references, token)
  {
    hide WithoutTarget;
  }

  lemma {:induction false} PledgeRefsGo(s: Store, player: PlayerId, me: ArtifactId, tokens: seq<ArtifactId>, submitter: PlayerId, now: int)
    requires ReleasePledged(s, player, me, tokens, submitter, now).1.Ok? && me in s.artifacts
    ensures var r := ReleasePledged(s, player, me, tokens, submitter, now).0;
            me in r.artifacts && r.artifacts[me].references == WithoutTargets(s.artifacts[me].references, IdSet(tokens))
    decreases |tokens|
  {
    hide WithoutTarget, WithoutTargets, TransferStewardship, RemoveRef;
    if tokens == [] {
      assert IdSet(tokens) == {};
      NothingWithout(s.artifacts[me].references);
    } else {
      var t := TransferStewardship(s, player, tokens[0], submitter, now).0;
      var u := RemoveRef(t, player, me, tokens[0]).0;
      PledgedRefs(s, player, me, tokens[0], submitter, now);
      PledgeRefsGo(u, player, me, tokens[1..], submitter, now);
      OneTargetFirst(s.artifacts[me].references, tokens[0], IdSet(tokens[1..]));
      assert IdSet(tokens) == IdSet(tokens[1..]) + {tokens[0]} by { assert tokens == [tokens[0]] + tokens[1..]; }
    }
  }

  /** A successful release of pledged tokens removes exactly the intention's references to them, keeping the others in order. */
  lemma PledgesAreUnlisted(s: Store, player: PlayerId, me: ArtifactId, tokens: seq<ArtifactId>, submitter: PlayerId, now: int)
    requires ReleasePledged(s, player, me, tokens, submitter, now).1.Ok? && me in s.artifacts
    ensures var r := ReleasePledged(s, player, me, tokens, submitter, now).0;
            me in r.artifacts && Filters(s.artifacts[me].references, r.artifacts[me].references, TargetsOutside(IdSet(tokens)))
  {
    hide ReleasePledged, Filters, WithoutTargets;
    PledgeRefsGo(s, player, me, tokens, submitter, now);
    WithoutTargetsIsFiltered(s.artifacts[me].references, IdSet(tokens));
  }
}
