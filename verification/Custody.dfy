/** Custody transfer of one node (crates/indras-dtn/src/custody.rs), after section 5.10 of RFC 5050.
    Instants and durations are whole milliseconds; every call is given the clock reading it makes. */
module Custody {
  import opened Common
  import opened Bundles

  datatype Config = Config(maxBundles: nat, acceptanceTimeout: int)

  datatype Record = Record(acceptedAt: int, acceptedFrom: Option<NodeId>, destination: NodeId, expiration: int, attempts: nat)

  datatype Offer = Offer(offeredTo: NodeId, offeredAt: int, timeout: int)

  predicate TimedOut(o: Offer, now: int) { now - o.offeredAt > o.timeout }

  predicate Expired(r: Record, now: int) { now > r.expiration }

  datatype CustodyError = StorageFull | AlreadyHaveCustody | NotInCustody

  datatype Outcome = Done | Failed(error: CustodyError)

  datatype TransferResult = Accepted(newCustodian: NodeId) | Refused | NoPendingTransfer

  /** A node's custody state. */
  datatype State = State(records: map<BundleId, Record>, pending: map<BundleId, Offer>)

  const EMPTY := State(map[], map[])

  /** An offer is open only for bundles in custody, and custody never exceeds capacity. */
  ghost predicate Sound(c: Config, s: State) { s.pending.Keys <= s.records.Keys && |s.records| <= c.maxBundles }

  function Accept(c: Config, s: State, b: Bundle, from: Option<NodeId>, utc: int, now: int): (r: (State, Outcome))
    ensures Sound(c, s) ==> Sound(c, r.0)
    ensures r.1.Done? ==> b.id !in s.records && r.0.records.Keys == s.records.Keys + {b.id}
    ensures !r.1.Done? ==> r.0 == s
  {
    if |s.records| >= c.maxBundles then (s, Failed(StorageFull))
    else if b.id in s.records then (s, Failed(AlreadyHaveCustody))
    else
      var record := Record(now, from, b.destination, now + b.TimeToLive(utc), 0);
      OneMore(s.records, b.id, record);
      (s.(records := s.records[b.id := record]), Done)
  }

  lemma OneMore(records: map<BundleId, Record>, id: BundleId, record: Record)
    requires id !in records
    ensures records[id := record].Keys == records.Keys + {id} && |records[id := record]| == |records| + 1
  {
    var more := records[id := record];
    assert more.Keys == records.Keys + {id};
    assert |more| == |more.Keys| == |records.Keys| + 1;
  }

  function OfferTo(c: Config, s: State, id: BundleId, to: NodeId, now: int): (r: (State, Outcome))
    ensures Sound(c, s) ==> Sound(c, r.0)
    ensures r.0.records == s.records
    ensures r.1.Done? <==> id in s.records
  {
    if id !in s.records then (s, Failed(NotInCustody))
    else (s.(pending := s.pending[id := Offer(to, now, c.acceptanceTimeout)]), Done)
  }

  function Retried(records: map<BundleId, Record>, ids: set<BundleId>): (r: map<BundleId, Record>)
    ensures r.Keys == records.Keys && |r| == |records|
  {
    var r := map id | id in records :: if id in ids then records[id].(attempts := records[id].attempts + 1) else records[id];
    assert r.Keys == records.Keys && |r| == |r.Keys|;
    r
  }

  lemma FewerRecords(records: map<BundleId, Record>, ids: set<BundleId>)
    ensures |records - ids| <= |records|
  {
    assert (records - ids).Keys <= records.Keys;
    SubsetSize((records - ids).Keys, records.Keys);
  }

  lemma {:induction false} SubsetSize<T>(a: set<T>, b: set<T>)
    requires a <= b
    ensures |a| <= |b|
  {
    if a != {} {
      var x :| x in a;
      SubsetSize(a - {x}, b - {x});
    }
  }

  /** A reply to an open offer: acceptance ends our custody, refusal counts an attempt. Without an open offer a reply,
      late or misdirected, changes nothing. */
  function HandleAcceptance(s: State, id: BundleId, accepted: bool): (r: (State, TransferResult))
    ensures r.1.NoPendingTransfer? <==> id !in s.pending
    ensures r.1.NoPendingTransfer? ==> r.0 == s
    ensures r.0.records.Keys == s.records.Keys - if id in s.pending && accepted then {id} else {}
    ensures r.0.pending == s.pending - {id}
  {
    if id !in s.pending then (s, NoPendingTransfer)
    else if accepted then (State(s.records - {id}, s.pending - {id}), Accepted(s.pending[id].offeredTo))
    else (State(Retried(s.records, {id}), s.pending - {id}), Refused)
  }

  function Release(s: State, ids: set<BundleId>): (r: State)
    ensures r.records.Keys == s.records.Keys - ids
  {
    State(s.records - ids, s.pending - ids)
  }

  function LateOffers(s: State, now: int): set<BundleId> { set id | id in s.pending && TimedOut(s.pending[id], now) }

  /** Offers taken back, each counted as an attempt. */
  function Withdrawn(s: State, ids: set<BundleId>): (r: State)
    ensures r.records.Keys == s.records.Keys
  {
    State(Retried(s.records, ids), s.pending - ids)
  }

  function CheckTimeouts(s: State, now: int): State { Withdrawn(s, LateOffers(s, now)) }

  function ExpiredIds(s: State, now: int): set<BundleId> { set id | id in s.records && Expired(s.records[id], now) }

  function CleanupExpired(s: State, now: int): State { Release(s, ExpiredIds(s, now)) }

  lemma ReleaseStaysSound(c: Config, s: State, ids: set<BundleId>)
    requires Sound(c, s)
    ensures Sound(c, Release(s, ids))
  {
    FewerRecords(s.records, ids);
  }

  lemma WithdrawnStaysSound(c: Config, s: State, ids: set<BundleId>)
    requires Sound(c, s)
    ensures Sound(c, Withdrawn(s, ids))
  {
  }

  lemma HandlingStaysSound(c: Config, s: State, id: BundleId, accepted: bool)
    requires Sound(c, s)
    ensures Sound(c, HandleAcceptance(s, id, accepted).0)
  {
    FewerRecords(s.records, {id});
  }

  // ---------------------------------------------------------------------
  // What each call does
  // ---------------------------------------------------------------------

  /** Custody is refused for want of room before anything else; a record taken at (utc, now) is released by a cleanup at a
      later reading exactly when more than the lifetime then remaining has passed. */
  lemma CustodyLastsTheRemainingLifetime(c: Config, s: State, b: Bundle, from: Option<NodeId>, utc: int, now: int, later: int)
    ensures var (r, outcome) := Accept(c, s, b, from, utc, now);
            && (outcome == Failed(StorageFull) <==> |s.records| >= c.maxBundles)
            && (outcome == Failed(AlreadyHaveCustody) <==> |s.records| < c.maxBundles && b.id in s.records)
            && (outcome == Done <==> |s.records| < c.maxBundles && b.id !in s.records)
            && (outcome == Done ==>
                  var remaining := b.lifetime - (utc - b.createdAt);
                  && r.pending == s.pending && r.records - {b.id} == s.records && b.id in r.records
                  && r.records[b.id].acceptedAt == now && r.records[b.id].acceptedFrom == from
                  && r.records[b.id].destination == b.destination && r.records[b.id].attempts == 0
                  && (b.id !in CleanupExpired(r, later).records <==> later - now > if remaining > 0 then remaining else 0))
  {
    if Accept(c, s, b, from, utc, now).1 == Done {
      assert Accept(c, s, b, from, utc, now).0.records - {b.id} == s.records;
    }
  }

  /** An offer stands until it is answered or more than the acceptance timeout has passed; while it stands, an acceptance
      names the node it was made to. */
  lemma OffersStandForTheTimeout(c: Config, s: State, id: BundleId, to: NodeId, now: int, later: int)
    ensures var (r, outcome) := OfferTo(c, s, id, to, now);
            && (outcome == Failed(NotInCustody) <==> id !in s.records) && (outcome == Done <==> id in s.records)
            && (outcome != Done ==> r == s)
            && (outcome == Done ==>
                  && r.records == s.records && r.pending.Keys == s.pending.Keys + {id}
                  && (forall x :: x in s.pending && x != id ==> r.pending[x] == s.pending[x])
                  && (id !in CheckTimeouts(r, later).pending <==> later - now > c.acceptanceTimeout)
                  && HandleAcceptance(r, id, true).1 == Accepted(to))
  {
  }

  /** Same records, but for one more attempt of each bundle in the set. */
  ghost predicate OneMoreAttempt(was: map<BundleId, Record>, now: map<BundleId, Record>, ids: set<BundleId>) {
    && now.Keys == was.Keys
    && forall id :: id in was ==> now[id] == was[id].(attempts := was[id].attempts + if id in ids then 1 else 0)
  }

  /** A reply closes the open offer; acceptance ends custody of that bundle, refusal costs it an attempt. */
  lemma RepliesExactly(s: State, id: BundleId, accepted: bool)
    ensures var (r, result) := HandleAcceptance(s, id, accepted);
            && (id !in s.pending <==> result == NoPendingTransfer) && (id !in s.pending ==> r == s)
            && (id in s.pending ==>
                  && r.pending == s.pending - {id}
                  && (accepted ==> result == Accepted(s.pending[id].offeredTo) && r.records == s.records - {id})
                  && (!accepted ==> result == Refused && OneMoreAttempt(s.records, r.records, {id})))
  {
  }

  /** The timeout check withdraws exactly the offers older than their timeout, and each costs its bundle an attempt; the
      cleanup releases exactly the records past their expiration, with their offers. */
  lemma ChecksExactly(s: State, now: int)
    ensures var r := CheckTimeouts(s, now);
            && (forall id :: id in r.pending <==> id in s.pending && now - s.pending[id].offeredAt <= s.pending[id].timeout)
            && (forall id :: id in r.pending ==> r.pending[id] == s.pending[id])
            && OneMoreAttempt(s.records, r.records, s.pending.Keys - r.pending.Keys)
    ensures var r := CleanupExpired(s, now);
            && (forall id :: id in r.records <==> id in s.records && now <= s.records[id].expiration)
            && (forall id :: id in r.records ==> r.records[id] == s.records[id])
            && r.pending == s.pending - (s.records.Keys - r.records.Keys)
  {
    var r := CleanupExpired(s, now);
    assert s.records.Keys - r.records.Keys == ExpiredIds(s, now);
  }

  class CustodyManager {
    var records: map<BundleId, Record>
    var pending: map<BundleId, Offer>
    const config: Config

    ghost function View(): State
      reads this
    {
      State(records, pending)
    }

    ghost predicate Valid()
      reads this
    {
      Sound(config, View())
    }

    constructor (config: Config)
      ensures Valid() && View() == EMPTY && this.config == config
    {
      this.config := config;
      records, pending := map[], map[];
    }

    method AcceptCustody(b: Bundle, from: Option<NodeId>, utc: int, now: int) returns (r: Outcome)
      requires Valid()
      modifies this
      ensures Valid() && (View(), r) == Accept(config, old(View()), b, from, utc, now)
    {
      if |records| >= config.maxBundles {
        return Failed(StorageFull);
      }
      if b.id in records {
        return Failed(AlreadyHaveCustody);
      }
      records := records[b.id := Record(now, from, b.destination, now + b.TimeToLive(utc), 0)];
      return Done;
    }

    method OfferCustody(id: BundleId, to: NodeId, now: int) returns (r: Outcome)
      requires Valid()
      modifies this`pending
      ensures Valid() && (View(), r) == OfferTo(config, old(View()), id, to, now)
    {
      if id !in records {
        return Failed(NotInCustody);
      }
      pending := pending[id := Offer(to, now, config.acceptanceTimeout)];
      return Done;
    }

    /** get_mut(id).transfer_attempts += 1, if there is a record. */
    method CountAttempt(id: BundleId)
      modifies this`records
      ensures records == Retried(old(records), {id})
    {
      if id in records {
        records := records[id := records[id].(attempts := records[id].attempts + 1)];
      }
    }

    method HandleReply(id: BundleId, accepted: bool) returns (r: TransferResult)
      requires Valid()
      modifies this
      ensures Valid() && (View(), r) == HandleAcceptance(old(View()), id, accepted)
    {
      HandlingStaysSound(config, View(), id, accepted);
      if id !in pending {
        return NoPendingTransfer;
      }
      var offer := pending[id];
      pending := pending - {id};
      if accepted {
        records := records - {id};
        r := Accepted(offer.offeredTo);
      } else {
        CountAttempt(id);
        r := Refused;
      }
    }

    method ReleaseCustody(id: BundleId) returns (r: Option<Record>)
      requires Valid()
      modifies this
      ensures Valid() && View() == Release(old(View()), {id})
      ensures r == if id in old(records) then Some(old(records)[id]) else None
    {
      ReleaseStaysSound(config, View(), {id});
      r := if id in records then Some(records[id]) else None;
      pending := pending - {id};
      records := records - {id};
    }

    /** The timed-out offers are withdrawn, each counted as an attempt; custody itself is kept. */
    method CheckForTimeouts(now: int) returns (late: set<BundleId>)
      requires Valid()
      modifies this
      ensures Valid() && View() == CheckTimeouts(old(View()), now) && late == LateOffers(old(View()), now)
    {
      hide Withdrawn, Sound;
      WithdrawnStaysSound(config, View(), LateOffers(View(), now));
      late := set id | id in pending && TimedOut(pending[id], now);
      Withdraw(late);
    }

    method WithdrawOne(id: BundleId)
      modifies this
      ensures View() == Withdrawn(old(View()), {id})
    {
      pending := pending - {id};
      CountAttempt(id);
    }

    method Withdraw(ids: set<BundleId>)
      modifies this
      ensures View() == Withdrawn(old(View()), ids)
    {
      hide Withdrawn;
      WithdrawnNone(View());
      var todo := ids;
      ghost var done: set<BundleId> := {};
      while todo != {}
        invariant done + todo == ids && done !! todo
        invariant View() == Withdrawn(old(View()), done)
        decreases |todo|
      {
        var id :| id in todo;
        WithdrawnMore(old(View()), done, id);
        WithdrawOne(id);
        todo, done := todo - {id}, done + {id};
      }
      assert done == ids;
    }

    method Cleanup(now: int) returns (expired: set<BundleId>)
      requires Valid()
      modifies this
      ensures Valid() && View() == CleanupExpired(old(View()), now) && expired == ExpiredIds(old(View()), now)
    {
      hide Sound;
      expired := set id | id in records && Expired(records[id], now);
      ReleaseAll(expired);
    }

    method ReleaseAll(ids: set<BundleId>)
      requires Valid()
      modifies this
      ensures Valid() && View() == Release(old(View()), ids)
    {
      hide Sound;
      assert records - {} == records && pending - {} == pending;
      var todo := ids;
      ghost var done: set<BundleId> := {};
      while todo != {}
        invariant done + todo == ids && done !! todo && Valid()
        invariant View() == Release(old(View()), done)
        decreases |todo|
      {
        var id :| id in todo;
        MinusOne(old(pending), done, id);
        MinusOne(old(records), done, id);
        var _ := ReleaseCustody(id);
        todo, done := todo - {id}, done + {id};
      }
      assert done == ids;
    }
  }

  lemma MinusOne<V>(m: map<BundleId, V>, ids: set<BundleId>, id: BundleId)
    ensures (m - ids) - {id} == m - (ids + {id})
  {
  }

  lemma WithdrawnNone(s: State)
    ensures Withdrawn(s, {}) == s
  {
    assert Retried(s.records, {}) == s.records && s.pending - {} == s.pending;
  }

  lemma WithdrawnMore(s: State, ids: set<BundleId>, id: BundleId)
    requires id !in ids
    ensures Withdrawn(Withdrawn(s, ids), {id}) == Withdrawn(s, ids + {id})
  {
    MinusOne(s.pending, ids, id);
    assert Retried(Retried(s.records, ids), {id}) == Retried(s.records, ids + {id});
  }
}
