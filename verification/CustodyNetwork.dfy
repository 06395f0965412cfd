/** Custody across a network: nodes that each run a custody manager and exchange offers, acceptances and refusals over
    a network that loses, delays and reorders messages but does not duplicate them. A node answers an offer with an
    acceptance exactly when its own accept_custody succeeded. */
module CustodyNetwork {
  import opened Common
  import opened Bundles
  import opened Custody

  datatype Content = OfferOf(bundle: Bundle) | AcceptOf(id: BundleId) | RefuseOf(id: BundleId)

  datatype Envelope = Envelope(from: NodeId, to: NodeId, content: Content)

  /** `mail` is the messages in flight, of which any may arrive next. `taken` and `given` are history variables: the
      bundles whose source took custody, and the custodies that ended by release or expiry. */
  datatype Net = Net(
    configs: map<NodeId, Config>, nodes: map<NodeId, State>, mail: seq<Envelope>,
    taken: multiset<BundleId>, given: multiset<BundleId>)

  datatype Event =
    | Originate(node: NodeId, bundle: Bundle, utc: int, now: int)
    | SendOffer(node: NodeId, bundle: Bundle, to: NodeId, now: int)
    | Deliver(index: nat, willing: bool, utc: int, now: int)
    | Lose(index: nat)
    | WithdrawLate(node: NodeId, now: int)
    | ReleaseOne(node: NodeId, id: BundleId)
    | Expire(node: NodeId, now: int)

  function Without(mail: seq<Envelope>, k: nat): seq<Envelope>
    requires k < |mail|
  {
    mail[..k] + mail[k+1..]
  }

  predicate Known(net: Net, n: NodeId) { n in net.nodes && n in net.configs }

  /** The source of a bundle takes custody of it. */
  function OriginateAt(net: Net, n: NodeId, b: Bundle, utc: int, now: int): Net
    requires Known(net, n)
  {
    var (s, r) := Accept(net.configs[n], net.nodes[n], b, None, utc, now);
    if r.Done? then net.(nodes := net.nodes[n := s], taken := net.taken + multiset{b.id}) else net
  }

  function OfferFrom(net: Net, n: NodeId, b: Bundle, to: NodeId, now: int): Net
    requires Known(net, n)
  {
    var (s, r) := OfferTo(net.configs[n], net.nodes[n], b.id, to, now);
    if r.Done? then net.(nodes := net.nodes[n := s], mail := net.mail + [Envelope(n, to, OfferOf(b))]) else net
  }

  /** An offer arrives at a node that may be unwilling; a willing one calls accept_custody and reports the outcome. */
  function ReceiveOffer(net: Net, n: NodeId, from: NodeId, b: Bundle, willing: bool, utc: int, now: int): Net
    requires Known(net, n)
  {
    var (s, r) := Accept(net.configs[n], net.nodes[n], b, Some(from), utc, now);
    if willing && r.Done? then
      net.(nodes := net.nodes[n := s], mail := net.mail + [Envelope(n, from, AcceptOf(b.id))])
    else net.(mail := net.mail + [Envelope(n, from, RefuseOf(b.id))])
  }

  function ReceiveReply(net: Net, n: NodeId, id: BundleId, accepted: bool): Net
    requires Known(net, n)
  {
    net.(nodes := net.nodes[n := HandleAcceptance(net.nodes[n], id, accepted).0])
  }

  function Receive(net: Net, e: Envelope, willing: bool, utc: int, now: int): Net {
    if !Known(net, e.to) then net
    else match e.content
      case OfferOf(b) => ReceiveOffer(net, e.to, e.from, b, willing, utc, now)
      case AcceptOf(id) => ReceiveReply(net, e.to, id, true)
      case RefuseOf(id) => ReceiveReply(net, e.to, id, false)
  }

  /** The node ends its own custody of the listed bundles. */
  function GiveUp(net: Net, n: NodeId, ids: set<BundleId>): Net
    requires Known(net, n)
  {
    net.(nodes := net.nodes[n := Release(net.nodes[n], ids)],
         given := net.given + multiset(ids * net.nodes[n].records.Keys))
  }

  /** One event; an event that does not apply changes nothing. */
  function Next(net: Net, e: Event): Net {
    match e
    case Originate(n, b, utc, now) => if Known(net, n) then OriginateAt(net, n, b, utc, now) else net
    case SendOffer(n, b, to, now) => if Known(net, n) then OfferFrom(net, n, b, to, now) else net
    case Deliver(k, willing, utc, now) =>
      if k < |net.mail| then Receive(net.(mail := Without(net.mail, k)), net.mail[k], willing, utc, now) else net
    case Lose(k) => if k < |net.mail| then net.(mail := Without(net.mail, k)) else net
    case WithdrawLate(n, now) => if Known(net, n) then net.(nodes := net.nodes[n := CheckTimeouts(net.nodes[n], now)]) else net
    case ReleaseOne(n, id) => if Known(net, n) then GiveUp(net, n, {id}) else net
    case Expire(n, now) => if Known(net, n) then GiveUp(net, n, ExpiredIds(net.nodes[n], now)) else net
  }

  function Run(net: Net, events: seq<Event>): Net {
    if events == [] then net else Next(Run(net, events[..|events|-1]), events[|events|-1])
  }

  ghost predicate Initial(net: Net) {
    && net.nodes.Keys == net.configs.Keys && (forall n :: n in net.nodes ==> net.nodes[n] == EMPTY)
    && net.mail == [] && net.taken == net.given == multiset{}
  }

  // ---------------------------------------------------------------------
  // Counting custodians and acceptances
  // ---------------------------------------------------------------------

  function Custodians(nodes: map<NodeId, State>, id: BundleId): set<NodeId> {
    set n | n in nodes && id in nodes[n].records
  }

  function Acceptances(mail: seq<Envelope>, id: BundleId): nat {
    if mail == [] then 0
    else Acceptances(mail[..|mail|-1], id) + if mail[|mail|-1].content == AcceptOf(id) then 1 else 0
  }

  lemma {:induction false} AcceptancesAppend(a: seq<Envelope>, b: seq<Envelope>, id: BundleId)
    ensures Acceptances(a + b, id) == Acceptances(a, id) + Acceptances(b, id)
  {
    if b == [] {
      assert a + b == a;
    } else {
      var n := |b| - 1;
      AcceptancesAppend(a, b[..n], id);
      assert (a + b)[..|a + b| - 1] == a + b[..n];
    }
  }

  lemma AcceptancesWithout(mail: seq<Envelope>, k: nat, id: BundleId)
    requires k < |mail|
    ensures Acceptances(mail, id) == Acceptances(Without(mail, k), id) + if mail[k].content == AcceptOf(id) then 1 else 0
  {
    var a, e, b := mail[..k], [mail[k]], mail[k+1..];
    assert mail == (a + e) + b;
    AcceptancesAppend(a + e, b, id);
    AcceptancesAppend(a, e, id);
    AcceptancesAppend(a, b, id);
    assert e[..0] == [];
  }

  lemma SizeWithout<T>(s: set<T>, x: T)
    ensures |s| == |s - {x}| + if x in s then 1 else 0
  {
    assert s == (s - {x}) + if x in s then {x} else {};
  }

  lemma CustodiansUpdate(nodes: map<NodeId, State>, n: NodeId, s: State, id: BundleId)
    requires n in nodes
    ensures |Custodians(nodes[n := s], id)| + (if id in nodes[n].records then 1 else 0)
         == |Custodians(nodes, id)| + (if id in s.records then 1 else 0)
  {
    var before, after := Custodians(nodes, id), Custodians(nodes[n := s], id);
    assert n in before <==> id in nodes[n].records;
    assert n in after <==> id in s.records;
    assert before - {n} == after - {n};
    hide Custodians;
    SizeWithout(before, n);
    SizeWithout(after, n);
  }

  // ---------------------------------------------------------------------
  // The invariant
  // ---------------------------------------------------------------------

  /** Custodies held or knowingly ended cover every custody taken at a source and every acceptance still in flight. */
  ghost predicate Covered(nodes: map<NodeId, State>, mail: seq<Envelope>, taken: multiset<BundleId>, given: multiset<BundleId>, id: BundleId) {
    |Custodians(nodes, id)| + given[id] >= taken[id] + Acceptances(mail, id)
  }

  ghost predicate Inv(net: Net) {
    && net.nodes.Keys == net.configs.Keys
    && (forall n :: n in net.nodes ==> Sound(net.configs[n], net.nodes[n]))
    && (forall id :: Covered(net.nodes, net.mail, net.taken, net.given, id))
  }

  /** Replacing one node's state by a sound one, when custody of `id` and the counters move together. */
  lemma CoverMoves(net: Net, n: NodeId, s: State, mail: seq<Envelope>, taken: multiset<BundleId>, given: multiset<BundleId>, id: BundleId)
    requires n in net.nodes && Covered(net.nodes, net.mail, net.taken, net.given, id)
    requires (if id in s.records then 1 else 0) - (if id in net.nodes[n].records then 1 else 0)
           + given[id] - net.given[id]
          >= taken[id] - net.taken[id] + Acceptances(mail, id) - Acceptances(net.mail, id)
    ensures Covered(net.nodes[n := s], mail, taken, given, id)
  {
    CustodiansUpdate(net.nodes, n, s, id);
  }

  lemma OriginateKeepsInv(net: Net, n: NodeId, b: Bundle, utc: int, now: int)
    requires Inv(net) && Known(net, n)
    ensures Inv(OriginateAt(net, n, b, utc, now))
  {
    hide Covered, Accept;
    var r := OriginateAt(net, n, b, utc, now);
    var (s, o) := Accept(net.configs[n], net.nodes[n], b, None, utc, now);
    if o.Done? {
      forall id ensures Covered(r.nodes, r.mail, r.taken, r.given, id) {
        CoverMoves(net, n, s, r.mail, r.taken, r.given, id);
      }
    }
  }

  lemma OfferKeepsInv(net: Net, n: NodeId, b: Bundle, to: NodeId, now: int)
    requires Inv(net) && Known(net, n)
    ensures Inv(OfferFrom(net, n, b, to, now))
  {
    hide Covered, OfferTo;
    var r := OfferFrom(net, n, b, to, now);
    var (s, o) := OfferTo(net.configs[n], net.nodes[n], b.id, to, now);
    if o.Done? {
      forall id ensures Covered(r.nodes, r.mail, r.taken, r.given, id) {
        OneMore(net.mail, Envelope(n, to, OfferOf(b)), id);
        CoverMoves(net, n, s, r.mail, r.taken, r.given, id);
      }
    }
  }

  lemma OneMore(mail: seq<Envelope>, e: Envelope, id: BundleId)
    ensures Acceptances(mail + [e], id) == Acceptances(mail, id) + if e.content == AcceptOf(id) then 1 else 0
  {
    assert (mail + [e])[..|mail|] == mail;
  }

  /** Everything but a received acceptance leaves at least as much cover as before. */
  ghost predicate Spare(net: Net, lost: Content) {
    && net.nodes.Keys == net.configs.Keys
    && (forall n :: n in net.nodes ==> Sound(net.configs[n], net.nodes[n]))
    && (forall id :: |Custodians(net.nodes, id)| + net.given[id]
                  >= net.taken[id] + Acceptances(net.mail, id) + if lost == AcceptOf(id) then 1 else 0)
  }

  lemma TakeOut(net: Net, k: nat)
    requires Inv(net) && k < |net.mail|
    ensures Spare(net.(mail := Without(net.mail, k)), net.mail[k].content)
    ensures Inv(net.(mail := Without(net.mail, k)))
  {
    hide Without, Acceptances, Custodians, Sound;
    var m := Without(net.mail, k);
    forall id
      ensures |Custodians(net.nodes, id)| + net.given[id] >= net.taken[id] + Acceptances(m, id) + if net.mail[k].content == AcceptOf(id) then 1 else 0
      ensures Covered(net.nodes, m, net.taken, net.given, id)
    {
      assert Covered(net.nodes, net.mail, net.taken, net.given, id);
      AcceptancesWithout(net.mail, k, id);
    }
  }

  lemma ReceiveOfferKeepsInv(net: Net, n: NodeId, from: NodeId, b: Bundle, willing: bool, utc: int, now: int)
    requires Inv(net) && Known(net, n)
    ensures Inv(ReceiveOffer(net, n, from, b, willing, utc, now))
  {
    hide Covered, Accept, Acceptances;
    var r := ReceiveOffer(net, n, from, b, willing, utc, now);
    var (s, o) := Accept(net.configs[n], net.nodes[n], b, Some(from), utc, now);
    var yes := willing && o.Done?;
    forall id ensures Covered(r.nodes, r.mail, r.taken, r.given, id) {
      OneMore(net.mail, Envelope(n, from, if yes then AcceptOf(b.id) else RefuseOf(b.id)), id);
      assert net.nodes[n := net.nodes[n]] == net.nodes;
      CoverMoves(net, n, if yes then s else net.nodes[n], r.mail, r.taken, r.given, id);
    }
  }

  lemma PendingInRecords(c: Config, s: State, id: BundleId)
    requires Sound(c, s)
    ensures id in s.pending ==> id in s.records
  {
  }

  /** An acceptance that ends our custody is covered by the acceptance that is no longer in flight. */
  lemma ReceiveReplyKeepsInv(net: Net, n: NodeId, id: BundleId, accepted: bool)
    requires Known(net, n) && Spare(net, if accepted then AcceptOf(id) else RefuseOf(id))
    ensures Inv(ReceiveReply(net, n, id, accepted))
  {
    hide HandleAcceptance, Acceptances, Custodians, Sound;
    var s, r := HandleAcceptance(net.nodes[n], id, accepted).0, ReceiveReply(net, n, id, accepted);
    HandlingStaysSound(net.configs[n], net.nodes[n], id, accepted);
    assert id in net.nodes[n].pending ==> id in net.nodes[n].records by { PendingInRecords(net.configs[n], net.nodes[n], id); }
    forall x ensures Covered(r.nodes, r.mail, r.taken, r.given, x) {
      CustodiansUpdate(net.nodes, n, s, x);
    }
  }

  lemma OneEach(given: multiset<BundleId>, ids: set<BundleId>, id: BundleId)
    ensures (given + multiset(ids))[id] == given[id] + if id in ids then 1 else 0
  {
  }

  lemma GiveUpKeepsInv(net: Net, n: NodeId, ids: set<BundleId>)
    requires Inv(net) && Known(net, n)
    ensures Inv(GiveUp(net, n, ids))
  {
    hide Covered, Acceptances, Sound, Release;
    var r := GiveUp(net, n, ids);
    ReleaseStaysSound(net.configs[n], net.nodes[n], ids);
    forall id ensures Covered(r.nodes, r.mail, r.taken, r.given, id) {
      OneEach(net.given, ids * net.nodes[n].records.Keys, id);
      CoverMoves(net, n, r.nodes[n], r.mail, r.taken, r.given, id);
    }
  }

  lemma WithdrawKeepsInv(net: Net, n: NodeId, now: int)
    requires Inv(net) && Known(net, n)
    ensures Inv(net.(nodes := net.nodes[n := CheckTimeouts(net.nodes[n], now)]))
  {
    hide Covered, Acceptances, Sound, Withdrawn, LateOffers;
    var s := CheckTimeouts(net.nodes[n], now);
    var r := net.(nodes := net.nodes[n := s]);
    WithdrawnStaysSound(net.configs[n], net.nodes[n], LateOffers(net.nodes[n], now));
    forall id ensures Covered(r.nodes, r.mail, r.taken, r.given, id) {
      CoverMoves(net, n, s, r.mail, r.taken, r.given, id);
    }
  }

  lemma SpareIsInv(net: Net, lost: Content)
    requires Spare(net, lost)
    ensures Inv(net)
  {
  }

  lemma NextKeepsInv(net: Net, e: Event)
    requires Inv(net)
    ensures Inv(Next(net, e))
  {
    hide Inv, Spare, OriginateAt, OfferFrom, ReceiveOffer, ReceiveReply, GiveUp, CheckTimeouts, Without, ExpiredIds;
    match e {
      case Originate(n, b, utc, now) => if Known(net, n) { OriginateKeepsInv(net, n, b, utc, now); }
      case SendOffer(n, b, to, now) => if Known(net, n) { OfferKeepsInv(net, n, b, to, now); }
      case Deliver(k, willing, utc, now) =>
        if k < |net.mail| {
          TakeOut(net, k);
          ReceiveKeepsInv(net.(mail := Without(net.mail, k)), net.mail[k], willing, utc, now);
        }
      case Lose(k) => if k < |net.mail| { TakeOut(net, k); }
      case WithdrawLate(n, now) => if Known(net, n) { WithdrawKeepsInv(net, n, now); }
      case ReleaseOne(n, id) => if Known(net, n) { GiveUpKeepsInv(net, n, {id}); }
      case Expire(n, now) => if Known(net, n) { GiveUpKeepsInv(net, n, ExpiredIds(net.nodes[n], now)); }
    }
  }

  lemma ReceiveKeepsInv(net: Net, e: Envelope, willing: bool, utc: int, now: int)
    requires Spare(net, e.content)
    ensures Inv(Receive(net, e, willing, utc, now))
  {
    hide Inv, Spare, ReceiveOffer, ReceiveReply;
    SpareIsInv(net, e.content);
    if Known(net, e.to) {
      match e.content {
        case OfferOf(b) => ReceiveOfferKeepsInv(net, e.to, e.from, b, willing, utc, now);
        case AcceptOf(id) => ReceiveReplyKeepsInv(net, e.to, id, true);
        case RefuseOf(id) => ReceiveReplyKeepsInv(net, e.to, id, false);
      }
    }
  }

  lemma {:induction false} RunKeepsInv(net: Net, events: seq<Event>)
    requires Inv(net)
    ensures Inv(Run(net, events))
  {
    hide Inv, Next;
    if events != [] {
      RunKeepsInv(net, events[..|events|-1]);
      NextKeepsInv(Run(net, events[..|events|-1]), events[|events|-1]);
    }
  }

  lemma InitialInv(net: Net)
    requires Initial(net)
    ensures Inv(net)
  {
    forall id ensures Covered(net.nodes, net.mail, net.taken, net.given, id) { }
  }

  /** After every run, for every bundle: custodians plus custodies knowingly ended are at least the custodies taken at
      the source plus the acceptances in flight. So a bundle whose source took custody, and which no custodian released
      or let expire, still has a custodian. And at every node offers concern custody held, within capacity. */
  lemma CustodyIsNeverSilentlyLost(net: Net, events: seq<Event>, id: BundleId)
    requires Initial(net)
    ensures var r := Run(net, events);
            && |Custodians(r.nodes, id)| + r.given[id] >= r.taken[id] + Acceptances(r.mail, id)
            && (r.taken[id] > r.given[id] ==> exists n :: n in r.nodes && id in r.nodes[n].records)
            && (forall n :: n in r.nodes ==> n in r.configs && Sound(r.configs[n], r.nodes[n]))
  {
    hide Run, Sound, Acceptances, Initial;
    InitialInv(net);
    RunKeepsInv(net, events);
    var r := Run(net, events);
    assert Covered(r.nodes, r.mail, r.taken, r.given, id);
    if r.taken[id] > r.given[id] {
      assert |Custodians(r.nodes, id)| > 0;
      var n :| n in Custodians(r.nodes, id);
    }
  }

  // ---------------------------------------------------------------------
  // Why duplication must be excluded
  // ---------------------------------------------------------------------

  const ID := BundleId(1, 0, 0)
  const BUNDLE := Bundle(ID, 9, 0, 10, 1, {})

  /** Three nodes; the third never takes part. The source of BUNDLE has taken custody of it. */
  function Three(s0: State, s1: State, mail: seq<Envelope>, taken: multiset<BundleId>): Net {
    Net(map[0 := Config(1, 5), 1 := Config(1, 5), 2 := Config(1, 5)], map[0 := s0, 1 := s1, 2 := EMPTY], mail, taken, multiset{})
  }

  function Holds(from: Option<NodeId>): State { State(map[ID := Record(0, from, 9, 10, 0)], map[]) }

  function Offers(from: Option<NodeId>, to: NodeId): State { Holds(from).(pending := map[ID := Offer(to, 0, 5)]) }

  const FIRST := [Originate(0, BUNDLE, 0, 0), SendOffer(0, BUNDLE, 1, 0), Deliver(0, true, 0, 0)]
  const THEN := [Deliver(0, true, 0, 0), SendOffer(1, BUNDLE, 0, 0), Deliver(1, true, 0, 0), Deliver(1, true, 0, 0),
                 SendOffer(0, BUNDLE, 2, 0), Deliver(0, true, 0, 0), Lose(0)]

  const OLD := Envelope(1, 0, AcceptOf(ID))

  predicate Ready(net: Net, n: NodeId) { n in net.nodes && n in net.configs && net.configs[n] == Config(1, 5) }

  function Put(net: Net, n: NodeId, s: State, mail: seq<Envelope>): Net { net.(nodes := net.nodes[n := s], mail := mail) }

  lemma OfferStep(net: Net, n: NodeId, from: Option<NodeId>, to: NodeId)
    requires Ready(net, n) && net.nodes[n] == Holds(from)
    ensures Next(net, SendOffer(n, BUNDLE, to, 0)) == Put(net, n, Offers(from, to), net.mail + [Envelope(n, to, OfferOf(BUNDLE))])
  {
  }

  lemma AcceptsFresh(from: Option<NodeId>)
    ensures Accept(Config(1, 5), EMPTY, BUNDLE, from, 0, 0) == (Holds(from), Done)
  {
  }

  lemma TakeStep(net: Net, k: nat, n: NodeId, from: NodeId)
    requires k < |net.mail| && net.mail[k] == Envelope(from, n, OfferOf(BUNDLE)) && Ready(net, n) && net.nodes[n] == EMPTY
    ensures Next(net, Deliver(k, true, 0, 0)) == Put(net, n, Holds(Some(from)), Without(net.mail, k) + [Envelope(n, from, AcceptOf(ID))])
  {
    hide Accept, Holds, Without;
    AcceptsFresh(Some(from));
  }

  lemma EndStep(net: Net, k: nat, n: NodeId, sender: NodeId, from: Option<NodeId>, to: NodeId)
    requires k < |net.mail| && net.mail[k] == Envelope(sender, n, AcceptOf(ID)) && Ready(net, n) && net.nodes[n] == Offers(from, to)
    ensures Next(net, Deliver(k, true, 0, 0)) == Put(net, n, EMPTY, Without(net.mail, k))
  {
    assert HandleAcceptance(Offers(from, to), ID, true).0 == EMPTY;
  }

  lemma PutThree(s0: State, s1: State, t: State, mail: seq<Envelope>, later: seq<Envelope>, taken: multiset<BundleId>)
    ensures Put(Three(s0, s1, mail, taken), 0, t, later) == Three(t, s1, later, taken)
    ensures Put(Three(s0, s1, mail, taken), 1, t, later) == Three(s0, t, later, taken)
  {
    var nodes := map[0 := s0, 1 := s1, 2 := EMPTY];
    assert nodes[0 := t] == map[0 := t, 1 := s1, 2 := EMPTY];
    assert nodes[1 := t] == map[0 := s0, 1 := t, 2 := EMPTY];
  }

  lemma Extend(net: Net, events: seq<Event>, k: nat)
    requires k < |events|
    ensures Run(net, events[..k+1]) == Next(Run(net, events[..k]), events[k])
  {
    assert events[..k+1][..k] == events[..k];
  }

  lemma FirstPart()
    ensures Initial(Three(EMPTY, EMPTY, [], multiset{}))
    ensures Run(Three(EMPTY, EMPTY, [], multiset{}), FIRST) == Three(Offers(None, 1), Holds(Some(0)), [OLD], multiset{ID})
  {
    hide Next, Put, Run, Three, Holds, Offers;
    var net, one := Three(EMPTY, EMPTY, [], multiset{}), multiset{ID};
    Starts();
    Extend(net, FIRST, 0);
    Extend(net, FIRST, 1);
    Extend(net, FIRST, 2);
    var a := Three(Holds(None), EMPTY, [], one);
    var m := [Envelope(0, 1, OfferOf(BUNDLE))];
    var b := Three(Offers(None, 1), EMPTY, m, one);
    OfferFirst(a, b);
    TakeFirst(b);
    assert FIRST[..3] == FIRST;
  }

  lemma Starts()
    ensures var net := Three(EMPTY, EMPTY, [], multiset{});
            Initial(net) && Run(net, FIRST[..0]) == net && Next(net, FIRST[0]) == Three(Holds(None), EMPTY, [], multiset{ID})
  {
    hide Accept, Holds;
    AcceptsFresh(None);
    PutThree(EMPTY, EMPTY, Holds(None), [], [], multiset{ID});
  }

  lemma OfferFirst(a: Net, b: Net)
    requires a == Three(Holds(None), EMPTY, [], multiset{ID})
    requires b == Three(Offers(None, 1), EMPTY, [Envelope(0, 1, OfferOf(BUNDLE))], multiset{ID})
    ensures Next(a, FIRST[1]) == b
  {
    OfferStep(a, 0, None, 1);
    PutThree(Holds(None), EMPTY, Offers(None, 1), [], b.mail, multiset{ID});
  }

  lemma TakeFirst(b: Net)
    requires b == Three(Offers(None, 1), EMPTY, [Envelope(0, 1, OfferOf(BUNDLE))], multiset{ID})
    ensures Next(b, FIRST[2]) == Three(Offers(None, 1), Holds(Some(0)), [OLD], multiset{ID})
  {
    TakeStep(b, 0, 1, 0);
    PutThree(Offers(None, 1), EMPTY, Holds(Some(0)), b.mail, [OLD], multiset{ID});
  }

  /** The first acceptance ends the source's custody; the receiver then hands custody back. */
  lemma HandBack(net: Net)
    requires net == Three(Offers(None, 1), Holds(Some(0)), [OLD, OLD], multiset{ID})
    ensures Run(net, THEN[..3]) == Three(Holds(Some(1)), Offers(Some(0), 0), [OLD, Envelope(0, 1, AcceptOf(ID))], multiset{ID})
  {
    hide Next, Run, Put;
    Extend(net, THEN, 0);
    Extend(net, THEN, 1);
    Extend(net, THEN, 2);
    RunOfNone(net);
    var one := multiset{ID};
    var a := Three(EMPTY, Holds(Some(0)), [OLD], one);
    EndStep(net, 0, 0, 1, None, 1);
    assert Without(net.mail, 0) == [OLD];
    PutThree(Offers(None, 1), Holds(Some(0)), EMPTY, net.mail, [OLD], one);
    assert Run(net, THEN[..1]) == a;
    var b := Three(EMPTY, Offers(Some(0), 0), [OLD, Envelope(1, 0, OfferOf(BUNDLE))], one);
    OfferStep(a, 1, Some(0), 0);
    assert a.mail + [Envelope(1, 0, OfferOf(BUNDLE))] == b.mail;
    PutThree(EMPTY, Holds(Some(0)), Offers(Some(0), 0), a.mail, b.mail, one);
    assert Run(net, THEN[..2]) == b;
    TakeStep(b, 1, 0, 1);
    assert Without(b.mail, 1) + [Envelope(0, 1, AcceptOf(ID))] == [OLD, Envelope(0, 1, AcceptOf(ID))];
    PutThree(EMPTY, Offers(Some(0), 0), Holds(Some(1)), b.mail, [OLD, Envelope(0, 1, AcceptOf(ID))], one);
  }

  /** The second copy of the old acceptance arrives while the source has an offer open that nobody accepted. */
  lemma LoseIt(net: Net)
    requires Run(net, THEN[..3]) == Three(Holds(Some(1)), Offers(Some(0), 0), [OLD, Envelope(0, 1, AcceptOf(ID))], multiset{ID})
    ensures Run(net, THEN) == Three(EMPTY, EMPTY, [], multiset{ID})
  {
    hide Next, Run, Put;
    Extend(net, THEN, 3);
    Extend(net, THEN, 4);
    Extend(net, THEN, 5);
    Extend(net, THEN, 6);
    assert THEN[..7] == THEN;
    var one := multiset{ID};
    var a := Run(net, THEN[..3]);
    EndStep(a, 1, 1, 0, Some(0), 0);
    assert Without(a.mail, 1) == [OLD];
    PutThree(Holds(Some(1)), Offers(Some(0), 0), EMPTY, a.mail, [OLD], one);
    var b := Three(Holds(Some(1)), EMPTY, [OLD], one);
    assert Run(net, THEN[..4]) == b;
    var c := Three(Offers(Some(1), 2), EMPTY, [OLD, Envelope(0, 2, OfferOf(BUNDLE))], one);
    OfferStep(b, 0, Some(1), 2);
    assert b.mail + [Envelope(0, 2, OfferOf(BUNDLE))] == c.mail;
    PutThree(Holds(Some(1)), EMPTY, Offers(Some(1), 2), b.mail, c.mail, one);
    assert Run(net, THEN[..5]) == c;
    EndStep(c, 0, 0, 1, Some(1), 2);
    assert Without(c.mail, 0) == [Envelope(0, 2, OfferOf(BUNDLE))];
    PutThree(Offers(Some(1), 2), EMPTY, EMPTY, c.mail, [Envelope(0, 2, OfferOf(BUNDLE))], one);
    LastLoss(Three(EMPTY, EMPTY, [Envelope(0, 2, OfferOf(BUNDLE))], one));
  }

  lemma LastLoss(net: Net)
    requires |net.mail| == 1
    ensures Next(net, Lose(0)) == net.(mail := [])
  {
  }

  lemma RunOfNone(net: Net)
    ensures Run(net, THEN[..0]) == net
  {
  }

  /** If the network may deliver one acceptance twice, a run exists that ends with a bundle whose source took custody,
      which nobody released or let expire, and which nobody holds. */
  lemma DuplicationLosesCustody()
    ensures var start := Three(EMPTY, EMPTY, [], multiset{});
            var before := Run(start, FIRST);
            var after := Run(before.(mail := before.mail + before.mail), THEN);
            && Initial(start) && before.mail == [OLD]
            && after.taken[ID] == 1 && after.given[ID] == 0 && Custodians(after.nodes, ID) == {}
  {
    hide Run, Next;
    FirstPart();
    var before := Run(Three(EMPTY, EMPTY, [], multiset{}), FIRST);
    var twice := before.(mail := before.mail + before.mail);
    assert before.mail + before.mail == [OLD, OLD];
    HandBack(twice);
    LoseIt(twice);
  }
}
