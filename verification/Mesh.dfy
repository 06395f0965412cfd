/** Mesh topologies (simulation/src/topology.rs). */
module Mesh {
  import opened Common
  import opened SimTypes
  import opened SimRuns

  /** PeerId::new: capital letters only. */
  predicate IsPeerLetter(c: nat) { 'A' as nat <= c <= 'Z' as nat }

  /** An edge list joins x and y, in either direction. */
  ghost predicate Joins(edges: seq<(nat, nat)>, x: PeerId, y: PeerId) {
    x != y && ((x, y) in edges || (y, x) in edges)
  }

  /** Endpoints of the edges that join two different peers. */
  ghost predicate Mentions(edges: seq<(nat, nat)>, x: PeerId) { exists y :: Joins(edges, x, y) }

  ghost predicate Edge(adjacency: map<PeerId, set<PeerId>>, a: PeerId, b: PeerId) { a in adjacency && b in adjacency[a] }

  /** Interfaces are the edges under their normalized keys. */
  ghost predicate InterfacesOk(adjacency: map<PeerId, set<PeerId>>, interfaces: set<(PeerId, PeerId)>) {
    forall a: PeerId, b: PeerId :: (a, b) in interfaces <==> a < b && Edge(adjacency, a, b)
  }

  function JoinedPeers(peers: map<PeerId, PeerState>, a: PeerId, b: PeerId): map<PeerId, PeerState>
    requires a in peers && b in peers && a != b
  {
    peers[a := peers[a].(connections := peers[a].connections + {b})][b := peers[b].(connections := peers[b].connections + {a})]
  }

  function Joined(adjacency: map<PeerId, set<PeerId>>, a: PeerId, b: PeerId): map<PeerId, set<PeerId>>
    requires a in adjacency && b in adjacency && a != b
  {
    adjacency[a := adjacency[a] + {b}][b := adjacency[b] + {a}]
  }

  lemma JoinedEdges(adjacency: map<PeerId, set<PeerId>>, a: PeerId, b: PeerId)
    requires a in adjacency && b in adjacency && a != b
    ensures forall x, y :: Edge(Joined(adjacency, a, b), x, y) <==> Edge(adjacency, x, y) || Joins([(a, b)], x, y)
  {
  }

  lemma JoinedKeeps(peers: map<PeerId, PeerState>, a: PeerId, b: PeerId)
    requires a in peers && b in peers && a != b
    ensures JoinedPeers(peers, a, b).Keys == peers.Keys
    ensures forall p :: p in peers ==> JoinedPeers(peers, a, b)[p].(connections := {}) == peers[p].(connections := {})
  {
  }

  lemma JoinedMesh(peers: map<PeerId, PeerState>, adjacency: map<PeerId, set<PeerId>>, a: PeerId, b: PeerId)
    requires MeshOk(peers, adjacency) && a in peers && b in peers && a != b
    ensures MeshOk(JoinedPeers(peers, a, b), Joined(adjacency, a, b))
  {
  }

  lemma JoinedInterfaces(adjacency: map<PeerId, set<PeerId>>, interfaces: set<(PeerId, PeerId)>, a: PeerId, b: PeerId)
    requires InterfacesOk(adjacency, interfaces) && a in adjacency && b in adjacency && a != b
    ensures InterfacesOk(Joined(adjacency, a, b), interfaces + {if a < b then (a, b) else (b, a)})
  {
    JoinedEdges(adjacency, a, b);
    hide Joined, Edge;
  }

  class Mesh {
    var peers: map<PeerId, PeerState>
    var adjacency: map<PeerId, set<PeerId>>
    /** One interface per edge, under its normalized key. */
    var interfaces: set<(PeerId, PeerId)>

    ghost predicate Linked(a: PeerId, b: PeerId)
      reads this
    {
      Edge(adjacency, a, b)
    }

    /** Adjacency is symmetric and irreflexive, agrees with every peer's connections, and interfaces are its edges. */
    ghost predicate Valid()
      reads this
    {
      MeshOk(peers, adjacency) && InterfacesOk(adjacency, interfaces)
    }

    constructor ()
      ensures Valid() && peers == map[] && adjacency == map[] && interfaces == {}
    {
      peers, adjacency, interfaces := map[], map[], {};
    }

    method AddPeer(id: PeerId)
      requires Valid()
      modifies this
      ensures Valid() && id in peers && id in adjacency && interfaces == old(interfaces)
      ensures peers == if id in old(peers) then old(peers) else old(peers)[id := NewPeer(id)]
      ensures adjacency == if id in old(peers) then old(adjacency) else old(adjacency)[id := {}]
      ensures forall x, y :: Linked(x, y) <==> old(Linked(x, y))
    {
      if id !in peers {
        peers := peers[id := NewPeer(id)];
        adjacency := adjacency[id := {}];
      }
    }

    /** The second half of connect: both ends exist. */
    method Link(a: PeerId, b: PeerId)
      requires Valid() && a in peers && b in peers && a in adjacency && b in adjacency && a != b
      modifies this
      ensures Valid() && peers == JoinedPeers(old(peers), a, b) && adjacency == Joined(old(adjacency), a, b)
    {
      JoinedMesh(peers, adjacency, a, b);
      JoinedInterfaces(adjacency, interfaces, a, b);
      hide MeshOk, InterfacesOk;
      adjacency := adjacency[a := adjacency[a] + {b}];
      adjacency := adjacency[b := adjacency[b] + {a}];
      peers := peers[a := peers[a].(connections := peers[a].connections + {b})];
      peers := peers[b := peers[b].(connections := peers[b].connections + {a})];
      interfaces := interfaces + {if a < b then (a, b) else (b, a)};
    }

    /** Adds exactly one undirected edge, and its endpoints if they are new; a self-loop changes nothing. */
    method Connect(a: PeerId, b: PeerId)
      requires Valid()
      modifies this
      ensures Valid()
      ensures forall x, y :: Linked(x, y) <==> old(Linked(x, y)) || Joins([(a, b)], x, y)
      ensures peers.Keys == if a == b then old(peers.Keys) else old(peers.Keys) + {a, b}
      ensures forall p :: p in peers ==>
                peers[p].(connections := {}) == (if p in old(peers) then old(peers)[p] else NewPeer(p)).(connections := {})
    {
      hide MeshOk, InterfacesOk, Edge, Joins, Joined, JoinedPeers;
      if a == b {
        NoLoops(a);
        return;
      }
      AddPeer(a);
      AddPeer(b);
      JoinedEdges(adjacency, a, b);
      JoinedKeeps(peers, a, b);
      Link(a, b);
    }

    function AreConnected(a: PeerId, b: PeerId): (r: bool)
      reads this
      requires Valid()
      ensures r == Linked(a, b) == Linked(b, a)
    {
      a in adjacency && b in adjacency[a]
    }

    /** Exactly the peers linked to both. */
    function MutualPeers(a: PeerId, b: PeerId): (r: set<PeerId>)
      reads this
      requires Valid()
      ensures forall x :: x in r <==> Linked(x, a) && Linked(x, b)
    {
      if a in adjacency && b in adjacency then adjacency[a] * adjacency[b] else {}
    }
  }

  /** from_edges, which panics on a letter that is not a capital: then `mesh` is null. Otherwise the mesh has exactly
      the listed edges, the endpoints of its edges as peers, and nobody has used it yet. */
  method FromEdges(edges: seq<(nat, nat)>) returns (mesh: Mesh?)
    ensures mesh == null <==> exists e :: e in edges && !(IsPeerLetter(e.0) && IsPeerLetter(e.1))
    ensures mesh != null ==>
              && fresh(mesh) && mesh.Valid() && Unused(mesh.peers)
              && (forall x, y :: mesh.Linked(x, y) <==> Joins(edges, x, y))
              && (forall x :: x in mesh.peers <==> Mentions(edges, x))
              && (forall x :: x in mesh.peers ==> mesh.peers[x].(connections := {}) == NewPeer(x))
  {
    hide MeshOk, InterfacesOk, Edge, Joins;
    mesh := new Mesh();
    NothingJoined();
    for i := 0 to |edges|
      invariant mesh != null && fresh(mesh) && mesh.Valid()
      invariant forall e :: e in edges[..i] ==> IsPeerLetter(e.0) && IsPeerLetter(e.1)
      invariant forall x, y :: mesh.Linked(x, y) <==> Joins(edges[..i], x, y)
      invariant forall x :: x in mesh.peers <==> Mentions(edges[..i], x)
      invariant forall x :: x in mesh.peers ==> mesh.peers[x].(connections := {}) == NewPeer(x)
    {
      var (a, b) := edges[i];
      if !IsPeerLetter(a) || !IsPeerLetter(b) {
        assert edges[i] in edges;
        mesh := null;
        return;
      }
      assert edges[..i+1] == edges[..i] + [(a, b)];
      JoinsMore(edges[..i], a, b);
      mesh.Connect(a, b);
    }
    assert edges[..|edges|] == edges;
  }

  lemma NoLoops(a: PeerId)
    ensures forall x, y :: !Joins([(a, a)], x, y)
  {
  }

  lemma NothingJoined()
    ensures forall x, y :: !Joins([], x, y) && !Edge(map[], x, y)
    ensures forall x :: !Mentions([], x)
  {
  }

  lemma JoinsMore(edges: seq<(nat, nat)>, a: PeerId, b: PeerId)
    ensures forall x, y :: Joins(edges + [(a, b)], x, y) <==> Joins(edges, x, y) || Joins([(a, b)], x, y)
    ensures forall x :: Mentions(edges + [(a, b)], x) <==> Mentions(edges, x) || (a != b && (x == a || x == b))
  {
    forall x, y ensures Joins(edges + [(a, b)], x, y) <==> Joins(edges, x, y) || Joins([(a, b)], x, y) { }
    forall x ensures Mentions(edges + [(a, b)], x) <==> Mentions(edges, x) || (a != b && (x == a || x == b)) {
      if Mentions(edges, x) {
        var y :| Joins(edges, x, y);
        assert Joins(edges + [(a, b)], x, y);
      }
      if a != b {
        assert Joins([(a, b)], a, b) && Joins([(a, b)], b, a);
        assert Joins(edges + [(a, b)], a, b) && Joins(edges + [(a, b)], b, a);
      }
    }
  }
}
