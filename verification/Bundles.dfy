/** DTN bundles (crates/indras-dtn/src/bundle.rs): the fields custody and routing read. Times are whole milliseconds. */
module Bundles {

  type NodeId = nat

  datatype BundleId = BundleId(sourceHash: nat, created: int, sequence: nat)

  /** A byte-wide counter. */
  type u8 = x: int | 0 <= x < 256

  datatype Bundle = Bundle(
    id: BundleId, destination: NodeId, createdAt: int, lifetime: int, copies: u8, visited: set<NodeId>)
  {
    function Age(utc: int): int { utc - createdAt }

    predicate IsExpired(utc: int) { Age(utc) >= lifetime }

    function TimeToLive(utc: int): (ttl: int)
      ensures ttl >= 0 && (ttl == 0 <==> IsExpired(utc))
    {
      if Age(utc) >= lifetime then 0 else lifetime - Age(utc)
    }
  }
}
