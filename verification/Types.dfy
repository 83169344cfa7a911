/** Identifiers and the overlay parameters of the router. Identifiers are only ever compared. */
module Types {
  type PeerId(==, !new)
  type Topic(==, !new)
  type MsgId(==, !new)
  type IP(==, !new)

  /** Degree parameters and thresholds of a mesh. */
  datatype MeshParams = MeshParams(
    D: nat, Dlo: nat, Dhi: nat, Dscore: nat, Dout: nat,
    opportunisticGraftPeers: nat, gossipThreshold: real, opportunisticGraftThreshold: real)
  {
    /** The relations the parameters' documentation asks for. */
    ghost predicate Documented() {
      Dscore <= D && Dlo <= D <= Dhi && Dout < Dlo && 2 * Dout <= D
    }
  }
}
