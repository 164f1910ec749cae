/** The values that consensus messages carry. */
module Ballots {
  /** Block hashes are taken as injective names; the all-zero hash stands for `nil`. */
  type Hash = nat

  const EMPTY_HASH: Hash := 0

  type Peer = nat

  datatype Option<+T> = None | Some(value: T)

  datatype VoteType = Prevote | Precommit

  datatype SignatureType = ECDSA | BLS

  /** A signed vote. `signer` is the validator whose key made the signature. */
  datatype Vote = Vote(
    height: nat, round: nat, kind: VoteType, hash: Hash, index: nat,
    scheme: SignatureType, signer: nat)

  /** The fixed facts of one height: its number, the signature scheme in force, the voting
      powers, and which validators do not follow the protocol. */
  datatype Committee = Committee(height: nat, scheme: SignatureType, powers: seq<nat>, faulty: set<nat>)
  {
    predicate Honest(i: nat) { i < |powers| && i !in faulty }

    /** Whether signature and address of `v` check out against the validator set. */
    predicate Verifies(v: Vote) { v.index < |powers| && v.signer == v.index }
  }
}
