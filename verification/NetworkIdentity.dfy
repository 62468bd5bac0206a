/** Chain identity: the configured chain id and the immutable anchor block (production-config.ts). */
module NetworkIdentity {
  import opened Wrappers
  import opened Text
  import opened Chain

  datatype Identity = Identity(chainId: nat, anchorBlock: nat, anchorHash: string)

  /** `noblePayNetworkIdentityMatches` on the answers of `getNetwork` and `getBlock(anchor)`. */
  predicate Matches(identity: Identity, chainId: nat, anchor: Option<Header>) {
    && chainId == identity.chainId
    && anchor.Some?
    && anchor.value.number == identity.anchorBlock
    && Lower(anchor.value.hash) == identity.anchorHash
  }

  /** The configured anchor block is part of this view. */
  ghost predicate Anchored(identity: Identity, view: View) {
    identity.anchorBlock < |view.blocks| && view.blocks[identity.anchorBlock].hash == identity.anchorHash
  }

  /** Both identity answers, each taken at its own moment, matched. */
  ghost predicate IdentitySeen(identity: Identity, run: Run, from: nat, networkAt: nat, anchorAt: nat, to: nat) {
    && from <= networkAt <= to < |run| && from <= anchorAt <= to
    && run[networkAt].chainId == identity.chainId
    && identity.anchorBlock < |run[anchorAt].blocks|
    && Lower(run[anchorAt].blocks[identity.anchorBlock].hash) == identity.anchorHash
  }
}
