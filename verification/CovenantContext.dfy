/** What covenant processing is given besides the transaction and the name database. */
module CovenantContext {
  import opened Base
  import opened Covenants
  import opened NameState

  datatype Error =
    | WrongAuctionState
    | MalformedCovenant
    | NameNotYetAvailable
    | ParentNameNotFound
    | ParentSubdomainsNotAllowed
    | DnssecProofRejected
    | BidTooLow
    | InvalidStateTransition
    | ValueNotPreserved
    | SubdomainFlagPermanent
    | DelegationNotAllowedWithSubdomains
    | TransferLockupNotMet
    | BurnPaymentInsufficient
    | DevFundPaymentInsufficient
    | MissingSnapshot
    | MissingBlock

  datatype Rules = Rules(
    params: NameParams,
    hashName: Bytes -> Hash,
    verifyName: Bytes -> bool,
    isAvailable: (Hash, nat, Bytes) -> bool,
    openProof: (Output, Bytes) -> bool,
    bidProof: (Output, Bytes) -> bool,
    delegates: Bytes -> bool,
    blind: (nat, Bytes) -> Hash)

  /** The part of the header index a renewal may refer to. */
  datatype ChainIndex = ChainIndex(heightOf: map<Hash, nat>, byHeight: map<nat, Hash>)

  /** What stays fixed while one block's covenants are processed. */
  datatype Context = Context(
    rules: Rules,
    height: nat,
    view: map<Outpoint, Output>,
    utxo: map<Outpoint, Output>,
    chain: ChainIndex,
    devFund: Address)
}
