/**
 * The stored state of one name and its clock
 * (Sources/Covenants/NameState.swift, Sources/Covenants/NameParams.swift).
 */
module NameState {
  import opened Base
  import opened BlockReward
  import opened Covenants

  type Percent = p: nat | p <= 100

  /** Auction timing, in blocks, and the fee percentages of a network. */
  datatype NameParams = NameParams(
    treeInterval: nat,
    openPeriod: nat,
    biddingPeriod: nat,
    revealPeriod: nat,
    registerDeadline: nat,
    transferLockup: nat,
    renewalWindow: nat,
    renewalPeriod: nat,
    renewalMaturity: nat,
    auctionMaturity: nat,
    renewalFeePercent: Percent,
    registrationBurnPercent: Percent,
    premiumNumerator: nat, premiumDenominator: nat,
    tldNumerator: nat, tldDenominator: nat,
    subNumerator: nat, subDenominator: nat)
  {
    function AuctionLength(): nat {
      openPeriod + biddingPeriod + revealPeriod
    }
  }

  predicate IsSubdomain(rawName: Bytes) {
    DOT in rawName
  }

  datatype Fraction = Fraction(num: nat, den: nat)

  function PriceTier(p: NameParams, rawName: Bytes): Fraction {
    if IsSubdomain(rawName) then Fraction(p.subNumerator, p.subDenominator)
    else if 1 <= |rawName| <= 6 then Fraction(p.premiumNumerator, p.premiumDenominator)
    else Fraction(p.tldNumerator, p.tldDenominator)
  }

  /** Three price tiers, all halving with the block reward; a zero denominator switches one off. */
  function MinimumBid(p: NameParams, height: nat, rawName: Bytes): nat {
    var tier := PriceTier(p, rawName);
    if tier.den == 0 then 0 else GetReward(height, HALVING_INTERVAL) * tier.num / tier.den
  }

  datatype AuctionState = Opening | Bidding | Revealing | Closed | Revoked

  datatype NameState = NameState(
    name: Bytes,
    nameHash: Hash,
    height: nat,
    renewal: nat,
    owner: Option<Outpoint>,
    value: nat,
    highest: nat,
    data: Bytes,
    transfer: nat,
    revoked: nat,
    renewals: nat,
    registered: bool,
    expired: bool,
    flags: Byte,
    parentHash: Hash)
  {
    predicate AuctionsSubdomains() {
      flags % 2 == 1
    }

    /** The state as read back from the tree: the name hash is the key and is not stored. */
    function Stored(): NameState {
      this.(nameHash := ZERO_HASH)
    }

    function RevealEnd(p: NameParams): nat {
      height + p.AuctionLength()
    }

    function RegisterDeadline(p: NameParams): nat {
      RevealEnd(p) + p.registerDeadline
    }

    function StateAt(h: nat, p: NameParams): AuctionState {
      if revoked != 0 then Revoked
      else if registered && h < RevealEnd(p) then Closed
      else if h < height + p.openPeriod then Opening
      else if h < height + p.openPeriod + p.biddingPeriod then Bidding
      else if h < RevealEnd(p) then Revealing
      else Closed
    }

    predicate IsExpired(h: nat, p: NameParams) {
      if registered && height == 0 && value == 0 then false
      else if revoked != 0 then h >= revoked + p.auctionMaturity
      else if StateAt(h, p) != Closed then false
      else
        || h >= renewal + p.renewalWindow
        || owner == None
        || (!registered && h > RegisterDeadline(p))
    }

    /** An expired name starts over at `h`; its data, flags and parent survive. */
    function MaybeExpire(h: nat, p: NameParams): NameState {
      if !IsExpired(h, p) then this
      else this.(height := h, renewal := h, owner := None, value := 0, highest := 0,
                 transfer := 0, revoked := 0, renewals := 0, registered := false, expired := true)
    }

    /** No opening height and nobody holding it: what a never-opened name looks like. */
    predicate IsNull() {
      height == 0 && renewal == 0 && owner == None && value == 0 && highest == 0
    }
  }

  /** What has expired at some height stays expired until somebody resets it. */
  lemma {:induction false} ExpiryStays(ns: NameState, p: NameParams, h: nat, later: nat)
    requires h <= later && ns.IsExpired(h, p)
    ensures ns.IsExpired(later, p)
  {
  }

  /** A registered name with a price lapses at the end of its renewal window, whatever its auction. */
  lemma {:induction false} RegisteredClock(ns: NameState, p: NameParams, h: nat)
    requires ns.registered && ns.revoked == 0 && ns.owner.Some? && (ns.height > 0 || ns.value > 0)
    ensures ns.IsExpired(h, p) <==> h >= ns.renewal + p.renewalWindow
  {
  }

  /** A winner who has not registered keeps the auction until the deadline has passed. */
  lemma {:induction false} WinnerClock(ns: NameState, p: NameParams, h: nat)
    requires !ns.registered && ns.revoked == 0 && ns.owner.Some? && ns.renewal == ns.height
    requires p.AuctionLength() + p.registerDeadline < p.renewalWindow
    ensures ns.IsExpired(h, p) <==> h > ns.RegisterDeadline(p)
  {
  }

  /** The same in every field but the name hash. */
  predicate SameRecord(a: NameState, b: NameState) {
    && a.name == b.name && a.height == b.height && a.renewal == b.renewal && a.owner == b.owner
    && a.value == b.value && a.highest == b.highest && a.data == b.data && a.transfer == b.transfer
    && a.revoked == b.revoked && a.renewals == b.renewals && a.registered == b.registered
    && a.expired == b.expired && a.flags == b.flags && a.parentHash == b.parentHash
  }

  function NewName(nameHash: Hash, name: Bytes): NameState {
    NameState(name, nameHash, 0, 0, None, 0, 0, [], 0, 0, 0, false, false, 0, ZERO_HASH)
  }
}
