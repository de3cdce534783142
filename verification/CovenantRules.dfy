/**
 * Validation of one name covenant (Sources/Chain/CovenantProcessor.swift, lines 37 to 618).
 *
 * Rules that only accept or reject (name characters, rollout, DNSSEC proofs, delegation records,
 * the bid blind) are arbitrary functions of the context.
 */
module CovenantRules {
  import opened Base
  import opened Covenants
  import opened NameState
  import opened NameDB
  import opened CovenantContext
  import opened CovenantFees

  /** A renewal must name a main-chain block of an age within the maturity and renewal periods. */
  predicate VerifyRenewal(ctx: Context, hash: Hash) {
    var p := ctx.rules.params;
    if ctx.height < p.renewalMaturity then true
    else
      && hash in ctx.chain.heightOf
      && var h := ctx.chain.heightOf[hash];
      && h in ctx.chain.byHeight
      && ctx.chain.byHeight[h] == hash
      && p.renewalMaturity <= ctx.height - h <= p.renewalPeriod
  }

  /** The name's current state, created by an OPEN if need be, and reset if it has expired. */
  function Prepare(ctx: Context, c: Covenant, key: Hash, db: Names): Result<NameState, Error> {
    var found := db.Get(key);
    var ns :-
      if (found == None || found.value.IsNull()) && c.kind == Open then
        (match Item(c, 2)
         case None => Err(MalformedCovenant)
         case Some(rawName) => Ok(NewName(key, rawName).(height := ctx.height, renewal := ctx.height)))
      else found.ToResult(WrongAuctionState);
    Ok(ns.MaybeExpire(ctx.height, ctx.rules.params))
  }

  /** The coin spent by the input at the same position as the output. */
  function MatchingCoin(ctx: Context, tx: Transaction, i: nat): Result<Output, Error> {
    if i < |tx.inputs| && tx.inputs[i] in ctx.view then Ok(ctx.view[tx.inputs[i]])
    else Err(MalformedCovenant)
  }

  /** The covenant was made for this round of the auction. */
  function CheckRound(c: Covenant, ns: NameState): Outcome<Error> {
    match HeightOf(c)
    case None => Throw(MalformedCovenant)
    case Some(h) => Guard(h == ns.height, WrongAuctionState)
  }

  /** The matching input spends the owner's coin, whose kind may be followed by `to`. */
  function SpendOwner(ctx: Context, tx: Transaction, i: nat, ns: NameState, to: CovenantType): Result<Output, Error> {
    var coin :- MatchingCoin(ctx, tx, i);
    :- Guard(IsValidTransition(coin.covenant.kind, to), InvalidStateTransition);
    :- Guard(ns.owner == Some(tx.inputs[i]), WrongAuctionState);
    Ok(coin)
  }

  function CheckParent(ctx: Context, c: Covenant, rawName: Bytes, ns: NameState, db: Names): Result<NameState, Error> {
    match ParentHashOf(c)
    case None =>
      :- Guard(!IsSubdomain(rawName), MalformedCovenant);
      Ok(ns)
    case Some(parentHash) =>
      :- Guard(IsSubdomain(rawName), MalformedCovenant);
      var parent :- ParentName(rawName).ToResult(MalformedCovenant);
      :- Guard(parentHash == ctx.rules.hashName(parent), MalformedCovenant);
      var parentState :- db.Get(parentHash).ToResult(ParentNameNotFound);
      :- Guard(parentState.AuctionsSubdomains(), ParentSubdomainsNotAllowed);
      Ok(ns.(parentHash := parentHash))
  }

  function ProcessOpen(ctx: Context, tx: Transaction, i: nat, key: Hash, ns: NameState, db: Names): Result<NameState, Error>
    requires i < |tx.outputs|
  {
    var output := tx.outputs[i];
    :- Guard(ns.StateAt(ctx.height, ctx.rules.params) == Opening, WrongAuctionState);
    :- Guard(ns.height == ctx.height, WrongAuctionState);
    var rawName :- Item(output.covenant, 2).ToResult(MalformedCovenant);
    :- Guard(key == ctx.rules.hashName(rawName), MalformedCovenant);
    :- Guard(ctx.rules.verifyName(rawName), MalformedCovenant);
    :- Guard(ctx.rules.isAvailable(key, ctx.height, rawName), NameNotYetAvailable);
    var linked :- CheckParent(ctx, output.covenant, rawName, ns, db);
    :- Guard(ctx.rules.openProof(output, rawName), DnssecProofRejected);
    Ok(linked)
  }

  function ProcessBid(ctx: Context, tx: Transaction, i: nat, ns: NameState): Outcome<Error>
    requires i < |tx.outputs|
  {
    var output := tx.outputs[i];
    if HeightOf(output.covenant) == None then Throw(MalformedCovenant)
    else if ns.StateAt(ctx.height, ctx.rules.params) != Bidding then Throw(WrongAuctionState)
    else if CheckRound(output.covenant, ns).Throw? then CheckRound(output.covenant, ns)
    else if output.value < MinimumBid(ctx.rules.params, ctx.height, ns.name) then Throw(BidTooLow)
    else Guard(ctx.rules.bidProof(output, ns.name), DnssecProofRejected)
  }

  function ProcessReveal(ctx: Context, tx: Transaction, i: nat, ns: NameState): Result<NameState, Error>
    requires i < |tx.outputs|
  {
    var output := tx.outputs[i];
    var nonce :- ItemOfSize(output.covenant, 2, 32).ToResult(MalformedCovenant);
    :- Guard(ns.StateAt(ctx.height, ctx.rules.params) == Revealing, WrongAuctionState);
    :- CheckRound(output.covenant, ns);
    var bid :- MatchingCoin(ctx, tx, i);
    :- Guard(bid.covenant.kind == Bid, InvalidStateTransition);
    var blind :- ItemOfSize(bid.covenant, 3, 32).ToResult(MalformedCovenant);
    :- Guard(blind == ctx.rules.blind(output.value, nonce), MalformedCovenant);
    if ns.owner == None || output.value > ns.highest then
      Ok(ns.(value := ns.highest, owner := Some(Outpoint(tx.hash, i)), highest := output.value))
    else if output.value > ns.value then
      Ok(ns.(value := output.value))
    else
      Ok(ns)
  }

  function ProcessRedeem(ctx: Context, tx: Transaction, i: nat, ns: NameState): Result<NameState, Error>
    requires i < |tx.outputs|
  {
    var state := ns.StateAt(ctx.height, ctx.rules.params);
    :- Guard(state == Closed || state == Revoked, WrongAuctionState);
    :- CheckRound(tx.outputs[i].covenant, ns);
    var coin :- MatchingCoin(ctx, tx, i);
    :- Guard(IsValidTransition(coin.covenant.kind, Redeem), InvalidStateTransition);
    Ok(ns)
  }

  function SetFlags(ns: NameState, flags: Option<Byte>): Result<NameState, Error> {
    match flags
    case None => Ok(ns)
    case Some(f) =>
      :- Guard(!(ns.AuctionsSubdomains() && f % 2 == 0), SubdomainFlagPermanent);
      Ok(ns.(flags := f))
  }

  function CheckDelegation(ctx: Context, ns: NameState, resource: Bytes): Outcome<Error> {
    Guard(!(ns.AuctionsSubdomains() && resource != [] && ctx.rules.delegates(resource)),
          DelegationNotAllowedWithSubdomains)
  }

  function ProcessRegister(ctx: Context, tx: Transaction, i: nat, ns: NameState): Result<NameState, Error>
    requires i < |tx.outputs|
  {
    var p, output := ctx.rules.params, tx.outputs[i];
    var resource :- Item(output.covenant, 2).ToResult(MalformedCovenant);
    :- Guard(ns.StateAt(ctx.height, p) == Closed, WrongAuctionState);
    :- Guard(ctx.height <= ns.RegisterDeadline(p), WrongAuctionState);
    :- CheckRound(output.covenant, ns);
    var coin :- MatchingCoin(ctx, tx, i);
    :- Guard(coin.covenant.kind == Reveal, InvalidStateTransition);
    :- Guard(ns.owner == Some(tx.inputs[i]), WrongAuctionState);
    :- Guard(output.value == 0, ValueNotPreserved);
    var block :- ItemOfSize(output.covenant, 3, 32).ToResult(MalformedCovenant);
    :- Guard(VerifyRenewal(ctx, block), WrongAuctionState);
    var held := ns.(registered := true, value := RegistrationPrice(ctx, ns),
                    owner := Some(Outpoint(tx.hash, i)), data := resource, renewal := ctx.height);
    var flagged :- SetFlags(held, RegisterFlagsOf(output.covenant));
    :- CheckDelegation(ctx, flagged, resource);
    Ok(flagged)
  }

  function ProcessUpdate(ctx: Context, tx: Transaction, i: nat, ns: NameState): Result<NameState, Error>
    requires i < |tx.outputs|
  {
    var output := tx.outputs[i];
    var resource :- Item(output.covenant, 2).ToResult(MalformedCovenant);
    :- Guard(ns.StateAt(ctx.height, ctx.rules.params) == Closed, WrongAuctionState);
    :- CheckRound(output.covenant, ns);
    var coin :- SpendOwner(ctx, tx, i, ns, Update);
    :- Guard(output.address == coin.address, WrongAuctionState);
    var flagged :- SetFlags(ns, FlagsOf(output.covenant));
    :- CheckDelegation(ctx, flagged, resource);
    Ok(flagged.(data := resource, owner := Some(Outpoint(tx.hash, i)), transfer := 0))
  }

  function ProcessRenew(ctx: Context, tx: Transaction, i: nat, ns: NameState): Result<NameState, Error>
    requires i < |tx.outputs|
  {
    var output := tx.outputs[i];
    var block :- ItemOfSize(output.covenant, 2, 32).ToResult(MalformedCovenant);
    :- Guard(ns.StateAt(ctx.height, ctx.rules.params) == Closed, WrongAuctionState);
    :- CheckRound(output.covenant, ns);
    var coin :- SpendOwner(ctx, tx, i, ns, Renew);
    :- Guard(VerifyRenewal(ctx, block), WrongAuctionState);
    :- Guard(output.address == coin.address, WrongAuctionState);
    Ok(ns.(owner := Some(Outpoint(tx.hash, i)), transfer := 0, renewal := ctx.height, renewals := ns.renewals + 1))
  }

  function ProcessTransfer(ctx: Context, tx: Transaction, i: nat, ns: NameState): Result<NameState, Error>
    requires i < |tx.outputs|
  {
    var state := ns.StateAt(ctx.height, ctx.rules.params);
    :- Guard(state == Closed, WrongAuctionState);
    :- CheckRound(tx.outputs[i].covenant, ns);
    var _ :- SpendOwner(ctx, tx, i, ns, Transfer);
    Ok(ns.(owner := Some(Outpoint(tx.hash, i)), transfer := ctx.height))
  }

  /** The address a TRANSFER covenant names in its items 2 and 3. */
  function TransferTarget(c: Covenant): Option<Address> {
    if |c.items| >= 4 && |c.items[2]| == 1 then Some(Address(c.items[2][0], c.items[3])) else None
  }

  function ProcessFinalize(ctx: Context, tx: Transaction, i: nat, ns: NameState): Result<NameState, Error>
    requires i < |tx.outputs|
  {
    var p, output := ctx.rules.params, tx.outputs[i];
    var block :- ItemOfSize(output.covenant, 6, 32).ToResult(MalformedCovenant);
    :- Guard(ns.StateAt(ctx.height, p) == Closed, WrongAuctionState);
    :- CheckRound(output.covenant, ns);
    var coin :- SpendOwner(ctx, tx, i, ns, Finalize);
    :- Guard(ns.transfer != 0, TransferLockupNotMet);
    :- Guard(ctx.height >= ns.transfer + p.transferLockup, TransferLockupNotMet);
    :- Guard(VerifyRenewal(ctx, block), WrongAuctionState);
    :- Guard(|coin.covenant.items| >= 4, MalformedCovenant);
    :- Guard(TransferTarget(coin.covenant) == Some(output.address), WrongAuctionState);
    Ok(ns.(owner := Some(Outpoint(tx.hash, i)), transfer := 0))
  }

  function ProcessRevoke(ctx: Context, tx: Transaction, i: nat, ns: NameState): Result<NameState, Error>
    requires i < |tx.outputs|
  {
    var output := tx.outputs[i];
    :- Guard(ns.StateAt(ctx.height, ctx.rules.params) == Closed, WrongAuctionState);
    :- CheckRound(output.covenant, ns);
    var coin :- SpendOwner(ctx, tx, i, ns, Revoke);
    :- Guard(output.address == coin.address, WrongAuctionState);
    Ok(ns.(revoked := ctx.height, transfer := 0, data := []))
  }

  /** Validate the name covenant of output `i` and apply it to the prepared state `ns`. */
  function ProcessKind(ctx: Context, tx: Transaction, i: nat, key: Hash, ns: NameState, db: Names): Result<Names, Error>
    requires i < |tx.outputs|
  {
    match tx.outputs[i].covenant.kind
    case Nothing => Ok(db)
    case Open => var s :- ProcessOpen(ctx, tx, i, key, ns, db); Ok(db.Put(key, s))
    case Bid => :- ProcessBid(ctx, tx, i, ns); Ok(db)
    case Reveal => var s :- ProcessReveal(ctx, tx, i, ns); Ok(db.Put(key, s))
    case Redeem => var _ :- ProcessRedeem(ctx, tx, i, ns); Ok(db)
    case Register => var s :- ProcessRegister(ctx, tx, i, ns); Ok(db.Put(key, s))
    case Update => var s :- ProcessUpdate(ctx, tx, i, ns); Ok(db.Put(key, s))
    case Renew => var s :- ProcessRenew(ctx, tx, i, ns); Ok(db.Put(key, s))
    case Transfer => var s :- ProcessTransfer(ctx, tx, i, ns); Ok(db.Put(key, s))
    case Finalize => var s :- ProcessFinalize(ctx, tx, i, ns); Ok(db.Put(key, s))
    case Revoke => var s :- ProcessRevoke(ctx, tx, i, ns); Ok(db.Put(key, s))
  }
}
