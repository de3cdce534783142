/**
 * The rules of name covenants as two tables, apart from the functions that apply them: when an
 * output is accepted, condition by condition, and what it does to the stored name, field by field
 * (Sources/Chain/CovenantProcessor.swift, lines 37 to 618 and 658 to 764).
 */
module NameEffects {
  import opened Base
  import opened Covenants
  import opened NameState
  import opened NameDB
  import opened CovenantContext
  import opened CovenantFees
  import opened CovenantRules
  import opened CovenantReplay
  import opened CovenantProcessor

  // ---- The clock ----

  /** The states of an auction, by height. */
  lemma {:induction false} StateByHeight(ns: NameState, p: NameParams, h: nat)
    ensures ns.StateAt(h, p) == Revoked <==> ns.revoked != 0
    ensures ns.StateAt(h, p) == Closed <==> ns.revoked == 0 && (ns.registered || ns.RevealEnd(p) <= h)
    ensures ns.StateAt(h, p) == Opening <==> Running(ns) && h < ns.height + p.openPeriod
    ensures ns.StateAt(h, p) == Bidding <==>
      Running(ns) && ns.height + p.openPeriod <= h < ns.height + p.openPeriod + p.biddingPeriod
    ensures ns.StateAt(h, p) == Revealing <==>
      Running(ns) && ns.height + p.openPeriod + p.biddingPeriod <= h < ns.RevealEnd(p)
    ensures ns.RevealEnd(p) == ns.height + p.openPeriod + p.biddingPeriod + p.revealPeriod
  {
  }

  predicate Running(ns: NameState) {
    ns.revoked == 0 && !ns.registered
  }

  /** The auction is over and the name not revoked. */
  predicate Over(ns: NameState, p: NameParams, h: nat) {
    ns.revoked == 0 && (ns.registered || ns.height + p.openPeriod + p.biddingPeriod + p.revealPeriod <= h)
  }

  /** A name registered without price at genesis never lapses; the others do at fixed heights. */
  lemma {:induction false} LapsesWhen(ns: NameState, p: NameParams, h: nat)
    ensures ns.IsExpired(h, p) <==>
      && !(ns.registered && ns.height == 0 && ns.value == 0)
      && (ns.revoked != 0 ==> ns.revoked + p.auctionMaturity <= h)
      && (ns.revoked == 0 ==>
            && Over(ns, p, h)
            && (ns.renewal + p.renewalWindow <= h || ns.owner == None || (!ns.registered && ns.RegisterDeadline(p) < h)))
    ensures ns.RegisterDeadline(p)
         == ns.height + p.openPeriod + p.biddingPeriod + p.revealPeriod + p.registerDeadline
  {
    StateByHeight(ns, p, h);
  }

  // ---- The state an output works on ----

  /** Nobody ever opened the name. */
  predicate Unopened(stored: Option<NameState>) {
    stored.Some? ==>
      var ns := stored.value;
      ns.height == 0 && ns.renewal == 0 && ns.owner == None && ns.value == 0 && ns.highest == 0
  }

  /** A new name, opened at `h`. */
  predicate Created(p: NameParams, h: nat, key: Hash, name: Bytes, ns: NameState) {
    && ns.name == name && ns.nameHash == key && ns.height == h && ns.renewal == h
    && ns.owner == None && ns.value == 0 && ns.highest == 0 && ns.data == []
    && ns.transfer == 0 && ns.revoked == 0 && ns.renewals == 0
    && !ns.registered && (ns.expired <==> p.AuctionLength() == 0) && ns.flags == 0 && ns.parentHash == ZERO_HASH
  }

  /** A lapsed name starts over at `h` and keeps its name, data, flags and parent. */
  predicate StartedOver(was: NameState, h: nat, ns: NameState) {
    && ns.name == was.name && ns.nameHash == was.nameHash
    && ns.data == was.data && ns.flags == was.flags && ns.parentHash == was.parentHash
    && ns.height == h && ns.renewal == h && ns.owner == None && ns.value == 0 && ns.highest == 0
    && ns.transfer == 0 && ns.revoked == 0 && ns.renewals == 0 && !ns.registered && ns.expired
  }

  predicate Continues(p: NameParams, h: nat, was: NameState, ns: NameState) {
    if was.IsExpired(h, p) then StartedOver(was, h, ns) else ns == was
  }

  /** `ns` is what an accepted output finds, given what is stored. */
  predicate Finds(p: NameParams, h: nat, c: Covenant, key: Hash, stored: Option<NameState>, ns: NameState) {
    if Unopened(stored) && c.kind == Open then |c.items| > 2 && Created(p, h, key, c.items[2], ns)
    else stored.Some? && Continues(p, h, stored.value, ns)
  }

  lemma {:induction false} PrepareFinds(ctx: Context, c: Covenant, key: Hash, db: Names)
    ensures Prepare(ctx, c, key, db).Ok? <==>
      if Unopened(db.Get(key)) && c.kind == Open then |c.items| > 2 else db.Get(key).Some?
    ensures Prepare(ctx, c, key, db).Ok? ==>
      Finds(ctx.rules.params, ctx.height, c, key, db.Get(key), Prepare(ctx, c, key, db).value)
  {
  }

  lemma {:induction false} ReplayFinds(p: NameParams, h: nat, c: Covenant, key: Hash, db: Names)
    ensures ReplayPrepare(p, h, c, key, db).Ok? <==> db.Get(key).Some? || c.kind != Open || |c.items| > 2
    ensures ReplayPrepare(p, h, c, key, db).Ok? && (db.Get(key).Some? || c.kind == Open) ==>
      var ns := ReplayPrepare(p, h, c, key, db).value;
      if db.Get(key).Some? then Continues(p, h, db.Get(key).value, ns) else Created(p, h, key, c.items[2], ns)
  {
  }

  // ---- What an output does, field by field ----

  /** The reveal is the first of the auction or higher than all before. */
  predicate Leads(output: Output, ns: NameState) {
    output.covenant.kind == Reveal && (ns.owner == None || ns.highest < output.value)
  }

  /** The kinds that make their own output the owner's coin. */
  const TAKE_HOLD := {Register, Update, Renew, Transfer, Finalize}

  /** The flag byte a REGISTER carries in item 4 and an UPDATE in item 3. */
  predicate SetsFlags(c: Covenant, flags: Byte) {
    || (c.kind == Register && |c.items| > 4 && c.items[4] == [flags])
    || (c.kind == Update && |c.items| > 3 && c.items[3] == [flags])
  }

  /** The parent an OPEN names in item 3, when its raw name has a dot. */
  predicate NamesParent(c: Covenant, parent: Hash) {
    c.kind == Open && |c.items| > 3 && c.items[3] == parent && |parent| == 32 && DOT in c.items[2]
  }

  /** From `ns` to `s`, by the output at outpoint `at` of a block at height `h`. */
  ghost predicate Effect(p: NameParams, h: nat, output: Output, at: Outpoint, ns: NameState, s: NameState) {
    var c, kind := output.covenant, output.covenant.kind;
    && s.name == ns.name && s.nameHash == ns.nameHash && s.height == ns.height && s.expired == ns.expired
    && (s.registered <==> ns.registered || kind == Register)
    && s.renewal == (if kind in {Register, Renew} then h else ns.renewal)
    && s.renewals == (if kind == Renew then ns.renewals + 1 else ns.renewals)
    && s.revoked == (if kind == Revoke then h else ns.revoked)
    && s.transfer == (if kind == Transfer then h else if kind in {Update, Renew, Finalize, Revoke} then 0 else ns.transfer)
    && (kind in {Register, Update} ==> |c.items| > 2 && s.data == c.items[2])
    && (kind !in {Register, Update} ==> s.data == if kind == Revoke then [] else ns.data)
    && s.owner == (if kind in TAKE_HOLD || Leads(output, ns) then Some(at) else ns.owner)
    && s.highest == (if Leads(output, ns) then output.value else ns.highest)
    && s.value == (if Leads(output, ns) then ns.highest
                   else if kind == Reveal then Max(ns.value, output.value)
                   else if kind == Register then Max(ns.value, MinimumBid(p, h, ns.name))
                   else ns.value)
    && (forall f: Byte :: SetsFlags(c, f) ==> s.flags == f)
    && ((forall f: Byte :: !SetsFlags(c, f)) ==> s.flags == ns.flags)
    && (forall parent :: NamesParent(c, parent) ==> s.parentHash == parent)
    && ((forall parent :: !NamesParent(c, parent)) ==> s.parentHash == ns.parentHash)
  }

  predicate Silent(kind: CovenantType) {
    kind in {Nothing, Bid, Redeem}
  }

  lemma {:induction false} OneByte(b: Bytes)
    requires |b| == 1
    ensures b == [b[0]]
  {
  }

  /** The flag byte and the parent, as the covenant views give them. */
  lemma {:induction false} ItemsRead(c: Covenant)
    ensures c.kind == Register ==> (RegisterFlagsOf(c).Some? <==> exists f: Byte :: SetsFlags(c, f))
    ensures c.kind == Register ==> forall f: Byte :: SetsFlags(c, f) ==> RegisterFlagsOf(c) == Some(f)
    ensures c.kind == Update ==> (FlagsOf(c).Some? <==> exists f: Byte :: SetsFlags(c, f))
    ensures c.kind == Update ==> forall f: Byte :: SetsFlags(c, f) ==> FlagsOf(c) == Some(f)
    ensures c.kind !in {Register, Update} ==> forall f: Byte :: !SetsFlags(c, f)
    ensures c.kind == Open ==> (ParentHashOf(c).Some? <==> exists parent :: NamesParent(c, parent))
    ensures c.kind == Open ==> forall parent :: NamesParent(c, parent) ==> ParentHashOf(c) == Some(parent)
    ensures c.kind != Open ==> forall parent :: !NamesParent(c, parent)
  {
    if RegisterFlagsOf(c).Some? {
      OneByte(c.items[4]);
      assert SetsFlags(c, c.items[4][0]);
    }
    if c.kind == Update && FlagsOf(c).Some? {
      OneByte(c.items[3]);
      assert SetsFlags(c, c.items[3][0]);
    }
    if c.kind == Open && ParentHashOf(c).Some? {
      assert NamesParent(c, c.items[3]);
    }
  }

  lemma {:induction false} ReplayDoes(p: NameParams, h: nat, output: Output, at: Outpoint, ns: NameState)
    ensures var r := ReplayChange(p, h, output, at, ns);
      && (r.Ok? <==> (output.covenant.kind in {Register, Update} ==> |output.covenant.items| > 2))
      && (r.Ok? ==> (r.value == None <==> Silent(output.covenant.kind)))
      && (r.Ok? && r.value.Some? ==> Effect(p, h, output, at, ns, r.value.value))
  {
    hide MinimumBid, RegisterFlagsOf, FlagsOf, ParentHashOf, SetsFlags, NamesParent;
    ItemsRead(output.covenant);
  }

  // ---- When an output is accepted, condition by condition ----

  /** The heights at which each kind may be used on a name in state `ns`. */
  predicate InTime(p: NameParams, h: nat, kind: CovenantType, ns: NameState) {
    var bidStart, bidEnd := ns.height + p.openPeriod, ns.height + p.openPeriod + p.biddingPeriod;
    match kind
    case Nothing => true
    case Open => Running(ns) && ns.height == h && p.openPeriod > 0
    case Bid => Running(ns) && bidStart <= h < bidEnd
    case Reveal => Running(ns) && bidEnd <= h < bidEnd + p.revealPeriod
    case Redeem => ns.revoked != 0 || Over(ns, p, h)
    case Register => Over(ns, p, h) && h <= bidEnd + p.revealPeriod + p.registerDeadline
    case Finalize => Over(ns, p, h) && ns.transfer != 0 && ns.transfer + p.transferLockup <= h
    case _ => Over(ns, p, h)
  }

  /** Item 1 of everything but an OPEN is the height this round was opened at, in four bytes. */
  predicate ForThisRound(c: Covenant, ns: NameState) {
    c.kind in {Nothing, Open} || (|c.items| > 1 && |c.items[1]| == 4 && LittleEndian(c.items[1]) == ns.height)
  }

  predicate HasHash(c: Covenant, i: nat) {
    |c.items| > i && |c.items[i]| == 32
  }

  /** The hash names a block of the main chain of a suitable age; near genesis anything will do. */
  predicate NamesBlock(ctx: Context, hash: Hash) {
    var p := ctx.rules.params;
    ctx.height >= p.renewalMaturity ==>
      exists g: nat :: hash in ctx.chain.heightOf && ctx.chain.heightOf[hash] == g
        && g in ctx.chain.byHeight && ctx.chain.byHeight[g] == hash
        && g + p.renewalMaturity <= ctx.height <= g + p.renewalPeriod
  }

  /** The items each kind needs. */
  ghost predicate HasItems(ctx: Context, c: Covenant) {
    match c.kind
    case Nothing | Bid | Redeem | Transfer | Revoke => true
    case Open | Update => |c.items| > 2
    case Reveal => HasHash(c, 2)
    case Register => HasHash(c, 3) && NamesBlock(ctx, c.items[3])
    case Renew => HasHash(c, 2) && NamesBlock(ctx, c.items[2])
    case Finalize => HasHash(c, 6) && NamesBlock(ctx, c.items[6])
  }

  /** Which coin the input at the output's position must spend. */
  predicate MayFollow(from: CovenantType, kind: CovenantType) {
    match kind
    case Nothing | Open | Bid => true
    case Reveal => from == Bid
    case Redeem | Register => from == Reveal
    case Transfer => from in {Register, Update, Renew, Finalize}
    case Finalize => from == Transfer
    case Update | Renew | Revoke => from in {Register, Update, Renew, Transfer, Finalize}
  }

  /** Where the output must pay, given the coin it follows. */
  predicate PaysRightly(ctx: Context, output: Output, coin: Output) {
    match output.covenant.kind
    case Update | Renew | Revoke => output.address == coin.address
    case Register => output.value == 0
    case Finalize =>
      && |coin.covenant.items| > 3 && coin.covenant.items[2] == [output.address.version]
      && coin.covenant.items[3] == output.address.hash
    case Reveal =>
      && HasHash(coin.covenant, 3) && |output.covenant.items| > 2
      && coin.covenant.items[3] == ctx.rules.blind(output.value, output.covenant.items[2])
    case _ => true
  }

  /** The coin at the output's position is of the right kind and, after the auction, the owner's. */
  predicate SpendsRightly(ctx: Context, tx: Transaction, i: nat, ns: NameState)
    requires i < |tx.outputs|
  {
    var kind := tx.outputs[i].covenant.kind;
    kind in {Nothing, Open, Bid} ||
    (&& i < |tx.inputs| && tx.inputs[i] in ctx.view
     && MayFollow(ctx.view[tx.inputs[i]].covenant.kind, kind) && PaysRightly(ctx, tx.outputs[i], ctx.view[tx.inputs[i]])
     && (kind !in {Reveal, Redeem} ==> ns.owner == Some(tx.inputs[i])))
  }

  /** `parent` is what follows the first dot of `name`. */
  predicate IsParent(name: Bytes, parent: Bytes) {
    exists k :: 0 <= k < |name| && name[k] == DOT && DOT !in name[..k] && parent == name[k + 1..]
  }

  /** A name with a dot is opened below a stored parent that permits subdomains, named in item 3. */
  ghost predicate UnderParent(ctx: Context, c: Covenant, db: Names)
    requires |c.items| > 2
  {
    DOT in c.items[2] ==>
      && HasHash(c, 3) && db.Get(c.items[3]).Some? && db.Get(c.items[3]).value.flags % 2 == 1
      && forall parent :: IsParent(c.items[2], parent) ==> ctx.rules.hashName(parent) == c.items[3]
  }

  /** Permission for subdomains is not withdrawn and not combined with a delegation. */
  ghost predicate KeepsPermission(ctx: Context, c: Covenant, ns: NameState) {
    c.kind in {Register, Update} && |c.items| > 2 ==>
      && (forall f: Byte :: SetsFlags(c, f) && ns.flags % 2 == 1 ==> f % 2 == 1)
      && ((exists f: Byte :: SetsFlags(c, f) && f % 2 == 1) || ns.flags % 2 == 1 ==>
            c.items[2] == [] || !ctx.rules.delegates(c.items[2]))
  }

  /** What the arbitrary rules say of an OPEN and a BID. */
  ghost predicate Approved(ctx: Context, output: Output, key: Hash, ns: NameState, db: Names) {
    var c, r := output.covenant, ctx.rules;
    && (c.kind == Open ==>
          && |c.items| > 2 && r.hashName(c.items[2]) == key && r.verifyName(c.items[2])
          && r.isAvailable(key, ctx.height, c.items[2]) && r.openProof(output, c.items[2]) && UnderParent(ctx, c, db))
    && (c.kind == Bid ==> MinimumBid(r.params, ctx.height, ns.name) <= output.value && r.bidProof(output, ns.name))
  }

  ghost predicate Admitted(ctx: Context, tx: Transaction, i: nat, key: Hash, ns: NameState, db: Names)
    requires i < |tx.outputs|
  {
    var c := tx.outputs[i].covenant;
    && HasItems(ctx, c) && InTime(ctx.rules.params, ctx.height, c.kind, ns) && ForThisRound(c, ns)
    && SpendsRightly(ctx, tx, i, ns) && KeepsPermission(ctx, c, ns) && Approved(ctx, tx.outputs[i], key, ns, db)
  }

  // ---- ... kind by kind ----

  lemma {:induction false} RoundRead(c: Covenant, ns: NameState)
    requires c.kind !in {Nothing, Open}
    ensures CheckRound(c, ns).Pass? <==> ForThisRound(c, ns)
    ensures HeightOf(c) == None ==> !ForThisRound(c, ns)
  {
    hide LittleEndian;
  }

  lemma {:induction false} BlockRead(ctx: Context, hash: Hash)
    ensures VerifyRenewal(ctx, hash) <==> NamesBlock(ctx, hash)
  {
  }

  lemma {:induction false} OwnerRead(ctx: Context, tx: Transaction, i: nat, ns: NameState, to: CovenantType)
    requires to in {Update, Renew, Transfer, Finalize, Revoke}
    ensures SpendOwner(ctx, tx, i, ns, to).Ok? <==>
      && i < |tx.inputs| && tx.inputs[i] in ctx.view && MayFollow(ctx.view[tx.inputs[i]].covenant.kind, to)
      && ns.owner == Some(tx.inputs[i])
    ensures SpendOwner(ctx, tx, i, ns, to).Ok? ==> SpendOwner(ctx, tx, i, ns, to).value == ctx.view[tx.inputs[i]]
  {
  }

  lemma {:induction false} FirstDot(name: Bytes)
    ensures ParentName(name) == None <==> DOT !in name
    ensures ParentName(name).Some? ==> IsParent(name, ParentName(name).value)
  {
    if name != [] {
      if name[0] == DOT {
        assert name[..0] == [];
      } else {
        FirstDot(name[1..]);
        assert name == [name[0]] + name[1..];
        if ParentName(name[1..]).Some? {
          var k :| 0 <= k < |name[1..]| && name[1..][k] == DOT && DOT !in name[1..][..k]
            && ParentName(name[1..]).value == name[1..][k + 1..];
          assert name[..k + 1] == [name[0]] + name[1..][..k];
          assert name[k + 1] == DOT && name[k + 2..] == name[1..][k + 1..];
        }
      }
    }
  }

  lemma {:induction false} ParentRead(name: Bytes)
    ensures ParentName(name) == None <==> DOT !in name
    ensures forall parent :: IsParent(name, parent) <==> ParentName(name) == Some(parent)
  {
    FirstDot(name);
    forall parent | IsParent(name, parent)
      ensures ParentName(name) == Some(parent)
    {
      var k :| 0 <= k < |name| && name[k] == DOT && DOT !in name[..k] && parent == name[k + 1..];
      var j :| 0 <= j < |name| && name[j] == DOT && DOT !in name[..j] && ParentName(name).value == name[j + 1..];
      assert j == k;
    }
  }

  /** `s` is what the output makes of `ns` if it is admitted, and an error otherwise. */
  ghost predicate Treats(ctx: Context, tx: Transaction, i: nat, key: Hash, ns: NameState, db: Names, s: Result<NameState, Error>)
    requires i < |tx.outputs|
  {
    && (s.Ok? <==> Admitted(ctx, tx, i, key, ns, db))
    && (s.Ok? ==> Effect(ctx.rules.params, ctx.height, tx.outputs[i], Outpoint(tx.hash, i), ns, s.value))
  }

  lemma {:induction false} OpenTreats(ctx: Context, tx: Transaction, i: nat, key: Hash, ns: NameState, db: Names)
    requires i < |tx.outputs| && tx.outputs[i].covenant.kind == Open
    ensures Treats(ctx, tx, i, key, ns, db, ProcessOpen(ctx, tx, i, key, ns, db))
  {
    hide ParentName, IsParent, NameState.StateAt, NameState.RevealEnd;
    StateByHeight(ns, ctx.rules.params, ctx.height);
    ItemsRead(tx.outputs[i].covenant);
    if |tx.outputs[i].covenant.items| > 2 {
      ParentRead(tx.outputs[i].covenant.items[2]);
    }
  }

  lemma {:induction false} BidTreats(ctx: Context, tx: Transaction, i: nat, key: Hash, ns: NameState, db: Names)
    requires i < |tx.outputs| && tx.outputs[i].covenant.kind == Bid
    ensures ProcessBid(ctx, tx, i, ns).Pass? <==> Admitted(ctx, tx, i, key, ns, db)
  {
    hide NameState.StateAt, NameState.RevealEnd, CheckRound, ForThisRound, HeightOf, MinimumBid;
    StateByHeight(ns, ctx.rules.params, ctx.height);
    RoundRead(tx.outputs[i].covenant, ns);
  }

  lemma {:induction false} RevealTreats(ctx: Context, tx: Transaction, i: nat, key: Hash, ns: NameState, db: Names)
    requires i < |tx.outputs| && tx.outputs[i].covenant.kind == Reveal
    ensures Treats(ctx, tx, i, key, ns, db, ProcessReveal(ctx, tx, i, ns))
  {
    hide NameState.StateAt, NameState.RevealEnd, CheckRound, ForThisRound, SetsFlags, NamesParent;
    StateByHeight(ns, ctx.rules.params, ctx.height);
    RoundRead(tx.outputs[i].covenant, ns);
    ItemsRead(tx.outputs[i].covenant);
  }

  lemma {:induction false} RedeemTreats(ctx: Context, tx: Transaction, i: nat, key: Hash, ns: NameState, db: Names)
    requires i < |tx.outputs| && tx.outputs[i].covenant.kind == Redeem
    ensures ProcessRedeem(ctx, tx, i, ns).Ok? <==> Admitted(ctx, tx, i, key, ns, db)
  {
    hide NameState.StateAt, NameState.RevealEnd, CheckRound, ForThisRound;
    StateByHeight(ns, ctx.rules.params, ctx.height);
    RoundRead(tx.outputs[i].covenant, ns);
  }

  lemma {:induction false} RegisterTreats(ctx: Context, tx: Transaction, i: nat, key: Hash, ns: NameState, db: Names)
    requires i < |tx.outputs| && tx.outputs[i].covenant.kind == Register
    ensures Treats(ctx, tx, i, key, ns, db, ProcessRegister(ctx, tx, i, ns))
  {
    hide NameState.StateAt, NameState.RevealEnd, CheckRound, ForThisRound, SetsFlags, NamesParent, RegisterFlagsOf,
      VerifyRenewal, NamesBlock, MinimumBid;
    StateByHeight(ns, ctx.rules.params, ctx.height);
    RoundRead(tx.outputs[i].covenant, ns);
    ItemsRead(tx.outputs[i].covenant);
    if HasHash(tx.outputs[i].covenant, 3) {
      BlockRead(ctx, tx.outputs[i].covenant.items[3]);
    }
  }

  lemma {:induction false} UpdateTreats(ctx: Context, tx: Transaction, i: nat, key: Hash, ns: NameState, db: Names)
    requires i < |tx.outputs| && tx.outputs[i].covenant.kind == Update
    ensures Treats(ctx, tx, i, key, ns, db, ProcessUpdate(ctx, tx, i, ns))
  {
    hide NameState.StateAt, NameState.RevealEnd, CheckRound, ForThisRound, SetsFlags, NamesParent, FlagsOf, SpendOwner;
    StateByHeight(ns, ctx.rules.params, ctx.height);
    RoundRead(tx.outputs[i].covenant, ns);
    OwnerRead(ctx, tx, i, ns, Update);
    ItemsRead(tx.outputs[i].covenant);
  }

  lemma {:induction false} RenewTreats(ctx: Context, tx: Transaction, i: nat, key: Hash, ns: NameState, db: Names)
    requires i < |tx.outputs| && tx.outputs[i].covenant.kind == Renew
    ensures Treats(ctx, tx, i, key, ns, db, ProcessRenew(ctx, tx, i, ns))
  {
    hide NameState.StateAt, NameState.RevealEnd, CheckRound, ForThisRound, SetsFlags, NamesParent, SpendOwner,
      VerifyRenewal, NamesBlock;
    StateByHeight(ns, ctx.rules.params, ctx.height);
    RoundRead(tx.outputs[i].covenant, ns);
    OwnerRead(ctx, tx, i, ns, Renew);
    ItemsRead(tx.outputs[i].covenant);
    if HasHash(tx.outputs[i].covenant, 2) {
      BlockRead(ctx, tx.outputs[i].covenant.items[2]);
    }
  }

  lemma {:induction false} TransferTreats(ctx: Context, tx: Transaction, i: nat, key: Hash, ns: NameState, db: Names)
    requires i < |tx.outputs| && tx.outputs[i].covenant.kind == Transfer
    ensures Treats(ctx, tx, i, key, ns, db, ProcessTransfer(ctx, tx, i, ns))
  {
    hide NameState.StateAt, NameState.RevealEnd, CheckRound, ForThisRound, SetsFlags, NamesParent, SpendOwner;
    StateByHeight(ns, ctx.rules.params, ctx.height);
    RoundRead(tx.outputs[i].covenant, ns);
    OwnerRead(ctx, tx, i, ns, Transfer);
    ItemsRead(tx.outputs[i].covenant);
  }

  lemma {:induction false} FinalizeTreats(ctx: Context, tx: Transaction, i: nat, key: Hash, ns: NameState, db: Names)
    requires i < |tx.outputs| && tx.outputs[i].covenant.kind == Finalize
    ensures Treats(ctx, tx, i, key, ns, db, ProcessFinalize(ctx, tx, i, ns))
  {
    hide NameState.StateAt, NameState.RevealEnd, CheckRound, ForThisRound, SetsFlags, NamesParent, SpendOwner,
      VerifyRenewal, NamesBlock;
    StateByHeight(ns, ctx.rules.params, ctx.height);
    RoundRead(tx.outputs[i].covenant, ns);
    OwnerRead(ctx, tx, i, ns, Finalize);
    ItemsRead(tx.outputs[i].covenant);
    if HasHash(tx.outputs[i].covenant, 6) {
      BlockRead(ctx, tx.outputs[i].covenant.items[6]);
    }
  }

  lemma {:induction false} RevokeTreats(ctx: Context, tx: Transaction, i: nat, key: Hash, ns: NameState, db: Names)
    requires i < |tx.outputs| && tx.outputs[i].covenant.kind == Revoke
    ensures Treats(ctx, tx, i, key, ns, db, ProcessRevoke(ctx, tx, i, ns))
  {
    hide NameState.StateAt, NameState.RevealEnd, CheckRound, ForThisRound, SetsFlags, NamesParent, SpendOwner;
    StateByHeight(ns, ctx.rules.params, ctx.height);
    RoundRead(tx.outputs[i].covenant, ns);
    OwnerRead(ctx, tx, i, ns, Revoke);
    ItemsRead(tx.outputs[i].covenant);
  }

  // ---- One output ----

  /** What an accepted output leaves in the database: its own name changed as said, all others as they were. */
  ghost predicate Does(p: NameParams, h: nat, output: Output, at: Outpoint, key: Hash, ns: NameState, before: Names, after: Names) {
    && after.tree == before.tree && (forall k :: k != key ==> after.Get(k) == before.Get(k))
    && (Silent(output.covenant.kind) ==> after == before)
    && (!Silent(output.covenant.kind) ==> after.Get(key).Some? && Effect(p, h, output, at, ns, after.Get(key).value))
  }

  lemma {:induction false} PutDoes(p: NameParams, h: nat, output: Output, at: Outpoint, key: Hash, ns: NameState, db: Names, s: NameState)
    requires !Silent(output.covenant.kind) && Effect(p, h, output, at, ns, s)
    ensures Does(p, h, output, at, key, ns, db, db.Put(key, s))
  {
    hide Effect;
  }

  lemma {:induction false} SilentDoes(p: NameParams, h: nat, output: Output, at: Outpoint, key: Hash, ns: NameState, db: Names)
    requires Silent(output.covenant.kind)
    ensures Does(p, h, output, at, key, ns, db, db)
  {
    hide Effect;
  }

  lemma {:induction false} KindDoes(ctx: Context, tx: Transaction, i: nat, key: Hash, ns: NameState, db: Names)
    requires i < |tx.outputs| && tx.outputs[i].covenant.kind != Nothing
    ensures ProcessKind(ctx, tx, i, key, ns, db).Ok? <==> Admitted(ctx, tx, i, key, ns, db)
    ensures ProcessKind(ctx, tx, i, key, ns, db).Ok? ==>
      Does(ctx.rules.params, ctx.height, tx.outputs[i], Outpoint(tx.hash, i), key, ns, db,
           ProcessKind(ctx, tx, i, key, ns, db).value)
  {
    hide *;
    var made := TreatedBy(ctx, tx, i, key, ns, db);
    if made.Ok? && made.value.Some? {
      PutDoes(ctx.rules.params, ctx.height, tx.outputs[i], Outpoint(tx.hash, i), key, ns, db, made.value.value);
    } else if made.Ok? {
      SilentDoes(ctx.rules.params, ctx.height, tx.outputs[i], Outpoint(tx.hash, i), key, ns, db);
    }
  }

  /** The state an output puts for its name, if it is accepted and puts one. */
  lemma {:induction false} TreatedBy(ctx: Context, tx: Transaction, i: nat, key: Hash, ns: NameState, db: Names)
    returns (made: Result<Option<NameState>, Error>)
    requires i < |tx.outputs| && tx.outputs[i].covenant.kind != Nothing
    ensures made.Ok? <==> Admitted(ctx, tx, i, key, ns, db)
    ensures made.Ok? <==> ProcessKind(ctx, tx, i, key, ns, db).Ok?
    ensures made.Ok? ==> (made.value == None <==> Silent(tx.outputs[i].covenant.kind))
    ensures made.Ok? && made.value == None ==> ProcessKind(ctx, tx, i, key, ns, db) == Ok(db)
    ensures made.Ok? && made.value.Some? ==>
      && ProcessKind(ctx, tx, i, key, ns, db) == Ok(db.Put(key, made.value.value))
      && Effect(ctx.rules.params, ctx.height, tx.outputs[i], Outpoint(tx.hash, i), ns, made.value.value)
  {
    hide Admitted, Effect, ProcessOpen, ProcessBid, ProcessReveal, ProcessRedeem, ProcessRegister, ProcessUpdate,
      ProcessRenew, ProcessTransfer, ProcessFinalize, ProcessRevoke;
    var put: Result<NameState, Error> := Err(MalformedCovenant);
    match tx.outputs[i].covenant.kind {
      case Bid =>
        BidTreats(ctx, tx, i, key, ns, db);
        return if ProcessBid(ctx, tx, i, ns).Pass? then Ok(None) else Err(MalformedCovenant);
      case Redeem =>
        RedeemTreats(ctx, tx, i, key, ns, db);
        return if ProcessRedeem(ctx, tx, i, ns).Ok? then Ok(None) else Err(MalformedCovenant);
      case Open =>
        OpenTreats(ctx, tx, i, key, ns, db);
        put := ProcessOpen(ctx, tx, i, key, ns, db);
      case Reveal =>
        RevealTreats(ctx, tx, i, key, ns, db);
        put := ProcessReveal(ctx, tx, i, ns);
      case Register =>
        RegisterTreats(ctx, tx, i, key, ns, db);
        put := ProcessRegister(ctx, tx, i, ns);
      case Update =>
        UpdateTreats(ctx, tx, i, key, ns, db);
        put := ProcessUpdate(ctx, tx, i, ns);
      case Renew =>
        RenewTreats(ctx, tx, i, key, ns, db);
        put := ProcessRenew(ctx, tx, i, ns);
      case Transfer =>
        TransferTreats(ctx, tx, i, key, ns, db);
        put := ProcessTransfer(ctx, tx, i, ns);
      case Finalize =>
        FinalizeTreats(ctx, tx, i, key, ns, db);
        put := ProcessFinalize(ctx, tx, i, ns);
      case Revoke =>
        RevokeTreats(ctx, tx, i, key, ns, db);
        put := ProcessRevoke(ctx, tx, i, ns);
    }
    made := if put.Ok? then Ok(Some(put.value)) else Err(MalformedCovenant);
  }

  /**
   * An output with a name covenant is accepted if and only if its covenant names a hash, there is a
   * state to work on, and every condition above holds of that state; and then the stored name has
   * changed in the fields above, to the values above, and nothing else has changed.
   */
  lemma {:induction false} StepLaw(ctx: Context, tx: Transaction, i: nat, s: Progress) returns (ns: NameState)
    requires i < |tx.outputs| && tx.outputs[i].covenant.kind != Nothing
    ensures var c := tx.outputs[i].covenant;
      Step(ctx, tx, i, s).Ok? <==>
        && HasHash(c, 0) && Finds(ctx.rules.params, ctx.height, c, c.items[0], s.names.Get(c.items[0]), ns)
        && Admitted(ctx, tx, i, c.items[0], ns, s.names)
    ensures Step(ctx, tx, i, s).Ok? ==>
      Does(ctx.rules.params, ctx.height, tx.outputs[i], Outpoint(tx.hash, i), tx.outputs[i].covenant.items[0], ns, s.names,
           Step(ctx, tx, i, s).value.names)
  {
    hide Admitted, Does, ProcessKind, Prepare, Charge, Continues, Created;
    var c := tx.outputs[i].covenant;
    ns := NewName([], []);
    if HasHash(c, 0) {
      PrepareFinds(ctx, c, c.items[0], s.names);
      var prepared := Prepare(ctx, c, c.items[0], s.names);
      if prepared.Ok? {
        ns := prepared.value;
        KindDoes(ctx, tx, i, c.items[0], ns, s.names);
      }
    }
  }

  /** Replaying an output does the same to the state replay finds, and fails for missing items alone. */
  lemma {:induction false} ReplayLaw(p: NameParams, h: nat, tx: Transaction, i: nat, db: Names) returns (ns: NameState)
    requires i < |tx.outputs| && tx.outputs[i].covenant.kind != Nothing
    ensures var c := tx.outputs[i].covenant;
      ReplayOutput(p, h, tx, i, db).Ok? <==>
        && HasHash(c, 0) && (c.kind in {Register, Update} ==> |c.items| > 2)
        && (c.kind == Open && db.Get(c.items[0]) == None ==> |c.items| > 2)
    ensures var c := tx.outputs[i].covenant;
      ReplayOutput(p, h, tx, i, db).Ok? ==>
        && (db.Get(c.items[0]).Some? ==> Continues(p, h, db.Get(c.items[0]).value, ns))
        && (db.Get(c.items[0]) == None && c.kind == Open ==> Created(p, h, c.items[0], c.items[2], ns))
        && Does(p, h, tx.outputs[i], Outpoint(tx.hash, i), c.items[0], ns, db, ReplayOutput(p, h, tx, i, db).value)
  {
    hide Effect, Does, ReplayPrepare, ReplayChange, Continues, Created;
    var c, at := tx.outputs[i].covenant, Outpoint(tx.hash, i);
    ns := NewName([], []);
    if HasHash(c, 0) {
      ReplayFinds(p, h, c, c.items[0], db);
      var prepared := ReplayPrepare(p, h, c, c.items[0], db);
      if prepared.Ok? {
        ns := prepared.value;
        ReplayDoes(p, h, tx.outputs[i], at, ns);
        var change := ReplayChange(p, h, tx.outputs[i], at, ns);
        if change.Ok? && change.value.Some? {
          PutDoes(p, h, tx.outputs[i], at, c.items[0], ns, db, change.value.value);
        } else if change.Ok? {
          SilentDoes(p, h, tx.outputs[i], at, c.items[0], ns, db);
        }
      }
    }
  }

  /**
   * A REGISTER or RENEW sets the renewal clock: a registered name that has a price or was opened
   * after genesis is expired from a full renewal window after this block on, and not before.
   */
  lemma {:induction false} RenewalHolds(ctx: Context, tx: Transaction, i: nat, s: Progress, g: nat)
    requires i < |tx.outputs| && tx.outputs[i].covenant.kind in {Register, Renew} && Step(ctx, tx, i, s).Ok?
    ensures |tx.outputs[i].covenant.items| > 0 && Step(ctx, tx, i, s).value.names.Get(tx.outputs[i].covenant.items[0]).Some?
    ensures var after := Step(ctx, tx, i, s).value.names.Get(tx.outputs[i].covenant.items[0]).value;
      && after.renewal == ctx.height && after.owner == Some(Outpoint(tx.hash, i)) && after.revoked == 0
      && (tx.outputs[i].covenant.kind == Register ==> after.registered)
      && (after.registered && (after.height > 0 || after.value > 0) ==>
            (after.IsExpired(g, ctx.rules.params) <==> ctx.height + ctx.rules.params.renewalWindow <= g))
  {
    hide Step, NameState.IsExpired, SetsFlags, NamesParent, HasItems, SpendsRightly, KeepsPermission, Approved, ForThisRound, Finds;
    var ns := StepLaw(ctx, tx, i, s);
    var after := Step(ctx, tx, i, s).value.names.Get(tx.outputs[i].covenant.items[0]).value;
    if after.registered && (after.height > 0 || after.value > 0) {
      RegisteredClock(after, ctx.rules.params, g);
    }
  }
}
