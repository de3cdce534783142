/**
 * The life of a name over all runs: who holds it, and what REGISTER and FINALIZE presuppose
 * (Sources/Chain/CovenantProcessor.swift, lines 175 to 214 and 238 to 614;
 * Sources/Covenants/NameState.swift, lines 106 to 238).
 */
module NameLifecycle {
  import opened Base
  import opened Covenants
  import opened NameState
  import opened NameDB
  import opened CovenantContext
  import opened CovenantFees
  import opened CovenantRules
  import opened CovenantReplay
  import opened CovenantProcessor

  /** An output ever created, and the height of its block. */
  datatype Minted = Minted(output: Output, height: nat)

  type Ledger = map<Outpoint, Minted>

  /** A block's coins are outputs created so far, the block's own included, at their heights. */
  ghost predicate Consistent(ctx: Context, txs: seq<Transaction>, ledger: Ledger) {
    && (forall op :: op in ctx.view ==> op in ledger && ledger[op].output == ctx.view[op])
    && (forall tx :: tx in txs ==> Recorded(tx, ctx.height, ledger))
  }

  ghost predicate Recorded(tx: Transaction, height: nat, ledger: Ledger) {
    forall i {:trigger tx.outputs[i]} :: 0 <= i < |tx.outputs| ==>
      Outpoint(tx.hash, i) in ledger && ledger[Outpoint(tx.hash, i)] == Minted(tx.outputs[i], height)
  }

  /**
   * The owner's outpoint carries a covenant of this very name: a REVEAL exactly until the name is
   * registered, and a TRANSFER exactly while one is pending, created at the recorded height.
   */
  predicate Held(key: Hash, ns: NameState, ledger: Ledger) {
    ns.owner.Some? && ns.owner.value in ledger &&
    var coin := ledger[ns.owner.value];
    var c := coin.output.covenant;
    && NameHashOf(c) == Some(key)
    && c.kind in {Reveal, Register, Update, Renew, Transfer, Finalize}
    && (c.kind == Reveal <==> !ns.registered)
    && (c.kind == Transfer <==> ns.transfer != 0)
    && (ns.transfer != 0 ==> coin.height == ns.transfer)
  }

  predicate Alive(key: Hash, ns: NameState, ledger: Ledger, now: nat) {
    && ns.height <= now && ns.height <= ns.renewal
    && (ns.revoked != 0 ==> ns.height <= ns.revoked <= now)
    && (ns.owner == None ==> !ns.registered && ns.transfer == 0)
    && (ns.owner.Some? && ns.revoked == 0 ==> Held(key, ns, ledger))
  }

  ghost predicate AllAlive(db: Names, ledger: Ledger, now: nat) {
    forall key :: db.Get(key).Some? ==> Alive(key, db.Get(key).value, ledger, now)
  }

  lemma {:induction false} PrepareAlive(ctx: Context, c: Covenant, key: Hash, db: Names, ledger: Ledger)
    requires AllAlive(db, ledger, ctx.height) && Prepare(ctx, c, key, db).Ok?
    ensures Alive(key, Prepare(ctx, c, key, db).value, ledger, ctx.height)
  {
  }

  /** What a lemma about output `i` of `tx` may assume. */
  ghost predicate At(ctx: Context, tx: Transaction, i: nat, key: Hash, ns: NameState, ledger: Ledger) {
    && i < |tx.outputs| && ctx.height > 0
    && NameHashOf(tx.outputs[i].covenant) == Some(key)
    && Alive(key, ns, ledger, ctx.height)
    && (forall op :: op in ctx.view ==> op in ledger && ledger[op].output == ctx.view[op])
    && Outpoint(tx.hash, i) in ledger && ledger[Outpoint(tx.hash, i)] == Minted(tx.outputs[i], ctx.height)
  }

  lemma {:induction false} OpenAlive(ctx: Context, tx: Transaction, i: nat, key: Hash, ns: NameState, db: Names, ledger: Ledger)
    requires At(ctx, tx, i, key, ns, ledger) && ProcessOpen(ctx, tx, i, key, ns, db).Ok?
    ensures Alive(key, ProcessOpen(ctx, tx, i, key, ns, db).value, ledger, ctx.height)
  {
    hide ParentName, NameHashOf, ParentHashOf;
  }

  lemma {:induction false} RevealAlive(ctx: Context, tx: Transaction, i: nat, key: Hash, ns: NameState, ledger: Ledger)
    requires At(ctx, tx, i, key, ns, ledger) && tx.outputs[i].covenant.kind == Reveal
    requires ProcessReveal(ctx, tx, i, ns).Ok?
    ensures Alive(key, ProcessReveal(ctx, tx, i, ns).value, ledger, ctx.height)
    ensures !ns.registered
  {
    hide NameHashOf, ItemOfSize, CheckRound, MatchingCoin;
  }

  /** A REGISTER is made once, by the winner, between the end of reveals and the deadline. */
  lemma {:induction false} RegisterLaw(ctx: Context, tx: Transaction, i: nat, key: Hash, ns: NameState, ledger: Ledger)
    requires At(ctx, tx, i, key, ns, ledger) && tx.outputs[i].covenant.kind == Register
    requires ProcessRegister(ctx, tx, i, ns).Ok?
    ensures !ns.registered && ns.revoked == 0
    ensures ns.RevealEnd(ctx.rules.params) <= ctx.height <= ns.RegisterDeadline(ctx.rules.params)
    ensures i < |tx.inputs| && ns.owner == Some(tx.inputs[i])
    ensures var bid := ledger[tx.inputs[i]].output.covenant;
      bid.kind == Reveal && NameHashOf(bid) == Some(key)
    ensures Alive(key, ProcessRegister(ctx, tx, i, ns).value, ledger, ctx.height)
    ensures ProcessRegister(ctx, tx, i, ns).value.registered
    ensures ProcessRegister(ctx, tx, i, ns).value.height == ns.height
  {
    hide NameHashOf, ItemOfSize, CheckRound, VerifyRenewal, RegistrationPrice, CheckDelegation;
  }

  lemma {:induction false} OwnerSpent(ctx: Context, tx: Transaction, i: nat, key: Hash, ns: NameState, to: CovenantType, ledger: Ledger)
    requires At(ctx, tx, i, key, ns, ledger) && ns.revoked == 0 && SpendOwner(ctx, tx, i, ns, to).Ok?
    ensures ns.owner == Some(tx.inputs[i]) && Held(key, ns, ledger)
    ensures ledger[tx.inputs[i]].output == SpendOwner(ctx, tx, i, ns, to).value
    ensures IsValidTransition(ledger[tx.inputs[i]].output.covenant.kind, to)
  {
    hide NameHashOf;
  }

  lemma {:induction false} UpdateAlive(ctx: Context, tx: Transaction, i: nat, key: Hash, ns: NameState, ledger: Ledger)
    requires At(ctx, tx, i, key, ns, ledger) && tx.outputs[i].covenant.kind == Update
    requires ProcessUpdate(ctx, tx, i, ns).Ok?
    ensures Alive(key, ProcessUpdate(ctx, tx, i, ns).value, ledger, ctx.height)
    ensures ns.registered
  {
    hide NameHashOf, ItemOfSize, CheckRound, CheckDelegation, SpendOwner;
    OwnerSpent(ctx, tx, i, key, ns, Update, ledger);
  }

  lemma {:induction false} RenewAlive(ctx: Context, tx: Transaction, i: nat, key: Hash, ns: NameState, ledger: Ledger)
    requires At(ctx, tx, i, key, ns, ledger) && tx.outputs[i].covenant.kind == Renew
    requires ProcessRenew(ctx, tx, i, ns).Ok?
    ensures Alive(key, ProcessRenew(ctx, tx, i, ns).value, ledger, ctx.height)
    ensures ns.registered
  {
    hide NameHashOf, ItemOfSize, CheckRound, VerifyRenewal, SpendOwner;
    OwnerSpent(ctx, tx, i, key, ns, Renew, ledger);
  }

  lemma {:induction false} TransferAlive(ctx: Context, tx: Transaction, i: nat, key: Hash, ns: NameState, ledger: Ledger)
    requires At(ctx, tx, i, key, ns, ledger) && tx.outputs[i].covenant.kind == Transfer
    requires ProcessTransfer(ctx, tx, i, ns).Ok?
    ensures Alive(key, ProcessTransfer(ctx, tx, i, ns).value, ledger, ctx.height)
    ensures ns.registered && ns.transfer == 0
  {
    hide NameHashOf, ItemOfSize, CheckRound, SpendOwner;
    OwnerSpent(ctx, tx, i, key, ns, Transfer, ledger);
  }

  /**
   * A FINALIZE spends the TRANSFER of this name that is on record, a full lockup after the height
   * that TRANSFER was created at, and pays to the address it named.
   */
  lemma {:induction false} FinalizeLaw(ctx: Context, tx: Transaction, i: nat, key: Hash, ns: NameState, ledger: Ledger)
    requires At(ctx, tx, i, key, ns, ledger) && tx.outputs[i].covenant.kind == Finalize
    requires ProcessFinalize(ctx, tx, i, ns).Ok?
    ensures ns.owner == Some(tx.inputs[i]) && tx.inputs[i] in ledger
    ensures var transfer := ledger[tx.inputs[i]];
      && transfer.output.covenant.kind == Transfer
      && NameHashOf(transfer.output.covenant) == Some(key)
      && transfer.height + ctx.rules.params.transferLockup <= ctx.height
      && TransferTarget(transfer.output.covenant) == Some(tx.outputs[i].address)
    ensures Alive(key, ProcessFinalize(ctx, tx, i, ns).value, ledger, ctx.height)
    ensures ns.registered
  {
    hide NameHashOf, ItemOfSize, CheckRound, VerifyRenewal, SpendOwner, TransferTarget;
    OwnerSpent(ctx, tx, i, key, ns, Finalize, ledger);
  }

  lemma {:induction false} RevokeAlive(ctx: Context, tx: Transaction, i: nat, key: Hash, ns: NameState, ledger: Ledger)
    requires At(ctx, tx, i, key, ns, ledger) && tx.outputs[i].covenant.kind == Revoke
    requires ProcessRevoke(ctx, tx, i, ns).Ok?
    ensures Alive(key, ProcessRevoke(ctx, tx, i, ns).value, ledger, ctx.height)
    ensures ns.registered
  {
    hide NameHashOf, ItemOfSize, CheckRound, SpendOwner;
    OwnerSpent(ctx, tx, i, key, ns, Revoke, ledger);
  }

  lemma {:induction false} PutAlive(db: Names, key: Hash, ns: NameState, ledger: Ledger, now: nat)
    requires AllAlive(db, ledger, now) && Alive(key, ns, ledger, now)
    ensures AllAlive(db.Put(key, ns), ledger, now)
  {
    hide Alive;
    forall k | db.Put(key, ns).Get(k).Some?
      ensures Alive(k, db.Put(key, ns).Get(k).value, ledger, now)
    {
      assert k != key ==> db.Put(key, ns).Get(k) == db.Get(k);
    }
  }

  // ---- Rounds ----

  /** A REGISTER of `key` in the auction round that was opened at height `round`. */
  datatype Registration = Registration(key: Hash, round: nat)

  /** Every recorded round is over, or is the present one and its name is registered or revoked. */
  predicate Settled(r: Registration, ns: NameState) {
    r.round < ns.height || (r.round == ns.height && (ns.registered || ns.revoked != 0))
  }

  ghost predicate AllSettled(db: Names, log: set<Registration>) {
    forall r :: r in log ==> db.Get(r.key).Some? && Settled(r, db.Get(r.key).value)
  }

  /** The waiting periods every network sets. */
  predicate PositivePeriods(p: NameParams) {
    p.AuctionLength() > 0 && p.renewalWindow > 0 && p.auctionMaturity > 0
  }

  lemma {:induction false} PrepareSettled(ctx: Context, c: Covenant, key: Hash, db: Names, ledger: Ledger, r: Registration)
    requires PositivePeriods(ctx.rules.params) && AllAlive(db, ledger, ctx.height)
    requires db.Get(key).Some? && Settled(r, db.Get(key).value)
    requires Storable(db.Get(key).value)
    requires Prepare(ctx, c, key, db).Ok?
    ensures Settled(r, Prepare(ctx, c, key, db).value)
  {
    hide Held;
  }

  /** An operation never moves a name to another round and never unregisters or revives it. */
  predicate SameRound(ns: NameState, after: NameState) {
    && after.height == ns.height
    && (ns.registered ==> after.registered)
    && (ns.revoked != 0 ==> after.revoked != 0)
  }

  /** The registration an output makes, if it makes one. */
  function Registers(kind: CovenantType, key: Hash, ns: NameState): set<Registration> {
    if kind == Register then {Registration(key, ns.height)} else {}
  }

  /** `ns` was open for registration and is registered, in the same round, in `after`. */
  predicate FreshlyRegistered(key: Hash, ns: NameState, after: Names) {
    && !ns.registered && ns.revoked == 0
    && after.Get(key).Some? && after.Get(key).value.registered && after.Get(key).value.height == ns.height
  }

  lemma {:induction false} KindAlive(ctx: Context, tx: Transaction, i: nat, key: Hash, ns: NameState, db: Names, ledger: Ledger)
    requires i < |tx.outputs|
    requires At(ctx, tx, i, key, ns, ledger) && AllAlive(db, ledger, ctx.height)
    requires ProcessKind(ctx, tx, i, key, ns, db).Ok?
    ensures AllAlive(ProcessKind(ctx, tx, i, key, ns, db).value, ledger, ctx.height)
    ensures tx.outputs[i].covenant.kind == Register ==> FreshlyRegistered(key, ns, ProcessKind(ctx, tx, i, key, ns, db).value)
    ensures var after := ProcessKind(ctx, tx, i, key, ns, db).value;
      after == db || exists s {:trigger db.Put(key, s)} :: SameRound(ns, s) && after == db.Put(key, s)
  {
    hide At, Alive, AllAlive, NameHashOf, ItemOfSize, CheckRound, VerifyRenewal, RegistrationPrice, CheckDelegation,
      SpendOwner, MatchingCoin, ParentName, ParentHashOf;
    match tx.outputs[i].covenant.kind
    case Nothing =>
    case Bid =>
    case Redeem =>
    case Open =>
      OpenAlive(ctx, tx, i, key, ns, db, ledger);
      PutAlive(db, key, ProcessOpen(ctx, tx, i, key, ns, db).value, ledger, ctx.height);
    case Reveal =>
      RevealAlive(ctx, tx, i, key, ns, ledger);
      PutAlive(db, key, ProcessReveal(ctx, tx, i, ns).value, ledger, ctx.height);
    case Register =>
      RegisterLaw(ctx, tx, i, key, ns, ledger);
      PutAlive(db, key, ProcessRegister(ctx, tx, i, ns).value, ledger, ctx.height);
    case Update =>
      UpdateAlive(ctx, tx, i, key, ns, ledger);
      PutAlive(db, key, ProcessUpdate(ctx, tx, i, ns).value, ledger, ctx.height);
    case Renew =>
      RenewAlive(ctx, tx, i, key, ns, ledger);
      PutAlive(db, key, ProcessRenew(ctx, tx, i, ns).value, ledger, ctx.height);
    case Transfer =>
      TransferAlive(ctx, tx, i, key, ns, ledger);
      PutAlive(db, key, ProcessTransfer(ctx, tx, i, ns).value, ledger, ctx.height);
    case Finalize =>
      FinalizeLaw(ctx, tx, i, key, ns, ledger);
      PutAlive(db, key, ProcessFinalize(ctx, tx, i, ns).value, ledger, ctx.height);
    case Revoke =>
      RevokeAlive(ctx, tx, i, key, ns, ledger);
      PutAlive(db, key, ProcessRevoke(ctx, tx, i, ns).value, ledger, ctx.height);
  }

  // ---- Outputs, transactions, blocks ----

  /** What every step of a run keeps. */
  ghost predicate Good(db: Names, ledger: Ledger, now: nat, log: set<Registration>) {
    AllAlive(db, ledger, now) && AllStorable(db) && AllSettled(db, log)
  }

  /** The registration made by output `i`, if any. */
  function Logged(ctx: Context, tx: Transaction, i: nat, s: Progress): set<Registration>
    requires i < |tx.outputs|
  {
    var c := tx.outputs[i].covenant;
    if NameHashOf(c) == None then {}
    else
      var ns := Prepare(ctx, c, NameHashOf(c).value, s.names);
      if ns.Err? then {} else Registers(c.kind, NameHashOf(c).value, ns.value)
  }

  /** Before and after one prepared operation on `key`. */
  lemma {:induction false} OperationSettled(db: Names, after: Names, key: Hash, ns: NameState, kind: CovenantType, log: set<Registration>)
    requires AllSettled(db, log)
    requires forall r :: r in log && r.key == key ==> Settled(r, ns)
    requires after == db || exists s {:trigger db.Put(key, s)} :: SameRound(ns, s) && after == db.Put(key, s)
    requires kind == Register ==> FreshlyRegistered(key, ns, after)
    ensures AllSettled(after, log + Registers(kind, key, ns))
    ensures Registers(kind, key, ns) !! log
  {
    forall r | r in log + Registers(kind, key, ns)
      ensures after.Get(r.key).Some? && Settled(r, after.Get(r.key).value)
    {
      if r in log && after != db {
        assert r.key != key ==> after.Get(r.key) == db.Get(r.key);
      }
    }
  }

  lemma {:induction false} StepGood(ctx: Context, tx: Transaction, i: nat, s: Progress, ledger: Ledger, log: set<Registration>)
    requires i < |tx.outputs| && PositivePeriods(ctx.rules.params) && ctx.height > 0
    requires Good(s.names, ledger, ctx.height, log)
    requires Consistent(ctx, [tx], ledger) && Step(ctx, tx, i, s).Ok?
    ensures Good(Step(ctx, tx, i, s).value.names, ledger, ctx.height, log + Logged(ctx, tx, i, s))
    ensures Logged(ctx, tx, i, s) !! log
  {
    hide Prepare, ProcessKind, Charge, Alive, AllAlive, AllStorable, AllSettled, Settled, ReplayOutput, PositivePeriods;
    var c := tx.outputs[i].covenant;
    StepAgrees(ctx, tx, i, s);
    if c.kind.IsName() {
      var key := NameHashOf(c).value;
      var ns := Prepare(ctx, c, key, s.names).value;
      PrepareAlive(ctx, c, key, s.names, ledger);
      assert tx in [tx];
      assert At(ctx, tx, i, key, ns, ledger);
      KindAlive(ctx, tx, i, key, ns, s.names, ledger);
      PreparedSettled(ctx, c, key, s.names, ledger, log);
      OperationSettled(s.names, Step(ctx, tx, i, s).value.names, key, ns, c.kind, log);
    } else {
      assert log + Logged(ctx, tx, i, s) == log;
    }
  }

  lemma {:induction false} PreparedSettled(ctx: Context, c: Covenant, key: Hash, db: Names, ledger: Ledger, log: set<Registration>)
    requires PositivePeriods(ctx.rules.params) && Good(db, ledger, ctx.height, log)
    requires Prepare(ctx, c, key, db).Ok?
    ensures forall r :: r in log && r.key == key ==> Settled(r, Prepare(ctx, c, key, db).value)
  {
    hide Prepare, Settled, Alive, PositivePeriods;
    forall r | r in log && r.key == key
      ensures Settled(r, Prepare(ctx, c, key, db).value)
    {
      PrepareSettled(ctx, c, key, db, ledger, r);
    }
  }

  /** All registrations made by the first `n` outputs. */
  ghost function LoggedBy(ctx: Context, tx: Transaction, n: nat, names: Names): set<Registration>
    requires n <= |tx.outputs|
  {
    if n == 0 then {}
    else
      LoggedBy(ctx, tx, n - 1, names)
      + if Steps(ctx, tx, n - 1, names).Ok? then Logged(ctx, tx, n - 1, Steps(ctx, tx, n - 1, names).value) else {}
  }

  lemma {:induction false} StepsGood(ctx: Context, tx: Transaction, n: nat, names: Names, ledger: Ledger, log: set<Registration>)
    requires n <= |tx.outputs| && PositivePeriods(ctx.rules.params) && ctx.height > 0
    requires Good(names, ledger, ctx.height, log)
    requires Consistent(ctx, [tx], ledger) && Steps(ctx, tx, n, names).Ok?
    ensures Good(Steps(ctx, tx, n, names).value.names, ledger, ctx.height, log + LoggedBy(ctx, tx, n, names))
    ensures LoggedBy(ctx, tx, n, names) !! log
  {
    hide Good, Consistent, Step, Logged, PositivePeriods;
    if n == 0 {
      assert log + {} == log;
    } else {
      StepsGood(ctx, tx, n - 1, names, ledger, log);
      var s := Steps(ctx, tx, n - 1, names).value;
      var so := log + LoggedBy(ctx, tx, n - 1, names);
      StepGood(ctx, tx, n - 1, s, ledger, so);
      assert so + Logged(ctx, tx, n - 1, s) == log + LoggedBy(ctx, tx, n, names);
    }
  }

  ghost function LoggedIn(ctx: Context, txs: seq<Transaction>, n: nat, names: Names): set<Registration>
    requires n <= |txs|
  {
    if n == 0 then {}
    else
      LoggedIn(ctx, txs, n - 1, names)
      + var before := ProcessTransactions(ctx, txs, n - 1, names);
        if before.Ok? then LoggedBy(ctx, txs[n - 1], |txs[n - 1].outputs|, before.value) else {}
  }

  lemma {:induction false} TransactionsGood(ctx: Context, txs: seq<Transaction>, n: nat, names: Names, ledger: Ledger, log: set<Registration>)
    requires n <= |txs| && PositivePeriods(ctx.rules.params) && ctx.height > 0
    requires Good(names, ledger, ctx.height, log)
    requires Consistent(ctx, txs, ledger) && ProcessTransactions(ctx, txs, n, names).Ok?
    ensures Good(ProcessTransactions(ctx, txs, n, names).value, ledger, ctx.height, log + LoggedIn(ctx, txs, n, names))
    ensures LoggedIn(ctx, txs, n, names) !! log
  {
    hide Good, Steps, LoggedBy, PositivePeriods, Recorded, Covers, Available;
    if n == 0 {
      assert log + {} == log;
    } else {
      TransactionsGood(ctx, txs, n - 1, names, ledger, log);
      var before := ProcessTransactions(ctx, txs, n - 1, names).value;
      var so := log + LoggedIn(ctx, txs, n - 1, names);
      assert txs[n - 1] in txs;
      StepsGood(ctx, txs[n - 1], |txs[n - 1].outputs|, before, ledger, so);
      assert so + LoggedBy(ctx, txs[n - 1], |txs[n - 1].outputs|, before) == log + LoggedIn(ctx, txs, n, names);
    }
  }

  // ---- Runs ----

  /** The names after a block: flushed into the tree when a commit is due. */
  function AfterBlock(p: NameParams, height: nat, names: Names): Names
    requires p.treeInterval > 0
  {
    if height % p.treeInterval == 0 then Names(map[], Flushed(names)) else names
  }

  lemma {:induction false} AfterBlockGood(p: NameParams, names: Names, ledger: Ledger, now: nat, log: set<Registration>)
    requires p.treeInterval > 0 && Good(names, ledger, now, log)
    ensures Good(AfterBlock(p, now, names), ledger, now, log)
  {
    var after := AfterBlock(p, now, names);
    forall key
      ensures after.Get(key).Some? <==> names.Get(key).Some?
      ensures after.Get(key).Some? ==>
        after.Get(key).value == names.Get(key).value || after.Get(key).value == names.Get(key).value.Stored()
    {
    }
    AliveStored(names, after, ledger, now);
  }

  lemma {:induction false} AliveStored(names: Names, after: Names, ledger: Ledger, now: nat)
    requires AllAlive(names, ledger, now)
    requires forall key ::
      && (after.Get(key).Some? ==> names.Get(key).Some?)
      && (after.Get(key).Some? ==>
            after.Get(key).value == names.Get(key).value || after.Get(key).value == names.Get(key).value.Stored())
    ensures AllAlive(after, ledger, now)
  {
    forall key | after.Get(key).Some?
      ensures Alive(key, after.Get(key).value, ledger, now)
    {
      assert Alive(key, names.Get(key).value, ledger, now);
    }
  }

  lemma {:induction false} LedgerGrows(names: Names, ledger: Ledger, larger: Ledger, now: nat, log: set<Registration>)
    requires Good(names, ledger, now, log)
    requires forall op :: op in ledger ==> op in larger && larger[op] == ledger[op]
    ensures Good(names, larger, now + 1, log)
  {
    forall key | names.Get(key).Some?
      ensures Alive(key, names.Get(key).value, larger, now + 1)
    {
      assert Alive(key, names.Get(key).value, ledger, now);
    }
  }

  /** A database without names, before any registration. */
  lemma {:induction false} NothingIsGood()
    ensures Good(Names(map[], map[]), map[], 0, {})
  {
    hide Alive, Settled, Storable;
  }

  /** A connected block, its context, and all outputs created up to and including it. */
  datatype Connected = Connected(ctx: Context, block: seq<Transaction>, ledger: Ledger)

  /** What holds of names, ledger, height and registrations along a run. */
  datatype Progressing = Progressing(names: Names, ledger: Ledger, now: nat, log: set<Registration>)

  /** The block is accepted in this state; outputs created earlier keep their outpoints. */
  ghost predicate Accepts(p: NameParams, s: Progressing, b: Connected) {
    && b.ctx.rules.params == p && b.ctx.height == s.now + 1
    && (forall op :: op in s.ledger ==> op in b.ledger && b.ledger[op] == s.ledger[op])
    && Consistent(b.ctx, b.block, b.ledger)
    && ProcessTransactions(b.ctx, b.block, |b.block|, s.names).Ok?
  }

  ghost function Accept(p: NameParams, s: Progressing, b: Connected): Progressing
    requires p.treeInterval > 0 && Accepts(p, s, b)
  {
    Progressing(
      AfterBlock(p, b.ctx.height, ProcessTransactions(b.ctx, b.block, |b.block|, s.names).value),
      b.ledger, b.ctx.height, s.log + LoggedIn(b.ctx, b.block, |b.block|, s.names))
  }

  ghost predicate Reaches(p: NameParams, s: Progressing, blocks: seq<Connected>, t: Progressing)
    requires p.treeInterval > 0
    decreases |blocks|
  {
    if blocks == [] then s == t
    else Accepts(p, s, blocks[0]) && Reaches(p, Accept(p, s, blocks[0]), blocks[1..], t)
  }

  /** In every run of accepted blocks every stored name is alive and every registration settled. */
  lemma {:induction false} LifecycleInvariant(p: NameParams, s: Progressing, blocks: seq<Connected>, t: Progressing)
    requires p.treeInterval > 0 && PositivePeriods(p)
    requires Good(s.names, s.ledger, s.now, s.log)
    requires Reaches(p, s, blocks, t)
    ensures Good(t.names, t.ledger, t.now, t.log)
    decreases |blocks|
  {
    hide Good, PositivePeriods, ProcessTransactions, LoggedIn, Consistent, AfterBlock;
    if blocks != [] {
      var b := blocks[0];
      LedgerGrows(s.names, s.ledger, b.ledger, s.now, s.log);
      TransactionsGood(b.ctx, b.block, |b.block|, s.names, b.ledger, s.log);
      AfterBlockGood(p, ProcessTransactions(b.ctx, b.block, |b.block|, s.names).value, b.ledger, b.ctx.height,
                     Accept(p, s, b).log);
      LifecycleInvariant(p, Accept(p, s, b), blocks[1..], t);
    }
  }

  /** No name is registered twice in one auction round, however far apart the two blocks are. */
  lemma {:induction false} OneRegistrationPerRound(p: NameParams, s: Progressing, blocks: seq<Connected>, t: Progressing, b: Connected)
    requires p.treeInterval > 0 && PositivePeriods(p)
    requires Good(s.names, s.ledger, s.now, s.log)
    requires Reaches(p, s, blocks, t) && Accepts(p, t, b)
    ensures LoggedIn(b.ctx, b.block, |b.block|, t.names) !! t.log
  {
    hide Good, PositivePeriods, ProcessTransactions, LoggedIn, Consistent, Reaches;
    LifecycleInvariant(p, s, blocks, t);
    LedgerGrows(t.names, t.ledger, b.ledger, t.now, t.log);
    TransactionsGood(b.ctx, b.block, |b.block|, t.names, b.ledger, t.log);
  }
}
