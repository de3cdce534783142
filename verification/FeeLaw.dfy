/**
 * When accepted transactions pay all their fees in full. The burn and the payments are checked one
 * by one against the same outputs (Sources/Chain/CovenantProcessor.swift, lines 621 to 648), so one
 * output at the null address can serve both a burn and a payment. That happens only if somebody is
 * paid at the null address: the dev fund, or the owner of an enclosing name.
 */
module FeeLaw {
  import opened Base
  import opened BlockReward
  import opened Sums
  import opened Covenants
  import opened NameState
  import opened NameDB
  import opened CovenantContext
  import opened CovenantFees
  import opened CovenantRules
  import opened CovenantProcessor

  function CoinAddress(ctx: Context, op: Outpoint): Option<Address> {
    if op in ctx.view then Some(ctx.view[op].address)
    else if op in ctx.utxo then Some(ctx.utxo[op].address)
    else None
  }

  /** No stored name that could earn a share has its coin at this address. */
  ghost predicate EarnsNothing(ctx: Context, names: Names, a: Address) {
    forall key :: AncestorPayee(ctx, names, key) != Some(a)
  }

  /** No coin of the transaction is at this address. */
  ghost predicate HoldsNothing(ctx: Context, tx: Transaction, a: Address) {
    forall i: nat :: i < |tx.outputs| ==> CoinAddress(ctx, Outpoint(tx.hash, i)) != Some(a)
  }

  // ---- Who is never paid ----

  lemma {:induction false} PayeesAvoid(ctx: Context, db: Names, ancestors: seq<Hash>, a: Address)
    requires EarnsNothing(ctx, db, a)
    ensures Times(Payees(ctx, db, ancestors), a) == 0
  {
    hide AncestorPayee;
    if ancestors != [] {
      var last := |ancestors| - 1;
      PayeesAvoid(ctx, db, ancestors[..last], a);
      var payee := AncestorPayee(ctx, db, ancestors[last]);
      if payee.Some? {
        var before := Payees(ctx, db, ancestors[..last]);
        assert (before + [payee.value])[..|before|] == before;
      } else {
        assert Payees(ctx, db, ancestors) == Payees(ctx, db, ancestors[..last]);
      }
    }
  }

  lemma {:induction false} SplitFeeAvoids(ctx: Context, db: Names, ns: NameState, fee: nat, before: Payments, a: Address)
    requires EarnsNothing(ctx, db, a) && ctx.devFund != a
    ensures Get(SplitFee(ctx, db, ns, fee, before), a) == Get(before, a)
  {
    hide EarnsNothing, Payees, AncestorHashes, PayEach, Times;
    var share := fee / 2;
    var ancestors := AncestorHashes(ctx.rules, ns.name);
    if !(ns.parentHash == ZERO_HASH || ancestors == [] || share == 0) {
      var each := share / |ancestors|;
      var payees := if each == 0 then [] else Payees(ctx, db, ancestors);
      PayeesAvoid(ctx, db, ancestors, a);
      PayEachShare(before, payees, each, a);
      assert each * 0 == 0;
      assert each * Times(payees, a) == 0;
    }
  }

  lemma {:induction false} ChargeAvoids(ctx: Context, db: Names, kind: CovenantType, ns: NameState, dues: Dues, a: Address)
    requires EarnsNothing(ctx, db, a) && ctx.devFund != a
    ensures Get(Charge(ctx, db, kind, ns, dues).payments, a) == Get(dues.payments, a)
  {
    hide SplitFee, EarnsNothing, RegistrationPrice, RenewalFee;
    var price := Price(ctx, kind, ns);
    SplitFeeAvoids(ctx, db, ns, price - BurnShare(ctx, price), dues.payments, a);
    SplitFeeAvoids(ctx, db, ns, price, dues.payments, a);
  }

  /** An operation writes its own name only, and leaves it to nobody, to its owner or to this output. */
  ghost predicate OwnedAfter(tx: Transaction, i: nat, key: Hash, ns: NameState, db: Names, after: Names) {
    after == db ||
    exists s: NameState {:trigger db.Put(key, s)} :: after == db.Put(key, s) &&
      (s.owner == ns.owner || s.owner == Some(Outpoint(tx.hash, i)))
  }

  lemma {:induction false} KindOwner(ctx: Context, tx: Transaction, i: nat, key: Hash, ns: NameState, db: Names)
    requires i < |tx.outputs| && ProcessKind(ctx, tx, i, key, ns, db).Ok?
    ensures OwnedAfter(tx, i, key, ns, db, ProcessKind(ctx, tx, i, key, ns, db).value)
  {
    hide NameState.StateAt, VerifyRenewal, MatchingCoin, CheckRound, SpendOwner, RegistrationPrice, TransferTarget;
    match tx.outputs[i].covenant.kind {
      case Nothing =>
      case Open => assert ProcessKind(ctx, tx, i, key, ns, db).value == db.Put(key, ProcessOpen(ctx, tx, i, key, ns, db).value);
      case Bid =>
      case Reveal => assert ProcessKind(ctx, tx, i, key, ns, db).value == db.Put(key, ProcessReveal(ctx, tx, i, ns).value);
      case Redeem =>
      case Register => assert ProcessKind(ctx, tx, i, key, ns, db).value == db.Put(key, ProcessRegister(ctx, tx, i, ns).value);
      case Update => assert ProcessKind(ctx, tx, i, key, ns, db).value == db.Put(key, ProcessUpdate(ctx, tx, i, ns).value);
      case Renew => assert ProcessKind(ctx, tx, i, key, ns, db).value == db.Put(key, ProcessRenew(ctx, tx, i, ns).value);
      case Transfer => assert ProcessKind(ctx, tx, i, key, ns, db).value == db.Put(key, ProcessTransfer(ctx, tx, i, ns).value);
      case Finalize => assert ProcessKind(ctx, tx, i, key, ns, db).value == db.Put(key, ProcessFinalize(ctx, tx, i, ns).value);
      case Revoke => assert ProcessKind(ctx, tx, i, key, ns, db).value == db.Put(key, ProcessRevoke(ctx, tx, i, ns).value);
    }
  }

  /** A prepared state with an owner is a stored one that has not expired. */
  lemma {:induction false} PreparedOwner(ctx: Context, c: Covenant, key: Hash, db: Names, a: Address)
    requires Prepare(ctx, c, key, db).Ok? && EarnsNothing(ctx, db, a)
    ensures var ns := Prepare(ctx, c, key, db).value;
      ns.owner.Some? ==> CoinAddress(ctx, ns.owner.value) != Some(a)
  {
    hide NameState.IsExpired, NameState.IsNull;
    assert AncestorPayee(ctx, db, key) != Some(a);
  }

  lemma {:induction false} PutAvoids(ctx: Context, db: Names, key: Hash, s: NameState, a: Address)
    requires EarnsNothing(ctx, db, a)
    requires s.owner.Some? ==> CoinAddress(ctx, s.owner.value) != Some(a)
    ensures EarnsNothing(ctx, db.Put(key, s), a)
  {
    hide NameState.IsExpired;
    forall k ensures AncestorPayee(ctx, db.Put(key, s), k) != Some(a) {
      assert AncestorPayee(ctx, db, k) != Some(a);
    }
  }

  lemma {:induction false} StepAvoids(ctx: Context, tx: Transaction, i: nat, s: Progress, a: Address)
    requires i < |tx.outputs| && Step(ctx, tx, i, s).Ok?
    requires ctx.devFund != a && EarnsNothing(ctx, s.names, a) && HoldsNothing(ctx, tx, a)
    ensures var t := Step(ctx, tx, i, s).value;
      EarnsNothing(ctx, t.names, a) && Get(t.dues.payments, a) == Get(s.dues.payments, a)
  {
    hide EarnsNothing, Prepare, ProcessKind, Charge, CoinAddress, Names.Put;
    var c := tx.outputs[i].covenant;
    if c.kind.IsName() {
      var key := NameHashOf(c).value;
      var ns := Prepare(ctx, c, key, s.names).value;
      PreparedOwner(ctx, c, key, s.names, a);
      ChargeAvoids(ctx, s.names, c.kind, ns, s.dues, a);
      KindOwner(ctx, tx, i, key, ns, s.names);
      var after := ProcessKind(ctx, tx, i, key, ns, s.names).value;
      if after != s.names {
        var changed {:trigger s.names.Put(key, changed)} :| after == s.names.Put(key, changed) &&
          (changed.owner == ns.owner || changed.owner == Some(Outpoint(tx.hash, i)));
        PutAvoids(ctx, s.names, key, changed, a);
      }
    }
  }

  lemma {:induction false} StepsAvoid(ctx: Context, tx: Transaction, n: nat, names: Names, a: Address)
    requires n <= |tx.outputs| && Steps(ctx, tx, n, names).Ok?
    requires ctx.devFund != a && EarnsNothing(ctx, names, a) && HoldsNothing(ctx, tx, a)
    ensures var s := Steps(ctx, tx, n, names).value;
      EarnsNothing(ctx, s.names, a) && Get(s.dues.payments, a) == 0
  {
    hide Step, EarnsNothing, HoldsNothing;
    if n > 0 {
      StepsAvoid(ctx, tx, n - 1, names, a);
      StepAvoids(ctx, tx, n - 1, Steps(ctx, tx, n - 1, names).value, a);
    }
  }

  // ---- Without a burn ----

  lemma {:induction false} NothingBurned(ctx: Context, tx: Transaction, n: nat, names: Names)
    requires n <= |tx.outputs| && Steps(ctx, tx, n, names).Ok? && ctx.rules.params.registrationBurnPercent == 0
    ensures Steps(ctx, tx, n, names).value.dues.burn == 0
  {
    hide Prepare, ProcessKind, SplitFee, Price;
    if n > 0 {
      NothingBurned(ctx, tx, n - 1, names);
    }
  }

  // ---- The law ----

  /**
   * Nobody is paid at the null address, or nothing is burned. Every part can be read off the
   * context, the stored names and the transaction before it is processed.
   */
  ghost predicate PaidApart(ctx: Context, tx: Transaction, names: Names) {
    || ctx.rules.params.registrationBurnPercent == 0
    || (ctx.devFund != NULL_ADDRESS && EarnsNothing(ctx, names, NULL_ADDRESS) && HoldsNothing(ctx, tx, NULL_ADDRESS))
  }

  /** An accepted transaction spends at least all its prices and fees on outputs without a covenant. */
  lemma {:induction false} AcceptedFeesArePaid(ctx: Context, tx: Transaction, names: Names)
    requires ProcessTransaction(ctx, tx, names).Ok? && PaidApart(ctx, tx, names)
    ensures Prices(ctx, tx, |tx.outputs|, names) <= PlainValue(tx.outputs)
  {
    hide Steps, Prices, Available, PlainValue, Covers, EarnsNothing, HoldsNothing;
    var all := |tx.outputs|;
    assert Steps(ctx, tx, all, names).Ok?;
    if ctx.rules.params.registrationBurnPercent == 0 {
      NothingBurned(ctx, tx, all, names);
    } else {
      StepsAvoid(ctx, tx, all, names, NULL_ADDRESS);
    }
    DuesCovered(ctx, tx, names);
  }

  /** The same for every transaction of an accepted block, judged before the block. */
  lemma {:induction false} BlockFeesArePaid(ctx: Context, txs: seq<Transaction>, n: nat, names: Names)
    requires n <= |txs| && ProcessTransactions(ctx, txs, n, names).Ok?
    requires forall k :: 0 <= k < n ==> PaidApart(ctx, txs[k], names)
    ensures forall k :: 0 <= k < n ==>
      && ProcessTransactions(ctx, txs, k, names).Ok?
      && Prices(ctx, txs[k], |txs[k].outputs|, ProcessTransactions(ctx, txs, k, names).value) <= PlainValue(txs[k].outputs)
  {
    hide ProcessTransaction, Prices, PlainValue, PaidApart;
    if n > 0 {
      BlockFeesArePaid(ctx, txs, n - 1, names);
      var before, tx := ProcessTransactions(ctx, txs, n - 1, names).value, txs[n - 1];
      StillApart(ctx, txs, n - 1, names, tx);
      AcceptedFeesArePaid(ctx, tx, before);
    }
  }

  /** Transactions that keep apart leave the condition for another one as it was. */
  lemma {:induction false} StillApart(ctx: Context, txs: seq<Transaction>, n: nat, names: Names, tx: Transaction)
    requires n <= |txs| && ProcessTransactions(ctx, txs, n, names).Ok? && PaidApart(ctx, tx, names)
    requires forall k :: 0 <= k < n ==> PaidApart(ctx, txs[k], names)
    ensures PaidApart(ctx, tx, ProcessTransactions(ctx, txs, n, names).value)
  {
    hide ProcessTransaction, EarnsNothing, HoldsNothing;
    if n > 0 && ctx.rules.params.registrationBurnPercent != 0 {
      StillApart(ctx, txs, n - 1, names, tx);
      assert PaidApart(ctx, txs[n - 1], names);
      NamesAvoid(ctx, txs[n - 1], ProcessTransactions(ctx, txs, n - 1, names).value);
    }
  }

  lemma {:induction false} NamesAvoid(ctx: Context, tx: Transaction, names: Names)
    requires ProcessTransaction(ctx, tx, names).Ok? && ctx.devFund != NULL_ADDRESS
    requires EarnsNothing(ctx, names, NULL_ADDRESS) && HoldsNothing(ctx, tx, NULL_ADDRESS)
    ensures EarnsNothing(ctx, ProcessTransaction(ctx, tx, names).value, NULL_ADDRESS)
  {
    hide Steps, Covers, Available, EarnsNothing, HoldsNothing;
    StepsAvoid(ctx, tx, |tx.outputs|, names, NULL_ADDRESS);
  }

  // ---- Where it fails ----

  /** The timing and prices of the regression test network. */
  const REGTEST := NameParams(5, 6, 10, 20, 20, 5, 200, 50, 10, 50, 1, 50, 0, 1, 0, 1, 0, 1)

  const NAME: Hash := [0x61] + Zeros(31)
  const REVEALED: Outpoint := Outpoint([0x62] + Zeros(31), 0)
  const RENEWAL_BLOCK: Hash := [0x63] + Zeros(31)
  const TXID: Hash := [0x64] + Zeros(31)
  const WINNER := Address(0, [1] + Zeros(19))

  /** Register the name of REVEALED and pay `v` to the null address. */
  function Registration(v: nat): Transaction {
    var register := Covenant(Register, [NAME, [1, 0, 0, 0], [], RENEWAL_BLOCK]);
    Transaction(TXID, 0, [REVEALED],
                [Output(0, WINNER, register), Output(v, NULL_ADDRESS, Covenant(Nothing, []))])
  }

  /** The name was opened at height 1; its auction is over, and the second price was `price`. */
  function Won(price: nat): NameState {
    NewName(NAME, [0x61]).(height := 1, renewal := 1, owner := Some(REVEALED), value := price, highest := price)
  }

  /** A block at height 40 of a chain whose dev fund address is the null address. */
  ghost function AtForty(rules: Rules): Context {
    var revealed := Output(0, WINNER, Covenant(Reveal, []));
    Context(rules.(params := REGTEST), 40, map[REVEALED := revealed], map[],
            ChainIndex(map[RENEWAL_BLOCK := 20], map[20 := RENEWAL_BLOCK]), NULL_ADDRESS)
  }

  lemma {:induction false} Sizes()
    ensures |NAME| == 32 && |RENEWAL_BLOCK| == 32
    ensures LittleEndian([1, 0, 0, 0]) == 1 && NameHashOf(Covenant(Nothing, [])) == None
  {
    ZerosLength(31);
    assert [1, 0, 0, 0][1..] == [0, 0, 0] && [0, 0, 0][1..] == [0, 0] && [0, 0][1..] == [0];
  }

  lemma {:induction false} RegistrationPrepared(rules: Rules, v: nat)
    ensures var ctx, c := AtForty(rules), Registration(v).outputs[0].covenant;
      && NameHashOf(c) == Some(NAME) && HeightOf(c) == Some(1) && ItemOfSize(c, 3, 32) == Some(RENEWAL_BLOCK)
      && Prepare(ctx, c, NAME, Names(map[], map[NAME := Won(2 * v)])) == Ok(Won(2 * v))
  {
    hide Zeros, LittleEndian;
    Sizes();
  }

  lemma {:induction false} NoMinimumBid(height: nat, rawName: Bytes)
    ensures MinimumBid(REGTEST, height, rawName) == 0
  {
    hide GetReward, IsSubdomain;
    assert GetReward(height, HALVING_INTERVAL) * 0 == 0;
  }

  lemma {:induction false} RegistrationAccepted(rules: Rules, v: nat)
    requires v > 0
    ensures ProcessRegister(AtForty(rules), Registration(v), 0, Won(2 * v)).Ok?
    ensures Price(AtForty(rules), Register, Won(2 * v)) == 2 * v
  {
    hide Zeros, LittleEndian, MinimumBid, NameHashOf;
    RegistrationPrepared(rules, v);
    NoMinimumBid(40, [0x61]);
  }

  lemma {:induction false} RegistrationDues(rules: Rules, db: Names, v: nat)
    requires v > 0
    ensures Charge(AtForty(rules), db, Register, Won(2 * v), NO_DUES) == Dues(v, map[NULL_ADDRESS := v])
  {
    hide Price, AncestorHashes, Payees, Zeros;
    RegistrationAccepted(rules, v);
    assert 2 * v * 50 / 100 == v;
  }

  lemma {:induction false} RegistrationPays(v: nat)
    ensures Available(Registration(v).outputs) == map[NULL_ADDRESS := v] && PlainValue(Registration(v).outputs) == v
  {
    hide Zeros;
    var outputs := Registration(v).outputs;
    var first := outputs[..1];
    assert first == [outputs[0]] && first[..0] == [];
    assert Available(first) == map[] && PlainValue(first) == 0;
  }

  /** An accepted registration at price 2v whose only plain output is v: it serves as burn and as payment. */
  lemma {:induction false} RegistrationPaidOnce(rules: Rules, v: nat)
    requires v > 0
    ensures var ctx, tx, names := AtForty(rules), Registration(v), Names(map[], map[NAME := Won(2 * v)]);
      && ProcessTransaction(ctx, tx, names).Ok?
      && Prices(ctx, tx, |tx.outputs|, names) == 2 * v
      && PlainValue(tx.outputs) == v
  {
    hide Zeros, LittleEndian, AtForty, Charge, Prepare, Price, ProcessRegister, Available, PlainValue, NameHashOf, Won;
    var ctx, tx, names := AtForty(rules), Registration(v), Names(map[], map[NAME := Won(2 * v)]);
    RegistrationPrepared(rules, v);
    RegistrationAccepted(rules, v);
    RegistrationDues(rules, names, v);
    RegistrationPays(v);
    Sizes();
    assert Steps(ctx, tx, 0, names) == Ok(Progress(names, NO_DUES));
    assert Steps(ctx, tx, 1, names) == Step(ctx, tx, 0, Progress(names, NO_DUES));
    assert Steps(ctx, tx, 2, names) == Steps(ctx, tx, 1, names);
    assert Prices(ctx, tx, 1, names) == 2 * v;
  }
}
