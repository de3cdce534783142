/**
 * Whole transactions and blocks: validation, replay, and the law that ties them together
 * (Sources/Chain/CovenantProcessor.swift; Sources/Chain/ChainValidation.swift, lines 229 to 275).
 */
module CovenantProcessor {
  import opened Base
  import opened Sums
  import opened Covenants
  import opened NameState
  import opened NameDB
  import opened CovenantContext
  import opened CovenantFees
  import opened CovenantRules
  import opened CovenantReplay

  /** Names and dues part of the way through a transaction. */
  datatype Progress = Progress(names: Names, dues: Dues)

  /** Output `i`: validate, charge, apply. */
  function Step(ctx: Context, tx: Transaction, i: nat, s: Progress): Result<Progress, Error>
    requires i < |tx.outputs|
  {
    var c := tx.outputs[i].covenant;
    if !c.kind.IsName() then Ok(s)
    else
      var key :- NameHashOf(c).ToResult(MalformedCovenant);
      var ns :- Prepare(ctx, c, key, s.names);
      var names :- ProcessKind(ctx, tx, i, key, ns, s.names);
      Ok(Progress(names, Charge(ctx, s.names, c.kind, ns, s.dues)))
  }

  /** The first `n` outputs. */
  function Steps(ctx: Context, tx: Transaction, n: nat, names: Names): Result<Progress, Error>
    requires n <= |tx.outputs|
  {
    if n == 0 then Ok(Progress(names, NO_DUES))
    else
      var s :- Steps(ctx, tx, n - 1, names);
      Step(ctx, tx, n - 1, s)
  }

  function ProcessTransaction(ctx: Context, tx: Transaction, names: Names): Result<Names, Error> {
    var s :- Steps(ctx, tx, |tx.outputs|, names);
    :- Guard(Covers(Available(tx.outputs), s.dues), DevFundPaymentInsufficient);
    Ok(s.names)
  }

  /** The first `n` transactions of a block. */
  function ProcessTransactions(ctx: Context, txs: seq<Transaction>, n: nat, names: Names): Result<Names, Error>
    requires n <= |txs|
  {
    if n == 0 then Ok(names)
    else
      var before :- ProcessTransactions(ctx, txs, n - 1, names);
      ProcessTransaction(ctx, txs[n - 1], before)
  }

  lemma {:induction false} FailureSticks(ctx: Context, tx: Transaction, i: nat, n: nat, names: Names)
    requires i <= n <= |tx.outputs| && Steps(ctx, tx, i, names).Err?
    ensures Steps(ctx, tx, n, names).Err?
  {
    hide Step;
    if i < n {
      FailureSticks(ctx, tx, i, n - 1, names);
    }
  }

  lemma {:induction false} BlockFailureSticks(ctx: Context, txs: seq<Transaction>, i: nat, n: nat, names: Names)
    requires i <= n <= |txs| && ProcessTransactions(ctx, txs, i, names).Err?
    ensures ProcessTransactions(ctx, txs, n, names).Err?
  {
    hide ProcessTransaction;
    if i < n {
      BlockFailureSticks(ctx, txs, i, n - 1, names);
    }
  }

  /** One output of the loop below: the new dues, or the error thrown. */
  method ProcessOutput(ctx: Context, tx: Transaction, i: nat, db: NameDB, dues: Dues) returns (r: Result<Dues, Error>)
    requires i < |tx.outputs|
    modifies db`pending
    ensures r.Ok? <==> Step(ctx, tx, i, Progress(old(db.View()), dues)).Ok?
    ensures r.Ok? ==> Step(ctx, tx, i, Progress(old(db.View()), dues)) == Ok(Progress(db.View(), r.value))
  {
    hide Charge, ProcessOpen, ProcessReveal, ProcessRegister, ProcessUpdate, ProcessRenew, ProcessTransfer,
      ProcessFinalize, ProcessRevoke, ProcessBid, ProcessRedeem;
    var c := tx.outputs[i].covenant;
    if !c.kind.IsName() {
      return Ok(dues);
    }
    var key :- NameHashOf(c).ToResult(MalformedCovenant);
    var ns :- Prepare(ctx, c, key, db.View());
    r := Ok(Charge(ctx, db.View(), c.kind, ns, dues));
    match c.kind {
      case Nothing =>
      case Open =>
        var s :- ProcessOpen(ctx, tx, i, key, ns, db.View());
        db.PutNameState(key, s);
      case Bid =>
        var verdict := ProcessBid(ctx, tx, i, ns);
        if verdict.Throw? {
          return Err(verdict.error);
        }
      case Reveal =>
        var s :- ProcessReveal(ctx, tx, i, ns);
        db.PutNameState(key, s);
      case Redeem =>
        var _ :- ProcessRedeem(ctx, tx, i, ns);
      case Register =>
        var s :- ProcessRegister(ctx, tx, i, ns);
        db.PutNameState(key, s);
      case Update =>
        var s :- ProcessUpdate(ctx, tx, i, ns);
        db.PutNameState(key, s);
      case Renew =>
        var s :- ProcessRenew(ctx, tx, i, ns);
        db.PutNameState(key, s);
      case Transfer =>
        var s :- ProcessTransfer(ctx, tx, i, ns);
        db.PutNameState(key, s);
      case Finalize =>
        var s :- ProcessFinalize(ctx, tx, i, ns);
        db.PutNameState(key, s);
      case Revoke =>
        var s :- ProcessRevoke(ctx, tx, i, ns);
        db.PutNameState(key, s);
    }
  }

  /** Validate and apply every covenant of a transaction, then check that all fees are paid. */
  method ProcessCovenants(ctx: Context, tx: Transaction, db: NameDB) returns (r: Outcome<Error>)
    modifies db`pending
    ensures r.Pass? <==> ProcessTransaction(ctx, tx, old(db.View())).Ok?
    ensures r.Pass? ==> ProcessTransaction(ctx, tx, old(db.View())) == Ok(db.View())
  {
    hide Step, Covers, Available;
    var dues, i := NO_DUES, 0;
    ghost var names := db.View();
    while i < |tx.outputs|
      invariant 0 <= i <= |tx.outputs|
      invariant Steps(ctx, tx, i, names) == Ok(Progress(db.View(), dues))
    {
      var step := ProcessOutput(ctx, tx, i, db, dues);
      i := i + 1;
      if step.Err? {
        FailureSticks(ctx, tx, i, |tx.outputs|, names);
        return Throw(step.error);
      }
      dues := step.value;
    }
    r := CheckPayments(tx.outputs, dues);
  }

  /**
   * The name part of connecting a block. When any transaction is refused the pending map is
   * restored, so nothing of the block remains.
   */
  method ConnectNames(ctx: Context, txs: seq<Transaction>, db: NameDB) returns (r: Outcome<Error>)
    modifies db`pending
    ensures r.Pass? <==> ProcessTransactions(ctx, txs, |txs|, old(db.View())).Ok?
    ensures r.Pass? ==> ProcessTransactions(ctx, txs, |txs|, old(db.View())) == Ok(db.View())
    ensures r.Throw? ==> db.View() == old(db.View())
  {
    hide ProcessTransaction;
    ghost var names := db.View();
    var snapshot := db.pending;
    var i := 0;
    while i < |txs|
      invariant 0 <= i <= |txs| && snapshot == names.pending && db.tree == names.tree
      invariant ProcessTransactions(ctx, txs, i, names) == Ok(db.View())
    {
      r := ProcessCovenants(ctx, txs[i], db);
      i := i + 1;
      if r.Throw? {
        BlockFailureSticks(ctx, txs, i, |txs|, names);
        db.RestorePending(snapshot);
        return;
      }
    }
    return Pass;
  }

  // ---- Replay ----

  method ReplayInto(p: NameParams, h: nat, tx: Transaction, i: nat, db: NameDB) returns (r: Outcome<Error>)
    requires i < |tx.outputs|
    modifies db`pending
    ensures r.Pass? <==> ReplayOutput(p, h, tx, i, old(db.View())).Ok?
    ensures r.Pass? ==> ReplayOutput(p, h, tx, i, old(db.View())) == Ok(db.View())
  {
    hide ReplayPrepare, ReplayChange;
    var output := tx.outputs[i];
    var c := output.covenant;
    if !c.kind.IsName() {
      return Pass;
    }
    var key := NameHashOf(c);
    if key.None? {
      return Throw(MalformedCovenant);
    }
    var ns := ReplayPrepare(p, h, c, key.value, db.View());
    if ns.Err? {
      return Throw(ns.error);
    }
    var change := ReplayChange(p, h, output, Outpoint(tx.hash, i), ns.value);
    if change.Err? {
      return Throw(change.error);
    }
    if change.value.Some? {
      db.PutNameState(key.value, change.value.value);
    }
    return Pass;
  }

  lemma {:induction false} ReplayFailureSticks(p: NameParams, h: nat, tx: Transaction, i: nat, n: nat, db: Names)
    requires i <= n <= |tx.outputs| && ReplayOutputs(p, h, tx, i, db).Err?
    ensures ReplayOutputs(p, h, tx, n, db).Err?
  {
    if i < n {
      ReplayFailureSticks(p, h, tx, i, n - 1, db);
    }
  }

  lemma {:induction false} ReplayBlockFailureSticks(p: NameParams, h: nat, txs: seq<Transaction>, i: nat, n: nat, db: Names)
    requires i <= n <= |txs| && ReplayTransactions(p, h, txs, i, db).Err?
    ensures ReplayTransactions(p, h, txs, n, db).Err?
  {
    if i < n {
      ReplayBlockFailureSticks(p, h, txs, i, n - 1, db);
    }
  }

  method ReplayTransaction(p: NameParams, h: nat, tx: Transaction, db: NameDB) returns (r: Outcome<Error>)
    modifies db`pending
    ensures r.Pass? <==> ReplayOutputs(p, h, tx, |tx.outputs|, old(db.View())).Ok?
    ensures r.Pass? ==> ReplayOutputs(p, h, tx, |tx.outputs|, old(db.View())) == Ok(db.View())
  {
    hide ReplayOutput;
    ghost var names := db.View();
    var i := 0;
    while i < |tx.outputs|
      invariant 0 <= i <= |tx.outputs|
      invariant ReplayOutputs(p, h, tx, i, names) == Ok(db.View())
    {
      r := ReplayInto(p, h, tx, i, db);
      i := i + 1;
      if r.Throw? {
        ReplayFailureSticks(p, h, tx, i, |tx.outputs|, names);
        return;
      }
    }
    return Pass;
  }

  /** Repeat a stored block's name changes. */
  method ReplayCovenants(p: NameParams, h: nat, txs: seq<Transaction>, db: NameDB) returns (r: Outcome<Error>)
    modifies db`pending
    ensures r.Pass? <==> ReplayTransactions(p, h, txs, |txs|, old(db.View())).Ok?
    ensures r.Pass? ==> ReplayTransactions(p, h, txs, |txs|, old(db.View())) == Ok(db.View())
  {
    hide ReplayOutputs;
    ghost var names := db.View();
    var i := 0;
    while i < |txs|
      invariant 0 <= i <= |txs|
      invariant ReplayTransactions(p, h, txs, i, names) == Ok(db.View())
    {
      r := ReplayTransaction(p, h, txs[i], db);
      i := i + 1;
      if r.Throw? {
        ReplayBlockFailureSticks(p, h, txs, i, |txs|, names);
        return;
      }
    }
    return Pass;
  }

  // ---- What validation accepts, replay repeats ----

  lemma {:induction false} StepAgrees(ctx: Context, tx: Transaction, i: nat, s: Progress)
    requires i < |tx.outputs| && ctx.height > 0 && AllStorable(s.names)
    requires Step(ctx, tx, i, s).Ok?
    ensures ReplayOutput(ctx.rules.params, ctx.height, tx, i, s.names) == Ok(Step(ctx, tx, i, s).value.names)
    ensures AllStorable(Step(ctx, tx, i, s).value.names)
  {
    hide Prepare, ReplayPrepare, ProcessKind, ReplayKind, Charge, AllStorable;
    var c := tx.outputs[i].covenant;
    if c.kind.IsName() {
      var key := NameHashOf(c).value;
      PrepareAgrees(ctx, c, key, s.names);
      var ns := Prepare(ctx, c, key, s.names).value;
      ProcessKindAgrees(ctx, tx, i, key, ns, s.names);
      var after := ProcessKind(ctx, tx, i, key, ns, s.names).value;
      if after != s.names {
        var changed {:trigger s.names.Put(key, changed)} :| Storable(changed) && after == s.names.Put(key, changed);
        PutStorable(s.names, key, changed);
      }
    }
  }

  lemma {:induction false} StepsAgree(ctx: Context, tx: Transaction, n: nat, names: Names)
    requires n <= |tx.outputs| && ctx.height > 0 && AllStorable(names)
    requires Steps(ctx, tx, n, names).Ok?
    ensures ReplayOutputs(ctx.rules.params, ctx.height, tx, n, names) == Ok(Steps(ctx, tx, n, names).value.names)
    ensures AllStorable(Steps(ctx, tx, n, names).value.names)
  {
    hide Step, ReplayOutput, AllStorable;
    if n > 0 {
      StepsAgree(ctx, tx, n - 1, names);
      StepAgrees(ctx, tx, n - 1, Steps(ctx, tx, n - 1, names).value);
    }
  }

  /**
   * Replay refines validation: whatever block (after genesis) validation accepts, replaying it
   * from the same database gives the same pending map, and every stored name stays storable.
   */
  lemma {:induction false} ReplayRepeatsValidation(ctx: Context, txs: seq<Transaction>, n: nat, names: Names)
    requires n <= |txs| && ctx.height > 0 && AllStorable(names)
    requires ProcessTransactions(ctx, txs, n, names).Ok?
    ensures ReplayTransactions(ctx.rules.params, ctx.height, txs, n, names) == ProcessTransactions(ctx, txs, n, names)
    ensures AllStorable(ProcessTransactions(ctx, txs, n, names).value)
  {
    hide Steps, ReplayOutputs, AllStorable, Covers, Available;
    if n > 0 {
      ReplayRepeatsValidation(ctx, txs, n - 1, names);
      StepsAgree(ctx, txs[n - 1], |txs[n - 1].outputs|, ProcessTransactions(ctx, txs, n - 1, names).value);
    }
  }

  // ---- Fees over a whole transaction ----

  /** The prices of the first `n` outputs, each at the state its name is in when it is processed. */
  ghost function Prices(ctx: Context, tx: Transaction, n: nat, names: Names): nat
    requires n <= |tx.outputs|
  {
    if n == 0 then 0
    else
      Prices(ctx, tx, n - 1, names)
      + var s, c := Steps(ctx, tx, n - 1, names), tx.outputs[n - 1].covenant;
        if s.Err? || NameHashOf(c) == None then 0
        else
          var ns := Prepare(ctx, c, NameHashOf(c).value, s.value.names);
          if ns.Err? then 0 else Price(ctx, c.kind, ns.value)
  }

  lemma {:induction false} DuesArePrices(ctx: Context, tx: Transaction, n: nat, names: Names)
    requires n <= |tx.outputs| && Steps(ctx, tx, n, names).Ok?
    ensures Steps(ctx, tx, n, names).value.dues.Total() == Prices(ctx, tx, n, names)
    ensures NonNegative(Steps(ctx, tx, n, names).value.dues)
  {
    hide Prepare, Charge, ProcessKind, RegistrationPrice, RenewalFee;
    if n > 0 {
      DuesArePrices(ctx, tx, n - 1, names);
      var s, c := Steps(ctx, tx, n - 1, names).value, tx.outputs[n - 1].covenant;
      if c.kind.IsName() {
        var ns := Prepare(ctx, c, NameHashOf(c).value, s.names).value;
        ChargeConserves(ctx, s.names, c.kind, ns, s.dues);
        ChargeNonNegative(ctx, s.names, c.kind, ns, s.dues);
      }
    }
  }

  /** With dues that do not both burn and pay the null address, acceptance means payment in full. */
  lemma {:induction false} DuesCovered(ctx: Context, tx: Transaction, names: Names)
    requires ProcessTransaction(ctx, tx, names).Ok?
    requires var dues := Steps(ctx, tx, |tx.outputs|, names).value.dues;
      dues.burn == 0 || Get(dues.payments, NULL_ADDRESS) == 0
    ensures Prices(ctx, tx, |tx.outputs|, names) <= PlainValue(tx.outputs)
  {
    hide Steps, Prices, Available, PlainValue, Covers, NonNegative;
    DuesArePrices(ctx, tx, |tx.outputs|, names);
    CoveredInFull(tx.outputs, Steps(ctx, tx, |tx.outputs|, names).value.dues);
  }
}
