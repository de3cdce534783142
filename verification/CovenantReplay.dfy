/**
 * Replay of name covenants without validation (Sources/Chain/CovenantProcessor.swift, lines 658
 * to 764), and the proof that it repeats what validation did.
 */
module CovenantReplay {
  import opened Base
  import opened Covenants
  import opened NameState
  import opened NameDB
  import opened CovenantContext
  import opened CovenantRules

  /** The state replay starts from: like `Prepare`, but nothing is refused. */
  function ReplayPrepare(p: NameParams, h: nat, c: Covenant, key: Hash, db: Names): Result<NameState, Error> {
    var ns :-
      match db.Get(key)
      case Some(existing) => Ok(existing)
      case None =>
        if c.kind == Open then
          var rawName :- Item(c, 2).ToResult(MalformedCovenant);
          Ok(NewName(key, rawName).(height := h, renewal := h))
        else Ok(NewName(key, []));
    Ok(ns.MaybeExpire(h, p))
  }

  /** The new state of the name, if the covenant changes it. */
  function ReplayChange(p: NameParams, h: nat, output: Output, at: Outpoint, ns: NameState): Result<Option<NameState>, Error> {
    var c := output.covenant;
    match c.kind
    case Nothing | Bid | Redeem => Ok(None)
    case Open =>
      Ok(Some(match ParentHashOf(c) case None => ns case Some(parent) => ns.(parentHash := parent)))
    case Reveal =>
      var bid := output.value;
      Ok(Some(
        if ns.owner == None || bid > ns.highest then ns.(value := ns.highest, owner := Some(at), highest := bid)
        else if bid > ns.value then ns.(value := bid)
        else ns))
    case Register =>
      var resource :- Item(c, 2).ToResult(MalformedCovenant);
      var minBid := MinimumBid(p, h, ns.name);
      var held := ns.(registered := true, value := Max(ns.value, minBid), owner := Some(at), data := resource, renewal := h);
      Ok(Some(match RegisterFlagsOf(c) case None => held case Some(f) => held.(flags := f)))
    case Update =>
      var resource :- Item(c, 2).ToResult(MalformedCovenant);
      var flagged := match FlagsOf(c) case None => ns case Some(f) => ns.(flags := f);
      Ok(Some(flagged.(owner := Some(at), data := resource, transfer := 0)))
    case Renew =>
      Ok(Some(ns.(owner := Some(at), transfer := 0, renewal := h, renewals := ns.renewals + 1)))
    case Transfer =>
      Ok(Some(ns.(owner := Some(at), transfer := h)))
    case Finalize =>
      Ok(Some(ns.(owner := Some(at), transfer := 0)))
    case Revoke =>
      Ok(Some(ns.(revoked := h, transfer := 0, data := [])))
  }

  function ReplayKind(p: NameParams, h: nat, output: Output, at: Outpoint, key: Hash, ns: NameState, db: Names): Result<Names, Error> {
    var change :- ReplayChange(p, h, output, at, ns);
    Ok(match change case None => db case Some(s) => db.Put(key, s))
  }

  function ReplayOutput(p: NameParams, h: nat, tx: Transaction, i: nat, db: Names): Result<Names, Error>
    requires i < |tx.outputs|
  {
    var c := tx.outputs[i].covenant;
    if !c.kind.IsName() then Ok(db)
    else
      var key :- NameHashOf(c).ToResult(MalformedCovenant);
      var ns :- ReplayPrepare(p, h, c, key, db);
      ReplayKind(p, h, tx.outputs[i], Outpoint(tx.hash, i), key, ns, db)
  }

  function ReplayOutputs(p: NameParams, h: nat, tx: Transaction, n: nat, db: Names): Result<Names, Error>
    requires n <= |tx.outputs|
  {
    if n == 0 then Ok(db)
    else
      var before :- ReplayOutputs(p, h, tx, n - 1, db);
      ReplayOutput(p, h, tx, n - 1, before)
  }

  /** The first `n` transactions of a block. */
  function ReplayTransactions(p: NameParams, h: nat, txs: seq<Transaction>, n: nat, db: Names): Result<Names, Error>
    requires n <= |txs|
  {
    if n == 0 then Ok(db)
    else
      var before :- ReplayTransactions(p, h, txs, n - 1, db);
      ReplayOutputs(p, h, txs[n - 1], |txs[n - 1].outputs|, before)
  }

  // ---- Replay agrees with validation ----

  /** What every stored name satisfies after genesis: it has an opening height or an owner. */
  predicate Storable(ns: NameState) {
    ns.height > 0 || ns.owner != None
  }

  ghost predicate AllStorable(db: Names) {
    forall key :: db.Get(key).Some? ==> Storable(db.Get(key).value)
  }

  /** Replaying output `i` on the prepared state `ns`. */
  function ReplayOf(ctx: Context, tx: Transaction, i: nat, key: Hash, ns: NameState, db: Names): Result<Names, Error>
    requires i < |tx.outputs|
  {
    ReplayKind(ctx.rules.params, ctx.height, tx.outputs[i], Outpoint(tx.hash, i), key, ns, db)
  }

  lemma {:induction false} OpenAgrees(ctx: Context, tx: Transaction, i: nat, key: Hash, ns: NameState, db: Names)
    requires i < |tx.outputs| && tx.outputs[i].covenant.kind == Open && Storable(ns)
    requires ProcessOpen(ctx, tx, i, key, ns, db).Ok?
    ensures ReplayOf(ctx, tx, i, key, ns, db) == Ok(db.Put(key, ProcessOpen(ctx, tx, i, key, ns, db).value))
    ensures Storable(ProcessOpen(ctx, tx, i, key, ns, db).value)
  {
  }

  lemma {:induction false} RevealAgrees(ctx: Context, tx: Transaction, i: nat, key: Hash, ns: NameState, db: Names)
    requires i < |tx.outputs| && tx.outputs[i].covenant.kind == Reveal && Storable(ns)
    requires ProcessReveal(ctx, tx, i, ns).Ok?
    ensures ReplayOf(ctx, tx, i, key, ns, db) == Ok(db.Put(key, ProcessReveal(ctx, tx, i, ns).value))
    ensures Storable(ProcessReveal(ctx, tx, i, ns).value)
  {
  }

  lemma {:induction false} RegisterAgrees(ctx: Context, tx: Transaction, i: nat, key: Hash, ns: NameState, db: Names)
    requires i < |tx.outputs| && tx.outputs[i].covenant.kind == Register && Storable(ns)
    requires ProcessRegister(ctx, tx, i, ns).Ok?
    ensures ReplayOf(ctx, tx, i, key, ns, db) == Ok(db.Put(key, ProcessRegister(ctx, tx, i, ns).value))
    ensures Storable(ProcessRegister(ctx, tx, i, ns).value)
  {
  }

  lemma {:induction false} UpdateAgrees(ctx: Context, tx: Transaction, i: nat, key: Hash, ns: NameState, db: Names)
    requires i < |tx.outputs| && tx.outputs[i].covenant.kind == Update && Storable(ns)
    requires ProcessUpdate(ctx, tx, i, ns).Ok?
    ensures ReplayOf(ctx, tx, i, key, ns, db) == Ok(db.Put(key, ProcessUpdate(ctx, tx, i, ns).value))
    ensures Storable(ProcessUpdate(ctx, tx, i, ns).value)
  {
  }

  lemma {:induction false} RenewAgrees(ctx: Context, tx: Transaction, i: nat, key: Hash, ns: NameState, db: Names)
    requires i < |tx.outputs| && tx.outputs[i].covenant.kind == Renew && Storable(ns)
    requires ProcessRenew(ctx, tx, i, ns).Ok?
    ensures ReplayOf(ctx, tx, i, key, ns, db) == Ok(db.Put(key, ProcessRenew(ctx, tx, i, ns).value))
    ensures Storable(ProcessRenew(ctx, tx, i, ns).value)
  {
  }

  lemma {:induction false} TransferAgrees(ctx: Context, tx: Transaction, i: nat, key: Hash, ns: NameState, db: Names)
    requires i < |tx.outputs| && tx.outputs[i].covenant.kind == Transfer && Storable(ns)
    requires ProcessTransfer(ctx, tx, i, ns).Ok?
    ensures ReplayOf(ctx, tx, i, key, ns, db) == Ok(db.Put(key, ProcessTransfer(ctx, tx, i, ns).value))
    ensures Storable(ProcessTransfer(ctx, tx, i, ns).value)
  {
  }

  lemma {:induction false} FinalizeAgrees(ctx: Context, tx: Transaction, i: nat, key: Hash, ns: NameState, db: Names)
    requires i < |tx.outputs| && tx.outputs[i].covenant.kind == Finalize && Storable(ns)
    requires ProcessFinalize(ctx, tx, i, ns).Ok?
    ensures ReplayOf(ctx, tx, i, key, ns, db) == Ok(db.Put(key, ProcessFinalize(ctx, tx, i, ns).value))
    ensures Storable(ProcessFinalize(ctx, tx, i, ns).value)
  {
  }

  lemma {:induction false} RevokeAgrees(ctx: Context, tx: Transaction, i: nat, key: Hash, ns: NameState, db: Names)
    requires i < |tx.outputs| && tx.outputs[i].covenant.kind == Revoke && Storable(ns)
    requires ProcessRevoke(ctx, tx, i, ns).Ok?
    ensures ReplayOf(ctx, tx, i, key, ns, db) == Ok(db.Put(key, ProcessRevoke(ctx, tx, i, ns).value))
    ensures Storable(ProcessRevoke(ctx, tx, i, ns).value)
  {
  }

  lemma {:induction false} ProcessKindAgrees(ctx: Context, tx: Transaction, i: nat, key: Hash, ns: NameState, db: Names)
    requires i < |tx.outputs| && Storable(ns)
    requires ProcessKind(ctx, tx, i, key, ns, db).Ok?
    ensures ProcessKind(ctx, tx, i, key, ns, db) == ReplayOf(ctx, tx, i, key, ns, db)
    ensures var after := ProcessKind(ctx, tx, i, key, ns, db).value;
      after == db || exists s {:trigger db.Put(key, s)} :: Storable(s) && after == db.Put(key, s)
  {
    match tx.outputs[i].covenant.kind
    case Nothing =>
    case Bid =>
    case Redeem =>
    case Open => OpenAgrees(ctx, tx, i, key, ns, db);
    case Reveal => RevealAgrees(ctx, tx, i, key, ns, db);
    case Register => RegisterAgrees(ctx, tx, i, key, ns, db);
    case Update => UpdateAgrees(ctx, tx, i, key, ns, db);
    case Renew => RenewAgrees(ctx, tx, i, key, ns, db);
    case Transfer => TransferAgrees(ctx, tx, i, key, ns, db);
    case Finalize => FinalizeAgrees(ctx, tx, i, key, ns, db);
    case Revoke => RevokeAgrees(ctx, tx, i, key, ns, db);
  }

  lemma {:induction false} PrepareAgrees(ctx: Context, c: Covenant, key: Hash, db: Names)
    requires ctx.height > 0 && AllStorable(db)
    requires Prepare(ctx, c, key, db).Ok?
    ensures Prepare(ctx, c, key, db) == ReplayPrepare(ctx.rules.params, ctx.height, c, key, db)
    ensures Storable(Prepare(ctx, c, key, db).value)
  {
  }

  lemma {:induction false} PutStorable(db: Names, key: Hash, ns: NameState)
    requires AllStorable(db) && Storable(ns)
    ensures AllStorable(db.Put(key, ns))
  {
    forall k | db.Put(key, ns).Get(k).Some?
      ensures Storable(db.Put(key, ns).Get(k).value)
    {
      assert k != key ==> db.Put(key, ns).Get(k) == db.Get(k);
    }
  }
}
