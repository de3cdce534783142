/**
 * Subdomains over all runs: the permission to auction them is never withdrawn, and whatever was
 * opened under a parent stays under a parent that permits it (Sources/Chain/CovenantProcessor.swift,
 * lines 85 to 111, 336 to 349 and 384 to 400; Sources/Covenants/NameState.swift, lines 203 to 238).
 */
module Subdomains {
  import opened Base
  import opened Covenants
  import opened NameState
  import opened NameDB
  import opened CovenantContext
  import opened CovenantFees
  import opened CovenantRules
  import opened CovenantReplay
  import opened CovenantProcessor
  import opened NameLifecycle

  predicate Permits(db: Names, key: Hash) {
    db.Get(key).Some? && db.Get(key).value.AuctionsSubdomains()
  }

  /** The parent of every stored subdomain exists and permits subdomains. */
  ghost predicate Rooted(db: Names) {
    forall key :: db.Get(key).Some? && db.Get(key).value.parentHash != ZERO_HASH ==>
      Permits(db, db.Get(key).value.parentHash)
  }

  /** No permission is lost. */
  ghost predicate PermitsKept(db: Names, after: Names) {
    forall key :: Permits(db, key) ==> Permits(after, key)
  }

  /** A successor of `ns` that keeps its permission and has no parent but its own or a permitting one. */
  predicate Linked(db: Names, ns: NameState, s: NameState) {
    && (ns.AuctionsSubdomains() ==> s.AuctionsSubdomains())
    && (s.parentHash == ns.parentHash || Permits(db, s.parentHash))
  }

  lemma {:induction false} PrepareLinked(ctx: Context, c: Covenant, key: Hash, db: Names)
    requires AllStorable(db) && Prepare(ctx, c, key, db).Ok?
    ensures var ns := Prepare(ctx, c, key, db).value;
      && (Permits(db, key) ==> ns.AuctionsSubdomains())
      && (ns.parentHash != ZERO_HASH ==> db.Get(key).Some? && db.Get(key).value.parentHash == ns.parentHash)
  {
    if db.Get(key).Some? {
      assert Storable(db.Get(key).value);
    }
  }

  lemma {:induction false} OpenLinked(ctx: Context, tx: Transaction, i: nat, key: Hash, ns: NameState, db: Names)
    requires i < |tx.outputs| && ProcessOpen(ctx, tx, i, key, ns, db).Ok?
    ensures Linked(db, ns, ProcessOpen(ctx, tx, i, key, ns, db).value)
  {
    hide NameHashOf, ParentName, ParentHashOf, IsSubdomain;
  }

  /** What an accepted operation does to its name. */
  lemma {:induction false} KindLinked(ctx: Context, tx: Transaction, i: nat, key: Hash, ns: NameState, db: Names)
    requires i < |tx.outputs| && ProcessKind(ctx, tx, i, key, ns, db).Ok?
    ensures var after := ProcessKind(ctx, tx, i, key, ns, db).value;
      after == db || exists s {:trigger db.Put(key, s)} :: Linked(db, ns, s) && after == db.Put(key, s)
  {
    hide ProcessOpen, ProcessBid, VerifyRenewal, MatchingCoin, CheckRound, CheckDelegation, RegistrationPrice, TransferTarget;
    match tx.outputs[i].covenant.kind
    case Open =>
      OpenLinked(ctx, tx, i, key, ns, db);
      assert Linked(db, ns, ProcessOpen(ctx, tx, i, key, ns, db).value);
    case Reveal => assert Linked(db, ns, ProcessReveal(ctx, tx, i, ns).value);
    case Register => assert Linked(db, ns, ProcessRegister(ctx, tx, i, ns).value);
    case Update => assert Linked(db, ns, ProcessUpdate(ctx, tx, i, ns).value);
    case Renew => assert Linked(db, ns, ProcessRenew(ctx, tx, i, ns).value);
    case Transfer => assert Linked(db, ns, ProcessTransfer(ctx, tx, i, ns).value);
    case Finalize => assert Linked(db, ns, ProcessFinalize(ctx, tx, i, ns).value);
    case Revoke => assert Linked(db, ns, ProcessRevoke(ctx, tx, i, ns).value);
    case _ =>
  }

  lemma {:induction false} PutRooted(db: Names, key: Hash, ns: NameState, s: NameState)
    requires Rooted(db) && Linked(db, ns, s)
    requires Permits(db, key) ==> ns.AuctionsSubdomains()
    requires ns.parentHash != ZERO_HASH ==> db.Get(key).Some? && db.Get(key).value.parentHash == ns.parentHash
    ensures Rooted(db.Put(key, s)) && PermitsKept(db, db.Put(key, s))
  {
    var after := db.Put(key, s);
    forall k | Permits(db, k)
      ensures Permits(after, k)
    {
    }
    forall k | after.Get(k).Some? && after.Get(k).value.parentHash != ZERO_HASH
      ensures Permits(after, after.Get(k).value.parentHash)
    {
      assert k != key ==> after.Get(k) == db.Get(k);
      assert Permits(db, after.Get(k).value.parentHash);
    }
  }

  lemma {:induction false} StepRooted(ctx: Context, tx: Transaction, i: nat, s: Progress)
    requires i < |tx.outputs| && Rooted(s.names) && AllStorable(s.names) && Step(ctx, tx, i, s).Ok?
    ensures Rooted(Step(ctx, tx, i, s).value.names) && PermitsKept(s.names, Step(ctx, tx, i, s).value.names)
  {
    hide Prepare, ProcessKind, Charge, Rooted, Permits, Linked, AllStorable;
    var c, db := tx.outputs[i].covenant, s.names;
    if c.kind.IsName() {
      var key := NameHashOf(c).value;
      var ns := Prepare(ctx, c, key, db).value;
      PrepareLinked(ctx, c, key, db);
      KindLinked(ctx, tx, i, key, ns, db);
      var after := ProcessKind(ctx, tx, i, key, ns, db).value;
      if after != db {
        var changed {:trigger db.Put(key, changed)} :| Linked(db, ns, changed) && after == db.Put(key, changed);
        PutRooted(db, key, ns, changed);
      }
    }
  }

  lemma {:induction false} StepsRooted(ctx: Context, tx: Transaction, n: nat, names: Names)
    requires n <= |tx.outputs| && ctx.height > 0 && Rooted(names) && AllStorable(names) && Steps(ctx, tx, n, names).Ok?
    ensures Rooted(Steps(ctx, tx, n, names).value.names) && PermitsKept(names, Steps(ctx, tx, n, names).value.names)
  {
    hide Step, Rooted, Permits, AllStorable;
    if n > 0 {
      StepsRooted(ctx, tx, n - 1, names);
      StepsAgree(ctx, tx, n - 1, names);
      StepRooted(ctx, tx, n - 1, Steps(ctx, tx, n - 1, names).value);
    }
  }

  lemma {:induction false} BlockRooted(ctx: Context, txs: seq<Transaction>, n: nat, names: Names)
    requires n <= |txs| && ctx.height > 0 && Rooted(names) && AllStorable(names)
    requires ProcessTransactions(ctx, txs, n, names).Ok?
    ensures var after := ProcessTransactions(ctx, txs, n, names).value;
      Rooted(after) && PermitsKept(names, after) && AllStorable(after)
  {
    hide Steps, Rooted, Permits, AllStorable, Covers, Available;
    ReplayRepeatsValidation(ctx, txs, n, names);
    if n > 0 {
      BlockRooted(ctx, txs, n - 1, names);
      StepsRooted(ctx, txs[n - 1], |txs[n - 1].outputs|, ProcessTransactions(ctx, txs, n - 1, names).value);
    }
  }

  lemma {:induction false} FlushRooted(p: NameParams, height: nat, names: Names)
    requires p.treeInterval > 0 && Rooted(names) && AllStorable(names)
    ensures var after := AfterBlock(p, height, names);
      Rooted(after) && PermitsKept(names, after) && AllStorable(after)
  {
    var after := AfterBlock(p, height, names);
    forall key
      ensures after.Get(key).Some? <==> names.Get(key).Some?
      ensures after.Get(key).Some? ==>
        after.Get(key).value == names.Get(key).value || after.Get(key).value == names.Get(key).value.Stored()
    {
    }
    StoredRooted(names, after);
  }

  lemma {:induction false} StoredRooted(names: Names, after: Names)
    requires Rooted(names) && AllStorable(names)
    requires forall key ::
      && (after.Get(key).Some? <==> names.Get(key).Some?)
      && (after.Get(key).Some? ==>
            after.Get(key).value == names.Get(key).value || after.Get(key).value == names.Get(key).value.Stored())
    ensures Rooted(after) && PermitsKept(names, after) && AllStorable(after)
  {
    forall key | after.Get(key).Some?
      ensures Storable(after.Get(key).value)
    {
      assert Storable(names.Get(key).value);
    }
    forall key | Permits(names, key)
      ensures Permits(after, key)
    {
    }
    forall key | after.Get(key).Some? && after.Get(key).value.parentHash != ZERO_HASH
      ensures Permits(after, after.Get(key).value.parentHash)
    {
      assert Permits(names, names.Get(key).value.parentHash);
    }
  }

  /**
   * In every run of accepted blocks, whoever once permitted subdomains still does, through renewals,
   * transfers and expiry, and every subdomain's parent is there and permits it.
   */
  lemma {:induction false} PermissionIsPermanent(p: NameParams, s: Progressing, blocks: seq<Connected>, t: Progressing)
    requires p.treeInterval > 0 && Reaches(p, s, blocks, t)
    requires Rooted(s.names) && AllStorable(s.names)
    ensures Rooted(t.names) && PermitsKept(s.names, t.names) && AllStorable(t.names)
    decreases |blocks|
  {
    hide Rooted, Permits, AllStorable, ProcessTransactions, LoggedIn, Consistent, AfterBlock;
    if blocks != [] {
      var b := blocks[0];
      var processed := ProcessTransactions(b.ctx, b.block, |b.block|, s.names).value;
      BlockRooted(b.ctx, b.block, |b.block|, s.names);
      FlushRooted(p, b.ctx.height, processed);
      PermissionIsPermanent(p, Accept(p, s, b), blocks[1..], t);
    }
  }
}
