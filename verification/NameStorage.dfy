/**
 * Everything a run of accepted blocks stores about names fits the format, so what a commit writes is
 * what is read back (Sources/Chain/NameDB.swift, lines 158 to 167 and 202 to 214;
 * Sources/Covenants/NameState.swift, lines 247 to 378).
 */
module NameStorage {
  import opened Base
  import opened Covenants
  import opened NameState
  import opened NameDB
  import opened CovenantContext
  import opened CovenantProcessor
  import opened NameLifecycle
  import opened NameEffects
  import opened NameFormat

  /** The tree holds, for every pending state that fits, what its bytes are read back as. */
  lemma {:induction false} CommittedBytes(names: Names, key: Hash)
    requires key in names.pending && Fits(names.pending[key])
    ensures key in Flushed(names)
    ensures Writable(names.pending[key]) && Decoded(Encoded(names.pending[key])) == Ok(Flushed(names)[key])
  {
    hide Decoded, Encoded, Fits;
    ReadBack(names.pending[key]);
  }

  // ---- Along a run ----

  /** Ids are hashes, and items, values and output positions fit the formats transactions come in. */
  ghost predicate Sized(tx: Transaction) {
    && |tx.hash| == 32 && |tx.outputs| <= INT64_LIMIT
    && forall i :: 0 <= i < |tx.outputs| ==> SizedOutput(tx.outputs[i])
  }

  ghost predicate SizedOutput(output: Output) {
    output.value < INT64_LIMIT && forall item :: item in output.covenant.items ==> |item| <= 0xFFFF
  }

  /** Accepted names have at most 255 bytes, and minimum bids are amounts. */
  ghost predicate Moderate(rules: Rules) {
    && (forall name :: rules.verifyName(name) ==> |name| <= 0xFF)
    && (forall h: nat, name :: MinimumBid(rules.params, h, name) < INT64_LIMIT)
  }

  /** Every stored state fits the format and was renewed at most `r` times. */
  ghost predicate AllFit(db: Names, r: nat) {
    forall key :: db.Get(key).Some? ==> Fits(db.Get(key).value) && db.Get(key).value.renewals <= r
  }

  /** What an accepted output finds fits, because what is stored does. */
  lemma {:induction false} FoundFits(ctx: Context, tx: Transaction, i: nat, key: Hash, stored: Option<NameState>, ns: NameState, db: Names,
      r: nat)
    requires i < |tx.outputs| && Finds(ctx.rules.params, ctx.height, tx.outputs[i].covenant, key, stored, ns)
    requires Approved(ctx, tx.outputs[i], key, ns, db) && Moderate(ctx.rules) && ctx.height < WORD32
    requires stored.Some? ==> Fits(stored.value) && stored.value.renewals <= r
    ensures Fits(ns) && ns.renewals <= r
  {
    hide NameState.IsExpired, UnderParent, Zeros, MinimumBid;
    ZerosLength(32);
  }

  lemma {:induction false} DataFits(ctx: Context, tx: Transaction, i: nat, ns: NameState, s: NameState)
    requires i < |tx.outputs| && Sized(tx) && Fits(ns)
    requires Effect(ctx.rules.params, ctx.height, tx.outputs[i], Outpoint(tx.hash, i), ns, s)
    ensures |s.data| <= 0xFFFF && |s.parentHash| == 32
    ensures s.owner.Some? ==> |s.owner.value.hash| == 32 && s.owner.value.index < INT64_LIMIT
  {
    hide SetsFlags, MinimumBid;
    assert SizedOutput(tx.outputs[i]);
    assert (forall parent :: !NamesParent(tx.outputs[i].covenant, parent)) || exists parent :: NamesParent(tx.outputs[i].covenant, parent);
  }

  lemma {:induction false} EffectFits(ctx: Context, tx: Transaction, i: nat, ns: NameState, s: NameState, r: nat)
    requires i < |tx.outputs| && Sized(tx) && Moderate(ctx.rules) && ctx.height < WORD32 && r + 1 < INT64_LIMIT
    requires Effect(ctx.rules.params, ctx.height, tx.outputs[i], Outpoint(tx.hash, i), ns, s)
    requires Fits(ns) && ns.renewals <= r
    ensures Fits(s) && s.renewals <= r + 1
  {
    hide SetsFlags, NamesParent, MinimumBid;
    DataFits(ctx, tx, i, ns, s);
    assert SizedOutput(tx.outputs[i]);
    assert MinimumBid(ctx.rules.params, ctx.height, ns.name) < INT64_LIMIT;
  }

  lemma {:induction false} StepFits(ctx: Context, tx: Transaction, i: nat, s: Progress, r: nat)
    requires i < |tx.outputs| && Sized(tx) && Moderate(ctx.rules) && ctx.height < WORD32 && r + 1 < INT64_LIMIT
    requires Step(ctx, tx, i, s).Ok? && AllFit(s.names, r)
    ensures AllFit(Step(ctx, tx, i, s).value.names, r + 1)
  {
    var c := tx.outputs[i].covenant;
    if c.kind == Nothing {
      assert Step(ctx, tx, i, s).value == s;
    } else {
      hide Step, Sized, Moderate, Fits, Finds, Effect, HasItems, InTime, ForThisRound, SpendsRightly, KeepsPermission, Approved;
      var ns := StepLaw(ctx, tx, i, s);
      var after := Step(ctx, tx, i, s).value.names;
      FoundFits(ctx, tx, i, c.items[0], s.names.Get(c.items[0]), ns, s.names, r);
      if !Silent(c.kind) {
        EffectFits(ctx, tx, i, ns, after.Get(c.items[0]).value, r);
      }
      forall key | after.Get(key).Some?
        ensures Fits(after.Get(key).value) && after.Get(key).value.renewals <= r + 1
      {
        assert key != c.items[0] ==> after.Get(key) == s.names.Get(key);
      }
    }
  }

  lemma {:induction false} StepsFit(ctx: Context, tx: Transaction, n: nat, names: Names, r: nat)
    requires n <= |tx.outputs| && Sized(tx) && Moderate(ctx.rules) && ctx.height < WORD32 && r + n < INT64_LIMIT
    requires Steps(ctx, tx, n, names).Ok? && AllFit(names, r)
    ensures AllFit(Steps(ctx, tx, n, names).value.names, r + n)
  {
    hide Step, Sized, Moderate, AllFit;
    if n > 0 {
      StepsFit(ctx, tx, n - 1, names, r);
      StepFits(ctx, tx, n - 1, Steps(ctx, tx, n - 1, names).value, r + n - 1);
    }
  }

  /** How many outputs the first `n` transactions have. */
  function OutputCount(txs: seq<Transaction>, n: nat): nat
    requires n <= |txs|
  {
    if n == 0 then 0 else OutputCount(txs, n - 1) + |txs[n - 1].outputs|
  }

  lemma {:induction false} BlockFits(ctx: Context, txs: seq<Transaction>, n: nat, names: Names, r: nat)
    requires n <= |txs| && Moderate(ctx.rules) && ctx.height < WORD32 && r + OutputCount(txs, n) < INT64_LIMIT
    requires forall k :: 0 <= k < |txs| ==> Sized(txs[k])
    requires ProcessTransactions(ctx, txs, n, names).Ok? && AllFit(names, r)
    ensures AllFit(ProcessTransactions(ctx, txs, n, names).value, r + OutputCount(txs, n))
  {
    hide Steps, Sized, Moderate, AllFit;
    if n > 0 {
      BlockFits(ctx, txs, n - 1, names, r);
      StepsFit(ctx, txs[n - 1], |txs[n - 1].outputs|, ProcessTransactions(ctx, txs, n - 1, names).value,
               r + OutputCount(txs, n - 1));
    }
  }

  lemma {:induction false} AfterBlockFits(p: NameParams, h: nat, names: Names, r: nat)
    requires p.treeInterval > 0 && AllFit(names, r)
    ensures AllFit(AfterBlock(p, h, names), r)
  {
    var after := AfterBlock(p, h, names);
    forall key | after.Get(key).Some?
      ensures Fits(after.Get(key).value) && after.Get(key).value.renewals <= r
    {
      assert names.Get(key).Some?;
    }
  }

  ghost predicate Ordinary(b: Connected) {
    Moderate(b.ctx.rules) && b.ctx.height < WORD32 && forall k :: 0 <= k < |b.block| ==> Sized(b.block[k])
  }

  function OutputsOf(blocks: seq<Connected>): nat {
    if blocks == [] then 0 else OutputCount(blocks[0].block, |blocks[0].block|) + OutputsOf(blocks[1..])
  }

  /** Through any run of such blocks every stored state fits the format, and so survives a commit. */
  lemma {:induction false} RunFits(p: NameParams, s: Progressing, blocks: seq<Connected>, t: Progressing, r: nat)
    requires p.treeInterval > 0 && Reaches(p, s, blocks, t) && AllFit(s.names, r)
    requires forall k :: 0 <= k < |blocks| ==> Ordinary(blocks[k])
    requires r + OutputsOf(blocks) < INT64_LIMIT
    ensures AllFit(t.names, r + OutputsOf(blocks))
    decreases |blocks|
  {
    hide Consistent, ProcessTransactions, LoggedIn, AllFit, AfterBlock, OutputCount;
    if blocks != [] {
      var b, count := blocks[0], OutputCount(blocks[0].block, |blocks[0].block|);
      assert Ordinary(b);
      BlockFits(b.ctx, b.block, |b.block|, s.names, r);
      AfterBlockFits(p, b.ctx.height, ProcessTransactions(b.ctx, b.block, |b.block|, s.names).value, r + count);
      RunFits(p, Accept(p, s, b), blocks[1..], t, r + count);
    }
  }

  lemma {:induction false} RunReadsBack(p: NameParams, s: Progressing, blocks: seq<Connected>, t: Progressing, r: nat, key: Hash)
    requires p.treeInterval > 0 && Reaches(p, s, blocks, t) && AllFit(s.names, r)
    requires forall k :: 0 <= k < |blocks| ==> Ordinary(blocks[k])
    requires r + OutputsOf(blocks) < INT64_LIMIT && t.names.Get(key).Some?
    ensures Writable(t.names.Get(key).value)
    ensures Decoded(Encoded(t.names.Get(key).value)) == Ok(t.names.Get(key).value.(nameHash := ZERO_HASH))
  {
    hide Reaches, Ordinary, OutputsOf, Fits, Decoded, Encoded;
    RunFits(p, s, blocks, t, r);
    ReadBack(t.names.Get(key).value);
  }
}
