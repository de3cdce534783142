/**
 * The renewal clock over whole runs: the renewal height of a registered name is that of the block
 * with the last REGISTER or RENEW of its present round, whatever else happened, and the name lapses
 * a renewal window after it (Sources/Chain/CovenantProcessor.swift, lines 238 to 490;
 * Sources/Covenants/NameState.swift, lines 147 to 172).
 */
module NameRenewals {
  import opened Base
  import opened Covenants
  import opened NameState
  import opened NameDB
  import opened CovenantContext
  import opened CovenantProcessor
  import opened NameChain
  import opened NameLifecycle
  import opened NameEffects
  import NameLaws

  /** A REGISTER or RENEW: the height of its block, and the round its item 1 says it is for. */
  datatype Renewal = Renewal(height: nat, round: nat)

  function RenewalAt(h: nat, tx: Transaction, i: nat, key: Hash): seq<Renewal>
    requires i < |tx.outputs|
  {
    var c := tx.outputs[i].covenant;
    if c.kind in {Register, Renew} && |c.items| > 1 && c.items[0] == key
    then [Renewal(h, LittleEndian(c.items[1]))] else []
  }

  /** Those of `key` among the first `n` outputs, in order. */
  function RenewalsIn(h: nat, tx: Transaction, n: nat, key: Hash): seq<Renewal>
    requires n <= |tx.outputs|
  {
    if n == 0 then [] else RenewalsIn(h, tx, n - 1, key) + RenewalAt(h, tx, n - 1, key)
  }

  function RenewalsOf(h: nat, txs: seq<Transaction>, n: nat, key: Hash): seq<Renewal>
    requires n <= |txs|
  {
    if n == 0 then [] else RenewalsOf(h, txs, n - 1, key) + RenewalsIn(h, txs[n - 1], |txs[n - 1].outputs|, key)
  }

  function AllRenewals(blocks: seq<Connected>, key: Hash): seq<Renewal> {
    if blocks == [] then []
    else RenewalsOf(blocks[0].ctx.height, blocks[0].block, |blocks[0].block|, key) + AllRenewals(blocks[1..], key)
  }

  /**
   * A name registered in `db` was renewed last at the last of `rs`, which is of its round; without
   * any, it was registered in `start` already and has its renewal height from there.
   */
  predicate Dated(start: Names, db: Names, key: Hash, rs: seq<Renewal>) {
    db.Get(key).Some? && db.Get(key).value.registered ==>
      var ns := db.Get(key).value;
      if rs != [] then rs[|rs| - 1] == Renewal(ns.renewal, ns.height)
      else
        && start.Get(key).Some? && start.Get(key).value.registered
        && start.Get(key).value.renewal == ns.renewal && start.Get(key).value.height == ns.height
  }

  lemma {:induction false} FoundDates(p: NameParams, h: nat, c: Covenant, key: Hash, stored: Option<NameState>, ns: NameState)
    requires Finds(p, h, c, key, stored, ns)
    ensures ns.registered ==> stored == Some(ns)
  {
    hide NameState.IsExpired;
  }

  lemma {:induction false} EffectDates(p: NameParams, h: nat, output: Output, at: Outpoint, ns: NameState, s: NameState)
    requires Effect(p, h, output, at, ns, s)
    ensures s.height == ns.height
    ensures output.covenant.kind in {Register, Renew} ==> s.renewal == h
    ensures output.covenant.kind !in {Register, Renew} ==> s.renewal == ns.renewal && s.registered == ns.registered
  {
    hide SetsFlags, NamesParent, MinimumBid;
  }

  lemma {:induction false} AdmittedRound(ctx: Context, tx: Transaction, i: nat, key: Hash, ns: NameState, db: Names)
    requires i < |tx.outputs| && Admitted(ctx, tx, i, key, ns, db) && tx.outputs[i].covenant.kind in {Register, Renew}
    ensures |tx.outputs[i].covenant.items| > 1 && LittleEndian(tx.outputs[i].covenant.items[1]) == ns.height
  {
    hide HasItems, InTime, SpendsRightly, KeepsPermission, Approved, LittleEndian;
  }

  lemma {:induction false} StepDates(ctx: Context, tx: Transaction, i: nat, s: Progress, start: Names, key: Hash, rs: seq<Renewal>)
    requires i < |tx.outputs| && Step(ctx, tx, i, s).Ok? && Dated(start, s.names, key, rs)
    ensures Dated(start, Step(ctx, tx, i, s).value.names, key, rs + RenewalAt(ctx.height, tx, i, key))
  {
    hide Admitted, Finds, Effect, LittleEndian;
    var c := tx.outputs[i].covenant;
    if c.kind == Nothing {
      assert Step(ctx, tx, i, s).value == s;
      assert rs + [] == rs;
    } else {
      hide Step;
      var ns := StepLaw(ctx, tx, i, s);
      if c.items[0] == key {
        FoundDates(ctx.rules.params, ctx.height, c, key, s.names.Get(key), ns);
        if c.kind in {Register, Renew} {
          AdmittedRound(ctx, tx, i, key, ns, s.names);
        }
        if !Silent(c.kind) {
          EffectDates(ctx.rules.params, ctx.height, tx.outputs[i], Outpoint(tx.hash, i), ns,
                      Step(ctx, tx, i, s).value.names.Get(key).value);
        }
      }
      assert rs + [] == rs;
    }
  }

  lemma {:induction false} StepsDate(ctx: Context, tx: Transaction, n: nat, names: Names, start: Names, key: Hash, rs: seq<Renewal>)
    requires n <= |tx.outputs| && Steps(ctx, tx, n, names).Ok? && Dated(start, names, key, rs)
    ensures Dated(start, Steps(ctx, tx, n, names).value.names, key, rs + RenewalsIn(ctx.height, tx, n, key))
  {
    hide Step, Dated, RenewalAt;
    if n == 0 {
      assert rs + [] == rs;
    } else {
      StepsDate(ctx, tx, n - 1, names, start, key, rs);
      var so := rs + RenewalsIn(ctx.height, tx, n - 1, key);
      StepDates(ctx, tx, n - 1, Steps(ctx, tx, n - 1, names).value, start, key, so);
      assert so + RenewalAt(ctx.height, tx, n - 1, key) == rs + RenewalsIn(ctx.height, tx, n, key);
    }
  }

  lemma {:induction false} BlockDates(ctx: Context, txs: seq<Transaction>, n: nat, names: Names, start: Names, key: Hash, rs: seq<Renewal>)
    requires n <= |txs| && ProcessTransactions(ctx, txs, n, names).Ok? && Dated(start, names, key, rs)
    ensures Dated(start, ProcessTransactions(ctx, txs, n, names).value, key, rs + RenewalsOf(ctx.height, txs, n, key))
  {
    hide Steps, Dated, RenewalsIn;
    if n == 0 {
      assert rs + [] == rs;
    } else {
      BlockDates(ctx, txs, n - 1, names, start, key, rs);
      var so, tx := rs + RenewalsOf(ctx.height, txs, n - 1, key), txs[n - 1];
      StepsDate(ctx, tx, |tx.outputs|, ProcessTransactions(ctx, txs, n - 1, names).value, start, key, so);
      assert so + RenewalsIn(ctx.height, tx, |tx.outputs|, key) == rs + RenewalsOf(ctx.height, txs, n, key);
    }
  }

  lemma {:induction false} CommitDates(p: NameParams, h: nat, names: Names, start: Names, key: Hash, rs: seq<Renewal>)
    requires p.treeInterval > 0 && Dated(start, names, key, rs)
    ensures Dated(start, AfterBlock(p, h, names), key, rs)
  {
  }

  lemma {:induction false} RunDates(p: NameParams, s: Progressing, blocks: seq<Connected>, t: Progressing, start: Names, key: Hash,
      rs: seq<Renewal>)
    requires p.treeInterval > 0 && Reaches(p, s, blocks, t) && Dated(start, s.names, key, rs)
    ensures Dated(start, t.names, key, rs + AllRenewals(blocks, key))
    decreases |blocks|
  {
    hide Consistent, ProcessTransactions, LoggedIn, RenewalsOf, Dated, AfterBlock;
    if blocks == [] {
      assert rs + [] == rs;
    } else {
      var b := blocks[0];
      var so := rs + RenewalsOf(b.ctx.height, b.block, |b.block|, key);
      BlockDates(b.ctx, b.block, |b.block|, s.names, start, key, rs);
      CommitDates(p, b.ctx.height, ProcessTransactions(b.ctx, b.block, |b.block|, s.names).value, start, key, so);
      RunDates(p, Accept(p, s, b), blocks[1..], t, start, key, so);
      assert so + AllRenewals(blocks[1..], key) == rs + AllRenewals(blocks, key);
    }
  }

  /** In every run, a registered name has the height of the last REGISTER or RENEW for it, one of its round. */
  lemma {:induction false} LastRenewal(p: NameParams, s: Progressing, blocks: seq<Connected>, t: Progressing, key: Hash)
    requires p.treeInterval > 0 && Reaches(p, s, blocks, t)
    requires t.names.Get(key).Some? && t.names.Get(key).value.registered
    ensures var rs, ns := AllRenewals(blocks, key), t.names.Get(key).value;
      && (rs != [] ==> rs[|rs| - 1] == Renewal(ns.renewal, ns.height))
      && (rs == [] ==>
            && s.names.Get(key).Some? && s.names.Get(key).value.registered
            && s.names.Get(key).value.renewal == ns.renewal && s.names.Get(key).value.height == ns.height)
  {
    hide Reaches, AllRenewals;
    RunDates(p, s, blocks, t, s.names, key, []);
    assert [] + AllRenewals(blocks, key) == AllRenewals(blocks, key);
  }

  lemma {:induction false} RegisteredIsHeld(db: Names, ledger: Ledger, now: nat, log: set<Registration>, key: Hash)
    requires Good(db, ledger, now, log) && db.Get(key).Some? && db.Get(key).value.registered
    ensures db.Get(key).value.owner.Some?
  {
    hide Held, AllSettled;
    assert Alive(key, db.Get(key).value, ledger, now);
  }

  /**
   * After every run of accepted blocks a registered and unrevoked name with a price, or opened after
   * genesis, is expired at height `g` if and only if a renewal window has passed since the last
   * REGISTER or RENEW for it.
   */
  lemma {:induction false} LapsesAfterLastRenewal(p: NameParams, s: Progressing, blocks: seq<Connected>, t: Progressing, key: Hash, g: nat)
    requires p.treeInterval > 0 && PositivePeriods(p) && Good(s.names, s.ledger, s.now, s.log) && Reaches(p, s, blocks, t)
    requires t.names.Get(key).Some? && AllRenewals(blocks, key) != []
    requires var ns := t.names.Get(key).value; ns.registered && ns.revoked == 0 && (ns.height > 0 || ns.value > 0)
    ensures var rs := AllRenewals(blocks, key);
      t.names.Get(key).value.IsExpired(g, p) <==> rs[|rs| - 1].height + p.renewalWindow <= g
  {
    hide Reaches, AllRenewals, Good, PositivePeriods, NameState.IsExpired;
    LifecycleInvariant(p, s, blocks, t);
    RegisteredIsHeld(t.names, t.ledger, t.now, t.log, key);
    LastRenewal(p, s, blocks, t, key);
    RegisteredClock(t.names.Get(key).value, p, g);
  }

  /** The same on the surviving chain, through refused blocks, reorganizations and restarts. */
  lemma {:induction false} RenewalsSurvive(p: NameParams, genesis: Store, block: Block, s: Progressing, events: seq<NameLaws.Witnessed>,
      end: NameLaws.Trail, key: Hash, g: nat)
    requires NameLaws.Lives(p, genesis, block, s, events, end)
    requires PositivePeriods(p) && Good(s.names, s.ledger, 0, s.log)
    requires end.state.db.names.Get(key).Some? && AllRenewals(end.history, key) != []
    requires end.state.db.names.Get(key).value.registered
    ensures var rs, ns := AllRenewals(end.history, key), end.state.db.names.Get(key).value;
      && rs[|rs| - 1] == Renewal(ns.renewal, ns.height)
      && (ns.revoked == 0 && (ns.height > 0 || ns.value > 0) ==>
            (ns.IsExpired(g, p) <==> rs[|rs| - 1].height + p.renewalWindow <= g))
  {
    hide Reaches, AllRenewals, Good, PositivePeriods, NameState.IsExpired, NameLaws.Leads, IsGenesis;
    NameLaws.SurvivorsAreAccepted(p, genesis, block, s, events, end);
    var t :| Reaches(p, s, end.history, t) && t.names == end.state.db.names && t.now == |end.history|;
    LastRenewal(p, s, end.history, t, key);
    var ns := end.state.db.names.Get(key).value;
    if ns.revoked == 0 && (ns.height > 0 || ns.value > 0) {
      LapsesAfterLastRenewal(p, s, end.history, t, key, g);
    }
  }
}
