/**
 * Why undoing a block brings back the coins before it (Sources/Chain/CoinDatabase.swift, lines
 * 244 to 311), and the one case in which it does not.
 */
module CoinUndo {
  import opened Base
  import opened Covenants
  import opened Coins

  // ---- Which coins a disconnect passes over ----

  function Ids(b: Block): set<Hash> {
    set i | 0 <= i < |b| :: b[i].hash
  }

  /** Those of the first `n` inputs that name an output of the given transactions. */
  function Naming(inputs: seq<Outpoint>, ids: set<Hash>, n: nat): set<Outpoint>
    requires n <= |inputs|
  {
    if n == 0 then {}
    else
      var op := inputs[n - 1];
      Naming(inputs, ids, n - 1) + if op != NULL_OUTPOINT && op.hash in ids then {op} else {}
  }

  /** Inputs of the first `n` transactions that name an output of the block itself. */
  function InBlockSpends(b: Block, n: nat): set<Outpoint>
    requires n <= |b|
  {
    if n == 0 then {} else InBlockSpends(b, n - 1) + Naming(b[n - 1].inputs, Ids(b), |b[n - 1].inputs|)
  }

  lemma {:induction false} NamingMeaning(inputs: seq<Outpoint>, ids: set<Hash>, n: nat, op: Outpoint)
    requires n <= |inputs|
    ensures op in Naming(inputs, ids, n) <==> op in inputs[..n] && op != NULL_OUTPOINT && op.hash in ids
  {
    if n > 0 {
      NamingMeaning(inputs, ids, n - 1, op);
      assert inputs[..n] == inputs[..n - 1] + [inputs[n - 1]];
    }
  }

  function Restrict(coins: CoinSet, keys: set<Outpoint>): CoinSet {
    map op | op in coins && op in keys :: coins[op]
  }

  /** Every output not passed over is in the set, with its own value. */
  predicate Holds(working: CoinSet, tx: Transaction, skip: set<Outpoint>, height: nat) {
    forall i {:trigger Outpoint(tx.hash, i)} :: 0 <= i < |tx.outputs| && Outpoint(tx.hash, i) !in skip ==>
      Outpoint(tx.hash, i) in working && working[Outpoint(tx.hash, i)] == CoinOf(tx, height, i)
  }

  /** The set without the first `n` outputs of a transaction, except those passed over. */
  function TakeOut(working: CoinSet, tx: Transaction, skip: set<Outpoint>, n: nat): CoinSet {
    if n == 0 then working
    else
      var op := Outpoint(tx.hash, n - 1);
      if op in skip then TakeOut(working, tx, skip, n - 1) else TakeOut(working, tx, skip, n - 1) - {op}
  }

  lemma {:induction false} TakeOutMeaning(working: CoinSet, tx: Transaction, skip: set<Outpoint>, n: nat, op: Outpoint)
    ensures op in TakeOut(working, tx, skip, n) <==> op in working && (op.hash == tx.hash && op.index < n ==> op in skip)
    ensures op in TakeOut(working, tx, skip, n) ==> TakeOut(working, tx, skip, n)[op] == working[op]
  {
    if n > 0 {
      TakeOutMeaning(working, tx, skip, n - 1, op);
    }
  }

  lemma {:induction false} TakeOutAll(working: CoinSet, tx: Transaction, skip: set<Outpoint>)
    ensures TakeOut(working, tx, skip, |tx.outputs|) == working - (Made(tx) - skip)
  {
    forall op
      ensures op in TakeOut(working, tx, skip, |tx.outputs|) <==> op in working - (Made(tx) - skip)
      ensures op in TakeOut(working, tx, skip, |tx.outputs|) ==> TakeOut(working, tx, skip, |tx.outputs|)[op] == working[op]
    {
      TakeOutMeaning(working, tx, skip, |tx.outputs|, op);
    }
  }

  lemma {:induction false} StartTaking(working: CoinSet, tx: Transaction, skip: set<Outpoint>)
    ensures TakeOut(working, tx, skip, 0) == working
  {
  }

  lemma {:induction false} TakeStep(working: CoinSet, tx: Transaction, skip: set<Outpoint>, n: nat, height: nat)
    requires n < |tx.outputs|
    ensures var op, was := Outpoint(tx.hash, n), TakeOut(working, tx, skip, n);
      && TakeOut(working, tx, skip, n + 1) == (if op in skip then was else was - {op})
      && (Holds(working, tx, skip, height) && op !in skip ==> op in was && was[op].output.value == tx.outputs[n].value)
  {
    var op := Outpoint(tx.hash, n);
    TakeOutMeaning(working, tx, skip, n, op);
    if Holds(working, tx, skip, height) && op !in skip {
      assert working[op] == CoinOf(tx, height, n);
    }
  }

  /** The set with the coins of the inputs from `k` on put back, `undo[rest..]` holding them in order. */
  function PutBack(inputs: seq<Outpoint>, skip: set<Outpoint>, working: CoinSet, undo: seq<Coin>, rest: nat, k: nat): CoinSet
    requires k <= |inputs| && rest + (|inputs| - k) <= |undo|
    decreases |inputs| - k
  {
    if k == |inputs| then working
    else
      var later := PutBack(inputs, skip, working, undo, rest + 1, k + 1);
      if inputs[k] in skip then later else later[inputs[k] := undo[rest]]
  }

  lemma {:induction false} PutBackKeys(inputs: seq<Outpoint>, skip: set<Outpoint>, working: CoinSet, undo: seq<Coin>,
                                       rest: nat, k: nat, op: Outpoint)
    requires k <= |inputs| && rest + (|inputs| - k) <= |undo|
    ensures op in PutBack(inputs, skip, working, undo, rest, k) <==> op in working || (op in inputs[k..] && op !in skip)
    ensures op in working && (op !in inputs[k..] || op in skip) ==> PutBack(inputs, skip, working, undo, rest, k)[op] == working[op]
    decreases |inputs| - k
  {
    if k < |inputs| {
      PutBackKeys(inputs, skip, working, undo, rest + 1, k + 1, op);
      assert inputs[k..] == [inputs[k]] + inputs[k + 1..];
    }
  }

  predicate Plain(tx: Transaction) {
    NULL_OUTPOINT !in tx.inputs && DistinctInputs(tx.inputs)
  }

  lemma {:induction false} StartPutting(inputs: seq<Outpoint>, skip: set<Outpoint>, working: CoinSet, undo: seq<Coin>, idx: nat)
    requires idx <= |undo|
    ensures PutBack(inputs, skip, working, undo, idx, |inputs|) == working
  {
  }

  lemma {:induction false} PutStep(tx: Transaction, skip: set<Outpoint>, working: CoinSet, undo: seq<Coin>, rest: nat, k: nat)
    requires k < |tx.inputs| && rest + (|tx.inputs| - k) <= |undo|
    ensures var op, later := tx.inputs[k], PutBack(tx.inputs, skip, working, undo, rest + 1, k + 1);
      && PutBack(tx.inputs, skip, working, undo, rest, k) == (if op in skip then later else later[op := undo[rest]])
      && (Plain(tx) && op !in skip && (SpentBy(tx) - skip) !! working.Keys ==> op !in later)
  {
    var op := tx.inputs[k];
    PutBackKeys(tx.inputs, skip, working, undo, rest + 1, k + 1, op);
    if DistinctInputs(tx.inputs) {
      NotAgain(tx.inputs, k);
    }
    assert op in SpentBy(tx);
  }

  lemma {:induction false} NotAgain(inputs: seq<Outpoint>, k: nat)
    requires k < |inputs| && DistinctInputs(inputs)
    ensures inputs[k] !in inputs[k + 1..]
  {
  }

  lemma {:induction false} PutBackCoin(inputs: seq<Outpoint>, skip: set<Outpoint>, working: CoinSet, undo: seq<Coin>,
                                       rest: nat, k: nat, m: nat)
    requires k <= m < |inputs| && rest + (|inputs| - k) <= |undo| && DistinctInputs(inputs) && inputs[m] !in skip
    ensures var after := PutBack(inputs, skip, working, undo, rest, k);
      inputs[m] in after && after[inputs[m]] == undo[rest + (m - k)]
    decreases |inputs| - k
  {
    if k < m {
      assert inputs[k] != inputs[m];
      PutBackCoin(inputs, skip, working, undo, rest + 1, k + 1, m);
    }
  }

  /** The block was connected to `before`, leaving these coins and this undo record. */
  ghost predicate Connection(before: CoinSet, b: Block, height: nat, coins: CoinSet, undo: seq<Coin>) {
    && SaneBlock(b) && NewIds(before, b)
    && Apply(before, b, |b|, height).Some?
    && coins == Apply(before, b, |b|, height).value.coins
    && undo == Apply(before, b, |b|, height).value.undo
  }

  lemma {:induction false} UndoStart(before: CoinSet, b: Block, height: nat, coins: CoinSet, undo: seq<Coin>)
    requires Connection(before, b, height, coins, undo)
    ensures UndoneTo(before, b, |b|, height, coins, coins, undo, |undo|)
  {
  }

  // ---- One transaction at a time, last first ----

  /**
   * All transactions from `i` on are undone: off the passed-over outpoints the set is the one
   * before transaction `i`, on them it is still the one after the block.
   */
  ghost predicate UndoneTo(before: CoinSet, b: Block, i: nat, height: nat, post: CoinSet, working: CoinSet,
                           undo: seq<Coin>, idx: nat)
  {
    && i <= |b| && SaneBlock(b) && NewIds(before, b) && Apply(before, b, i, height).Some? &&
    var l, skip := Apply(before, b, i, height).value, InBlockSpends(b, |b|);
    && working - skip == l.coins - skip
    && Restrict(working, skip) == Restrict(post, skip)
    && idx == |l.undo| && idx <= |undo| && undo[..idx] == l.undo
  }

  lemma {:induction false} RemovalSound(before: CoinSet, b: Block, i: nat, height: nat, post: CoinSet, working: CoinSet,
                     undo: seq<Coin>, idx: nat)
    requires i < |b| && UndoneTo(before, b, i + 1, height, post, working, undo, idx)
    ensures Holds(working, b[i], InBlockSpends(b, |b|), height)
  {
    hide Apply, InBlockSpends, SaneBlock, NewIds, CoinOf, Restrict;
    ApplyStep(before, b, i, height);
    HoldsAfterCreate(Apply(before, b, i + 1, height).value.coins, working, b[i], InBlockSpends(b, |b|), height,
                     if i == 0 then before else Spend(Apply(before, b, i, height).value, b[i]).coins);
  }

  lemma {:induction false} HoldsAfterCreate(after: CoinSet, working: CoinSet, tx: Transaction, skip: set<Outpoint>, height: nat, base: CoinSet)
    requires after == base + CoinsOf(tx, height) && working - skip == after - skip
    ensures Holds(working, tx, skip, height)
  {
    forall i {:trigger Outpoint(tx.hash, i)} | 0 <= i < |tx.outputs| && Outpoint(tx.hash, i) !in skip
      ensures Outpoint(tx.hash, i) in working && working[Outpoint(tx.hash, i)] == CoinOf(tx, height, i)
    {
      var op := Outpoint(tx.hash, i);
      assert op in Made(tx);
      assert op in after - skip;
      assert (working - skip)[op] == (after - skip)[op];
    }
  }

  /** Before the inputs of transaction `i` go back, none of their places is taken. */
  lemma {:induction false} RestoreSound(before: CoinSet, b: Block, i: nat, height: nat, post: CoinSet, start: CoinSet, working: CoinSet,
                     undo: seq<Coin>, idx: nat)
    requires 0 < i < |b| && UndoneTo(before, b, i + 1, height, post, start, undo, idx)
    requires working == start - (Made(b[i]) - InBlockSpends(b, |b|))
    ensures NULL_OUTPOINT !in b[i].inputs && DistinctInputs(b[i].inputs) && |b[i].inputs| <= idx
    ensures (SpentBy(b[i]) - InBlockSpends(b, |b|)) !! working.Keys
  {
    hide Apply, InBlockSpends, CoinsOf, InputTotal, OutputTotal, Fee, NewId;
    ApplyStep(before, b, i, height);
    StillNew(before, b, i, height);
    var l, skip := Apply(before, b, i, height).value, InBlockSpends(b, |b|);
    forall op | op in SpentBy(b[i]) - skip
      ensures op !in working
    {
      if op in working {
        assert op in start - skip;
        assert op in (l.coins - SpentBy(b[i])) + CoinsOf(b[i], height);
        assert op in CoinsOf(b[i], height);
        InCoinsOf(b[i], height, op);
      }
    }
  }

  lemma {:induction false} InCoinsOf(tx: Transaction, height: nat, op: Outpoint)
    ensures op in CoinsOf(tx, height) <==> op in Made(tx)
  {
  }

  lemma {:induction false} UndoStep(before: CoinSet, b: Block, i: nat, height: nat, post: CoinSet, start: CoinSet, removed: CoinSet,
                 working: CoinSet, undo: seq<Coin>, top: nat, idx: nat)
    requires 0 < i < |b| && UndoneTo(before, b, i + 1, height, post, start, undo, top)
    requires removed == start - (Made(b[i]) - InBlockSpends(b, |b|))
    requires idx + |b[i].inputs| == top && idx <= |undo| - |b[i].inputs|
    requires working == PutBack(b[i].inputs, InBlockSpends(b, |b|), removed, undo, idx, 0)
    ensures UndoneTo(before, b, i, height, post, working, undo, idx)
  {
    hide Apply, InBlockSpends, Pays, Fee, PutBack, SaneBlock, CoinsOf, Made, SpentBy, Restrict, NewIds, Taken;
    ApplyStep(before, b, i, height);
    StillNewAt(before, b, i, height);
    InputsDiffer(b, i);
    var l, skip := Apply(before, b, i, height).value, InBlockSpends(b, |b|);
    var next := Apply(before, b, i + 1, height).value;
    PaysReads(l.coins, b[i]);
    SplitUndo(undo, idx, l.undo, Taken(l.coins, b[i].inputs, |b[i].inputs|));
    StepOff(l.coins, next.coins, b[i], height, skip, start, removed, undo, idx, working);
    StepOn(b[i], skip, start, removed, undo, idx, working);
  }

  lemma {:induction false} InputsDiffer(b: Block, i: nat)
    requires SaneBlock(b) && 0 < i < |b|
    ensures DistinctInputs(b[i].inputs)
  {
  }

  lemma {:induction false} PaysReads(coins: CoinSet, tx: Transaction)
    requires Pays(coins, tx)
    ensures forall k :: 0 <= k < |tx.inputs| ==> tx.inputs[k] in coins
  {
  }

  lemma {:induction false} SplitUndo(undo: seq<Coin>, idx: nat, earlier: seq<Coin>, taken: seq<Coin>)
    requires idx + |taken| <= |undo| && undo[..idx + |taken|] == earlier + taken && |earlier| == idx
    ensures undo[..idx] == earlier && undo[idx..idx + |taken|] == taken
  {
  }

  lemma {:induction false} StillNewAt(before: CoinSet, b: Block, i: nat, height: nat)
    requires i < |b| && SaneBlock(b) && NewIds(before, b) && Apply(before, b, i, height).Some?
    ensures NewId(Apply(before, b, i, height).value.coins, b[i])
  {
    StillNew(before, b, i, height);
  }

  /** Off the passed-over outpoints one transaction is undone exactly. */
  lemma {:induction false} StepOff(l: CoinSet, next: CoinSet, tx: Transaction, height: nat, skip: set<Outpoint>, start: CoinSet,
                removed: CoinSet, undo: seq<Coin>, rest: nat, working: CoinSet)
    requires forall k :: 0 <= k < |tx.inputs| ==> tx.inputs[k] in l
    requires NewId(l, tx) && next == (l - SpentBy(tx)) + CoinsOf(tx, height)
    requires start - skip == next - skip && removed == start - (Made(tx) - skip)
    requires DistinctInputs(tx.inputs) && rest + |tx.inputs| <= |undo|
    requires working == PutBack(tx.inputs, skip, removed, undo, rest, 0)
    requires undo[rest..rest + |tx.inputs|] == Taken(l, tx.inputs, |tx.inputs|)
    ensures working - skip == l - skip
  {
    hide PutBack, CoinsOf, Made, SpentBy, DistinctInputs, NewId, Taken;
    forall op | op !in skip
      ensures op in working <==> op in l
      ensures op in l ==> working[op] == l[op]
    {
      assert op in start - skip <==> op in next - skip;
      assert op in start ==> (start - skip)[op] == (next - skip)[op];
      MadeIsNew(l, tx, height, op);
      PutBackKeys(tx.inputs, skip, removed, undo, rest, 0, op);
      assert tx.inputs[0..] == tx.inputs;
      SpentIsInput(tx, op);
      if op in SpentBy(tx) {
        TakenBack(l, tx, skip, removed, undo, rest, op);
      }
    }
  }

  lemma {:induction false} MadeIsNew(l: CoinSet, tx: Transaction, height: nat, op: Outpoint)
    requires NewId(l, tx)
    ensures op in Made(tx) ==> op !in l
    ensures op in CoinsOf(tx, height) <==> op in Made(tx)
  {
  }

  lemma {:induction false} SpentIsInput(tx: Transaction, op: Outpoint)
    ensures op in SpentBy(tx) <==> op in tx.inputs
  {
  }

  lemma {:induction false} TakenBack(l: CoinSet, tx: Transaction, skip: set<Outpoint>, removed: CoinSet, undo: seq<Coin>, rest: nat, op: Outpoint)
    requires DistinctInputs(tx.inputs) && op in SpentBy(tx) && op !in skip
    requires forall k :: 0 <= k < |tx.inputs| ==> tx.inputs[k] in l
    requires rest + |tx.inputs| <= |undo| && undo[rest..rest + |tx.inputs|] == Taken(l, tx.inputs, |tx.inputs|)
    ensures var after := PutBack(tx.inputs, skip, removed, undo, rest, 0);
      op in after && op in l && after[op] == l[op]
  {
    hide PutBack;
    var m :| 0 <= m < |tx.inputs| && tx.inputs[m] == op;
    PutBackCoin(tx.inputs, skip, removed, undo, rest, 0, m);
    assert undo[rest + m] == undo[rest..rest + |tx.inputs|][m];
  }

  lemma {:induction false} StepOn(tx: Transaction, skip: set<Outpoint>, start: CoinSet, removed: CoinSet, undo: seq<Coin>, rest: nat, working: CoinSet)
    requires removed == start - (Made(tx) - skip) && rest + |tx.inputs| <= |undo|
    requires working == PutBack(tx.inputs, skip, removed, undo, rest, 0)
    ensures Restrict(working, skip) == Restrict(start, skip)
  {
    hide PutBack;
    forall op | op in skip
      ensures op in working <==> op in start
      ensures op in start ==> working[op] == start[op]
    {
      PutBackKeys(tx.inputs, skip, removed, undo, rest, 0, op);
    }
  }

  lemma {:induction false} UndoFirst(before: CoinSet, b: Block, height: nat, post: CoinSet, start: CoinSet, working: CoinSet,
                  undo: seq<Coin>, idx: nat)
    requires b != [] && UndoneTo(before, b, 1, height, post, start, undo, idx)
    requires working == start - (Made(b[0]) - InBlockSpends(b, |b|))
    ensures UndoneTo(before, b, 0, height, post, working, undo, idx)
  {
    hide InBlockSpends, SaneBlock, CoinsOf, Restrict;
    ApplyStep(before, b, 0, height);
    var skip := InBlockSpends(b, |b|);
    forall op | op !in skip
      ensures op in working <==> op in before
      ensures op in before ==> working[op] == before[op]
    {
      InCoinsOf(b[0], height, op);
      assert op in start - skip <==> op in (before + CoinsOf(b[0], height)) - skip;
      assert op in start ==> (start - skip)[op] == ((before + CoinsOf(b[0], height)) - skip)[op];
      assert NewId(before, b[0]);
      assert op in before ==> op !in Made(b[0]);
    }
    assert working - skip == before - skip;
    RestrictRemoval(start, Made(b[0]), skip);
  }

  lemma {:induction false} RestrictRemoval(start: CoinSet, gone: set<Outpoint>, skip: set<Outpoint>)
    ensures Restrict(start - (gone - skip), skip) == Restrict(start, skip)
  {
  }

  lemma {:induction false} UndoneAll(before: CoinSet, b: Block, height: nat, post: CoinSet, working: CoinSet, undo: seq<Coin>, idx: nat)
    requires UndoneTo(before, b, 0, height, post, working, undo, idx)
    ensures working == before + Restrict(post, InBlockSpends(b, |b|))
  {
    hide SaneBlock;
    var skip := InBlockSpends(b, |b|);
    SkippedAreNew(before, b, |b|);
    forall op
      ensures op in working <==> op in before || op in Restrict(post, skip)
      ensures op in working ==> working[op] == (before + Restrict(post, skip))[op]
    {
      if op in skip {
        assert op in Restrict(working, skip) <==> op in Restrict(post, skip);
        assert op in working ==> Restrict(working, skip)[op] == Restrict(post, skip)[op];
      } else {
        assert op in working - skip <==> op in before - skip;
        assert op in working ==> (working - skip)[op] == (before - skip)[op];
      }
    }
  }

  lemma {:induction false} SkippedAreNew(before: CoinSet, b: Block, n: nat)
    requires n <= |b| && NewIds(before, b)
    ensures InBlockSpends(b, n) !! before.Keys
  {
    if n > 0 {
      SkippedAreNew(before, b, n - 1);
      var inputs := b[n - 1].inputs;
      forall op | op in Naming(inputs, Ids(b), |inputs|)
        ensures op !in before
      {
        NamingMeaning(inputs, Ids(b), |inputs|, op);
        var i :| 0 <= i < |b| && b[i].hash == op.hash;
        assert NewId(before, b[i]);
      }
    }
  }

  // ---- What is passed over although it should go ----

  function MadeBy(b: Block, n: nat): set<Outpoint>
    requires n <= |b|
  {
    if n == 0 then {} else MadeBy(b, n - 1) + Made(b[n - 1])
  }

  /** Everything spent by the first `n` transactions, the coinbase aside. */
  function SpentByOthers(b: Block, n: nat): set<Outpoint>
    requires n <= |b|
  {
    if n <= 1 then {} else SpentByOthers(b, n - 1) + SpentBy(b[n - 1])
  }

  /**
   * Outputs of the block that only its coinbase names as an input. Connecting ignores the
   * coinbase's inputs, while disconnecting takes these outputs for spent and leaves them alone.
   */
  function Phantoms(b: Block): set<Outpoint>
    requires b != []
  {
    SpentBy(b[0]) * MadeBy(b, |b|) - SpentByOthers(b, |b|)
  }

  lemma {:induction false} MadeByMeaning(b: Block, n: nat, op: Outpoint)
    requires n <= |b|
    ensures op in MadeBy(b, n) <==> exists i :: 0 <= i < n && op in Made(b[i])
  {
    if n > 0 {
      MadeByMeaning(b, n - 1, op);
    }
  }

  lemma {:induction false} OthersMeaning(b: Block, n: nat, op: Outpoint)
    requires n <= |b|
    ensures op in SpentByOthers(b, n) <==> exists i :: 1 <= i < n && op in SpentBy(b[i])
  {
    if n > 1 {
      OthersMeaning(b, n - 1, op);
    }
  }

  lemma {:induction false} PassedOver(b: Block, n: nat, op: Outpoint)
    requires n <= |b|
    ensures op in InBlockSpends(b, n) <==>
      op != NULL_OUTPOINT && op.hash in Ids(b) && n > 0 && (op in SpentBy(b[0]) || op in SpentByOthers(b, n))
  {
    hide Ids, SpentBy;
    if n > 0 {
      PassedOver(b, n - 1, op);
      var inputs := b[n - 1].inputs;
      NamingMeaning(inputs, Ids(b), |inputs|, op);
      assert inputs[..|inputs|] == inputs;
      SpentIsInput(b[n - 1], op);
    }
  }

  lemma {:induction false} OnlyMadeAdded(before: CoinSet, b: Block, n: nat, height: nat, op: Outpoint)
    requires n <= |b| && Apply(before, b, n, height).Some? && op in Apply(before, b, n, height).value.coins
    ensures op in before || op in MadeBy(b, n)
  {
    hide Made, Pays, Fee, SpentBy, Taken;
    if n > 0 {
      ApplyStep(before, b, n - 1, height);
      InCoinsOf(b[n - 1], height, op);
      if op !in Made(b[n - 1]) {
        OnlyMadeAdded(before, b, n - 1, height, op);
      }
    }
  }

  lemma {:induction false} SpentIsGone(before: CoinSet, b: Block, i: nat, n: nat, height: nat, op: Outpoint)
    requires 0 < i < n <= |b| && SaneBlock(b) && NewIds(before, b) && Apply(before, b, n, height).Some?
    requires op in SpentBy(b[i])
    ensures op !in Apply(before, b, n, height).value.coins
    ensures forall j :: i <= j < |b| ==> op !in Made(b[j])
  {
    hide Fee, Taken, CoinsOf, Apply, Pays, SaneBlock, NewIds, Made, SpentBy;
    ApplyStep(before, b, n - 1, height);
    InCoinsOf(b[n - 1], height, op);
    if n == i + 1 {
      SpentNotMade(before, b, i, height, op);
    } else {
      SpentIsGone(before, b, i, n - 1, height, op);
    }
  }

  lemma {:induction false} SpentNotMade(before: CoinSet, b: Block, i: nat, height: nat, op: Outpoint)
    requires 0 < i < |b| && SaneBlock(b) && NewIds(before, b) && Apply(before, b, i, height).Some?
    requires Pays(Apply(before, b, i, height).value.coins, b[i]) && op in SpentBy(b[i])
    ensures forall j :: i <= j < |b| ==> op !in Made(b[j])
  {
    hide Apply, InputTotal, OutputTotal;
    StillNew(before, b, i, height);
    forall j | i <= j < |b|
      ensures op !in Made(b[j])
    {
      assert NewId(Apply(before, b, i, height).value.coins, b[j]);
    }
  }

  lemma {:induction false} UnspentStays(before: CoinSet, b: Block, n: nat, height: nat, op: Outpoint)
    requires n <= |b| && Apply(before, b, n, height).Some?
    requires op in MadeBy(b, n) && op !in SpentByOthers(b, n)
    ensures op in Apply(before, b, n, height).value.coins
  {
    hide Made, Pays, Fee, SpentBy, Taken;
    ApplyStep(before, b, n - 1, height);
    InCoinsOf(b[n - 1], height, op);
    if op !in Made(b[n - 1]) {
      UnspentStays(before, b, n - 1, height, op);
    }
  }

  lemma {:induction false} MadeHasId(b: Block, op: Outpoint)
    requires op in MadeBy(b, |b|)
    ensures op.hash in Ids(b)
  {
    MadeByMeaning(b, |b|, op);
  }

  lemma {:induction false} NewHasNoId(before: CoinSet, b: Block, op: Outpoint)
    requires NewIds(before, b) && op.hash in Ids(b)
    ensures op !in before && op != NULL_OUTPOINT
  {
    var i :| 0 <= i < |b| && b[i].hash == op.hash;
    assert NewId(before, b[i]);
  }

  /** Of the coins the block leaves, exactly the phantoms are passed over. */
  lemma {:induction false} PassedOverIsPhantom(before: CoinSet, b: Block, height: nat, coins: CoinSet, undo: seq<Coin>, op: Outpoint)
    requires Connection(before, b, height, coins, undo)
    ensures op in InBlockSpends(b, |b|) && op in coins <==> op in Phantoms(b)
    ensures op in Phantoms(b) ==> op !in before
  {
    hide InBlockSpends, Ids, MadeBy, SpentByOthers, SpentBy, Apply, NewIds;
    PassedOver(b, |b|, op);
    OthersMeaning(b, |b|, op);
    if op in Phantoms(b) {
      MadeHasId(b, op);
      NewHasNoId(before, b, op);
      UnspentStays(before, b, |b|, height, op);
    } else if op in InBlockSpends(b, |b|) && op in coins {
      NewHasNoId(before, b, op);
      OnlyMadeAdded(before, b, |b|, height, op);
      if op in SpentByOthers(b, |b|) {
        var j :| 1 <= j < |b| && op in SpentBy(b[j]);
        SpentIsGone(before, b, j, |b|, height, op);
        assert false;
      }
    }
  }

  /** Disconnecting gives back the coins before the block if and only if it has no phantoms. */
  lemma {:induction false} UndoExact(before: CoinSet, b: Block, height: nat, coins: CoinSet, undo: seq<Coin>)
    requires Connection(before, b, height, coins, undo)
    ensures before + Restrict(coins, InBlockSpends(b, |b|)) == before + Restrict(coins, Phantoms(b))
    ensures before + Restrict(coins, InBlockSpends(b, |b|)) == before <==> Phantoms(b) == {}
  {
    assert b != [];
    hide InBlockSpends, Phantoms, Connection;
    forall op
      ensures op in InBlockSpends(b, |b|) && op in coins <==> op in Phantoms(b)
      ensures op in Phantoms(b) ==> op !in before
    {
      PassedOverIsPhantom(before, b, height, coins, undo, op);
    }
    assert Restrict(coins, InBlockSpends(b, |b|)) == Restrict(coins, Phantoms(b));
    assert forall op :: op in Phantoms(b) ==> op in Restrict(coins, Phantoms(b));
    if Phantoms(b) != {} {
      var op :| op in Phantoms(b);
      assert op in before + Restrict(coins, Phantoms(b));
    } else {
      assert Restrict(coins, Phantoms(b)) == map[];
    }
  }
}
