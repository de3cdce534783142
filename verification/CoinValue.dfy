/**
 * What blocks do to the value of the coins: transactions with new ids lose their fees and nothing
 * else, and the coinbase adds what it claims, so that values alone decide what may be claimed
 * (Sources/Consensus/BlockValidator.swift, lines 167 to 191; Sources/Chain/CoinView.swift, lines
 * 134 to 162).
 */
module CoinValue {
  import opened BlockReward
  import opened Covenants
  import opened Coins

  // ---- What creating and spending do to the value ----

  function Minted(coins: CoinSet, tx: Transaction, height: nat, n: nat): CoinSet
    requires n <= |tx.outputs|
  {
    if n == 0 then coins else Minted(coins, tx, height, n - 1)[Outpoint(tx.hash, n - 1) := CoinOf(tx, height, n - 1)]
  }

  lemma {:induction false} MintedKeys(coins: CoinSet, tx: Transaction, height: nat, n: nat, op: Outpoint)
    requires n <= |tx.outputs|
    ensures op in Minted(coins, tx, height, n) <==> op in coins || (op.hash == tx.hash && op.index < n)
    ensures op.hash == tx.hash && op.index < n ==> Minted(coins, tx, height, n)[op] == CoinOf(tx, height, op.index)
    ensures op in coins && !(op.hash == tx.hash && op.index < n) ==> Minted(coins, tx, height, n)[op] == coins[op]
  {
    if n > 0 {
      MintedKeys(coins, tx, height, n - 1, op);
    }
  }

  lemma {:induction false} MintedAll(coins: CoinSet, tx: Transaction, height: nat)
    ensures Minted(coins, tx, height, |tx.outputs|) == coins + CoinsOf(tx, height)
  {
    hide CoinOf;
    forall op
      ensures op in Minted(coins, tx, height, |tx.outputs|) <==> op in coins + CoinsOf(tx, height)
      ensures op in coins + CoinsOf(tx, height) ==>
        Minted(coins, tx, height, |tx.outputs|)[op] == (coins + CoinsOf(tx, height))[op]
    {
      MintedKeys(coins, tx, height, |tx.outputs|, op);
      MadeMeaning(tx, op);
    }
  }

  lemma {:induction false} MadeMeaning(tx: Transaction, op: Outpoint)
    ensures op in Made(tx) <==> op.hash == tx.hash && op.index < |tx.outputs|
  {
    if op.hash == tx.hash && op.index < |tx.outputs| {
      assert op == Outpoint(tx.hash, op.index);
    }
  }

  /** Overwriting a coin can only lose the old one's value. */
  lemma {:induction false} ValuePut(coins: CoinSet, op: Outpoint, coin: Coin)
    ensures Value(coins[op := coin]) <= Value(coins) + coin.output.value
    ensures op !in coins ==> Value(coins[op := coin]) == Value(coins) + coin.output.value
  {
    if op in coins {
      ValueRemove(coins, op);
      ValueAdd(coins - {op}, op, coin);
      assert (coins - {op})[op := coin] == coins[op := coin];
    } else {
      ValueAdd(coins, op, coin);
    }
  }

  lemma {:induction false} MintedValue(coins: CoinSet, tx: Transaction, height: nat, n: nat)
    requires n <= |tx.outputs|
    ensures Value(Minted(coins, tx, height, n)) <= Value(coins) + OutputTotal(tx.outputs, n)
    ensures NewId(coins, tx) ==> Value(Minted(coins, tx, height, n)) == Value(coins) + OutputTotal(tx.outputs, n)
  {
    hide Value, CoinOf;
    if n > 0 {
      assert CoinOf(tx, height, n - 1).output == tx.outputs[n - 1] by { CoinOutput(tx, height, n - 1); }
      MintedValue(coins, tx, height, n - 1);
      MintedKeys(coins, tx, height, n - 1, Outpoint(tx.hash, n - 1));
      ValuePut(Minted(coins, tx, height, n - 1), Outpoint(tx.hash, n - 1), CoinOf(tx, height, n - 1));
    }
  }

  lemma {:induction false} CoinOutput(tx: Transaction, height: nat, i: nat)
    requires i < |tx.outputs|
    ensures CoinOf(tx, height, i).output == tx.outputs[i]
  {
  }

  lemma {:induction false} CreatedValue(coins: CoinSet, tx: Transaction, height: nat)
    ensures Value(coins + CoinsOf(tx, height)) <= Value(coins) + OutputTotal(tx.outputs, |tx.outputs|)
    ensures NewId(coins, tx) ==> Value(coins + CoinsOf(tx, height)) == Value(coins) + OutputTotal(tx.outputs, |tx.outputs|)
  {
    hide Value, OutputTotal, NewId;
    MintedAll(coins, tx, height);
    MintedValue(coins, tx, height, |tx.outputs|);
  }

  function FirstSpent(inputs: seq<Outpoint>, n: nat): set<Outpoint>
    requires n <= |inputs|
  {
    set k | 0 <= k < n :: inputs[k]
  }

  lemma {:induction false} SpentValue(coins: CoinSet, inputs: seq<Outpoint>, n: nat)
    requires n <= |inputs| && DistinctInputs(inputs) && NULL_OUTPOINT !in inputs
    requires forall k :: 0 <= k < |inputs| ==> inputs[k] in coins
    ensures Value(coins - FirstSpent(inputs, n)) == Value(coins) - InputTotal(coins, inputs, n)
  {
    hide Value;
    if n == 0 {
      assert coins - FirstSpent(inputs, 0) == coins;
    } else {
      SpentValue(coins, inputs, n - 1);
      var op, rest := inputs[n - 1], coins - FirstSpent(inputs, n - 1);
      assert op !in FirstSpent(inputs, n - 1);
      ValueRemove(rest, op);
      assert FirstSpent(inputs, n) == FirstSpent(inputs, n - 1) + {op};
      assert rest - {op} == coins - FirstSpent(inputs, n);
    }
  }

  // ---- Blocks ----

  lemma {:induction false} PaidFromCoins(coins: CoinSet, b: Block, i: nat, height: nat)
    requires 0 < i < |b| && SaneBlock(b) && NewIds(coins, b) && Apply(coins, b, i, height).Some?
    requires Pays(Apply(coins, b, i, height).value.coins, b[i])
    ensures DistinctInputs(b[i].inputs) && NULL_OUTPOINT !in b[i].inputs
  {
    hide Apply, InputTotal, OutputTotal;
    StillNew(coins, b, i, height);
  }

  /** What the first `n` transactions leave is what there was and what the coinbase claims, less the fees. */
  lemma {:induction false} BlockValue(coins: CoinSet, b: Block, n: nat, height: nat)
    requires 0 < n <= |b| && SaneBlock(b) && NewIds(coins, b) && Apply(coins, b, n, height).Some?
    ensures var l := Apply(coins, b, n, height).value;
      Value(l.coins) + l.fees == Value(coins) + OutputTotal(b[0].outputs, |b[0].outputs|)
  {
    hide *;
    ApplyStep(coins, b, n - 1, height);
    ApplyNone(coins, b, height);
    NewInBlock(coins, b, n - 1, height);
    if n == 1 {
      FirstValue(coins, b[0], height);
    } else {
      BlockValue(coins, b, n - 1, height);
      PaidFromCoins(coins, b, n - 1, height);
      StepValue(Apply(coins, b, n - 1, height).value, b[n - 1], height);
    }
  }

  lemma {:induction false} NewInBlock(coins: CoinSet, b: Block, i: nat, height: nat)
    requires i < |b| && SaneBlock(b) && NewIds(coins, b) && Apply(coins, b, i, height).Some?
    ensures NewId(Apply(coins, b, i, height).value.coins, b[i])
    ensures i == 0 ==> NewId(coins, b[0])
  {
    hide Apply, NewId;
    StillNew(coins, b, i, height);
  }

  lemma {:induction false} FirstValue(coins: CoinSet, tx: Transaction, height: nat)
    requires NewId(coins, tx)
    ensures var l := Create(Ledger(coins, 0, []), tx, height);
      Value(l.coins) + l.fees == Value(coins) + OutputTotal(tx.outputs, |tx.outputs|)
  {
    hide Value, OutputTotal, CoinsOf, NewId;
    CreatedValue(coins, tx, height);
  }

  /** What a transaction with a new id takes out of the coins is its fee. */
  lemma {:induction false} StepValue(l: Ledger, tx: Transaction, height: nat)
    requires Pays(l.coins, tx) && DistinctInputs(tx.inputs) && NULL_OUTPOINT !in tx.inputs && NewId(l.coins, tx)
    ensures var next := Create(Spend(l, tx), tx, height);
      Value(next.coins) + next.fees == Value(l.coins) + l.fees
  {
    hide Value, OutputTotal, InputTotal, CoinsOf, Taken, SpentBy, NewId;
    AllSpent(tx);
    SpentValue(l.coins, tx.inputs, |tx.inputs|);
    StillNewId(l.coins, SpentBy(tx), tx);
    CreatedValue(l.coins - SpentBy(tx), tx, height);
  }

  lemma {:induction false} StillNewId(coins: CoinSet, spent: set<Outpoint>, tx: Transaction)
    requires NewId(coins, tx)
    ensures NewId(coins - spent, tx)
  {
  }

  lemma {:induction false} AllSpent(tx: Transaction)
    ensures SpentBy(tx) == FirstSpent(tx.inputs, |tx.inputs|)
  {
  }

  // ---- What decides, in values ----

  /**
   * A transaction that spends different coins, all there, and has a new id pays its way if and only
   * if what it leaves is worth no more than what there was, and what it spends fits 64 bits.
   */
  lemma {:induction false} PaysInValue(coins: CoinSet, tx: Transaction, height: nat)
    requires DistinctInputs(tx.inputs) && NULL_OUTPOINT !in tx.inputs && NewId(coins, tx)
    requires forall k :: 0 <= k < |tx.inputs| ==> tx.inputs[k] in coins
    ensures Pays(coins, tx) <==>
      && Value(coins - SpentBy(tx) + CoinsOf(tx, height)) <= Value(coins)
      && Value(coins) - Value(coins - SpentBy(tx)) <= INT64_MAX
  {
    hide Value, OutputTotal, InputTotal, CoinsOf, SpentBy, NewId;
    AllSpent(tx);
    SpentValue(coins, tx.inputs, |tx.inputs|);
    StillNewId(coins, SpentBy(tx), tx);
    CreatedValue(coins - SpentBy(tx), tx, height);
  }

  /** A coinbase may claim what it does if and only if the block adds no more than the subsidy. */
  lemma {:induction false} ClaimInValue(coins: CoinSet, b: Block, height: nat, interval: nat)
    requires interval > 0 && SaneBlock(b) && NewIds(coins, b) && Apply(coins, b, |b|, height).Some?
    ensures var l := Apply(coins, b, |b|, height).value;
      ClaimsAllowed(b, height, l.fees, interval) <==>
        && Value(l.coins) <= Value(coins) + GetReward(height, interval)
        && GetReward(height, interval) + l.fees <= INT64_MAX
  {
    hide Value, GetReward, NewIds, Apply, OutputTotal;
    BlockValue(coins, b, |b|, height);
  }

  /** The block can be applied, and its coins are worth at most the coins before it and the subsidy. */
  ghost predicate AddsAtMostSubsidy(coins: CoinSet, b: Block, height: nat, interval: nat)
    requires interval > 0
  {
    Apply(coins, b, |b|, height).Some? &&
    var l := Apply(coins, b, |b|, height).value;
    Value(l.coins) <= Value(coins) + GetReward(height, interval) && GetReward(height, interval) + l.fees <= INT64_MAX
  }

  lemma {:induction false} AppliesInValue(coins: CoinSet, b: Block, height: nat, interval: nat)
    requires interval > 0 && SaneBlock(b) && NewIds(coins, b)
    ensures ApplyBlock(coins, b, height, interval).Some? <==> AddsAtMostSubsidy(coins, b, height, interval)
  {
    hide Value, GetReward, NewIds, Apply, ClaimsAllowed;
    if Apply(coins, b, |b|, height).Some? {
      ClaimInValue(coins, b, height, interval);
    }
  }

  // ---- Sanity in numbers ----

  function InputSet(inputs: seq<Outpoint>): set<Outpoint> {
    set op | op in inputs
  }

  lemma {:induction false} DistinctCount(inputs: seq<Outpoint>)
    ensures |InputSet(inputs)| <= |inputs|
    ensures DistinctInputs(inputs) <==> |InputSet(inputs)| == |inputs|
  {
    if inputs != [] {
      var front, last := inputs[..|inputs| - 1], inputs[|inputs| - 1];
      DistinctCount(front);
      assert inputs == front + [last];
      assert InputSet(inputs) == InputSet(front) + {last};
      if last in front {
        var k :| 0 <= k < |front| && front[k] == last;
        assert inputs[k] == inputs[|inputs| - 1];
        assert InputSet(inputs) == InputSet(front);
      } else {
        assert DistinctInputs(inputs) <==> DistinctInputs(front);
      }
    }
  }

  /** Inputs and outputs, no input twice but in a coinbase, and values of at most 1,051,200,000 coins alone and together. */
  lemma {:induction false} SaneInNumbers(tx: Transaction)
    ensures SaneTransaction(tx) <==>
      && |tx.inputs| > 0 && |tx.outputs| > 0
      && (tx.inputs[0] == NULL_OUTPOINT || |InputSet(tx.inputs)| == |tx.inputs|)
      && (forall output :: output in tx.outputs ==> output.value <= 1_051_200_000 * 1_000_000)
      && OutputTotal(tx.outputs, |tx.outputs|) <= 1_051_200_000 * 1_000_000
  {
    hide DistinctInputs, OutputTotal, InputSet;
    DistinctCount(tx.inputs);
  }
}
