/**
 * Where the coins of a chain come from, and how old a coinbase coin is when it is spent
 * (Sources/Chain/CoinView.swift, lines 47 to 62; Sources/Chain/ChainValidation.swift, lines 176 to 201).
 */
module CoinAges {
  import opened Covenants
  import opened Coins
  import opened UtxoChain

  /** The coin at `op` is an output of transaction `j` of block `g`, and its record says so. */
  predicate MadeIn(blocks: seq<Block>, g: nat, j: nat, op: Outpoint, coin: Coin) {
    && g < |blocks| && j < |blocks[g]| && op.hash == blocks[g][j].hash && op.index < |blocks[g][j].outputs|
    && coin.output == blocks[g][j].outputs[op.index] && coin.version == blocks[g][j].version
    && coin.height == g && coin.coinbase == IsCoinbase(blocks[g][j])
  }

  ghost predicate HasOrigin(blocks: seq<Block>, op: Outpoint, coin: Coin) {
    exists g: nat, j: nat :: MadeIn(blocks, g, j, op, coin)
  }

  ghost predicate AllHaveOrigin(blocks: seq<Block>, coins: CoinSet) {
    forall op :: op in coins ==> HasOrigin(blocks, op, coins[op])
  }

  lemma {:induction false} OriginMore(blocks: seq<Block>, more: seq<Block>, coins: CoinSet)
    requires AllHaveOrigin(blocks, coins)
    ensures AllHaveOrigin(blocks + more, coins)
  {
    forall op | op in coins
      ensures HasOrigin(blocks + more, op, coins[op])
    {
      var g: nat, j: nat :| MadeIn(blocks, g, j, op, coins[op]);
      assert MadeIn(blocks + more, g, j, op, coins[op]);
    }
  }

  /** The outputs of a transaction of the last block. */
  lemma {:induction false} OutputsHaveOrigin(blocks: seq<Block>, j: nat)
    requires blocks != [] && j < |blocks[|blocks| - 1]|
    ensures AllHaveOrigin(blocks, CoinsOf(blocks[|blocks| - 1][j], |blocks| - 1))
  {
    var tx, made := blocks[|blocks| - 1][j], CoinsOf(blocks[|blocks| - 1][j], |blocks| - 1);
    forall op | op in made
      ensures HasOrigin(blocks, op, made[op])
    {
      assert MadeIn(blocks, |blocks| - 1, j, op, made[op]);
    }
  }

  lemma {:induction false} UnionHasOrigin(blocks: seq<Block>, a: CoinSet, b: CoinSet)
    requires AllHaveOrigin(blocks, a) && AllHaveOrigin(blocks, b)
    ensures AllHaveOrigin(blocks, a + b)
  {
    hide HasOrigin;
  }

  lemma {:induction false} LessHasOrigin(blocks: seq<Block>, a: CoinSet, gone: set<Outpoint>)
    requires AllHaveOrigin(blocks, a)
    ensures AllHaveOrigin(blocks, a - gone)
  {
    hide HasOrigin;
  }

  /** Part of the way through a block every coin comes from the chain or from the block. */
  lemma {:induction false} ApplyHasOrigin(blocks: seq<Block>, coins: CoinSet, b: Block, n: nat)
    requires AllHaveOrigin(blocks, coins) && n <= |b| && Apply(coins, b, n, |blocks|).Some?
    ensures AllHaveOrigin(blocks + [b], Apply(coins, b, n, |blocks|).value.coins)
  {
    hide Apply, CoinsOf, AllHaveOrigin, Pays, Fee, Taken, SpentBy;
    var more := blocks + [b];
    if n == 0 {
      ApplyNone(coins, b, |blocks|);
      OriginMore(blocks, [b], coins);
    } else {
      ApplyStep(coins, b, n - 1, |blocks|);
      ApplyHasOrigin(blocks, coins, b, n - 1);
      var l := Apply(coins, b, n - 1, |blocks|).value;
      OutputsHaveOrigin(more, n - 1);
      if n == 1 {
        ApplyNone(coins, b, |blocks|);
        UnionHasOrigin(more, l.coins, CoinsOf(b[0], |blocks|));
      } else {
        LessHasOrigin(more, l.coins, SpentBy(b[n - 1]));
        UnionHasOrigin(more, l.coins - SpentBy(b[n - 1]), CoinsOf(b[n - 1], |blocks|));
      }
    }
  }

  lemma {:induction false} GenesisHasOrigin(b: Block, n: nat)
    requires n <= |b|
    ensures AllHaveOrigin([b], Genesis(b, n))
  {
    hide CoinsOf, HasOrigin;
    if n > 0 {
      GenesisHasOrigin(b, n - 1);
      OutputsHaveOrigin([b], n - 1);
    }
  }

  /** Every coin of a chain is an output of one of its blocks, with that block's height and kind on record. */
  lemma {:induction false} CoinsHaveOrigin(blocks: seq<Block>, interval: nat)
    requires interval > 0 && CoinsAt(blocks, interval).Some?
    ensures AllHaveOrigin(blocks, CoinsAt(blocks, interval).value)
    decreases |blocks|
  {
    hide AllHaveOrigin, Apply, ClaimsAllowed, Genesis;
    if |blocks| == 1 {
      GenesisHasOrigin(blocks[0], |blocks[0]|);
      assert blocks == [blocks[0]];
    } else {
      var last := |blocks| - 1;
      CoinsHaveOrigin(blocks[..last], interval);
      ApplyHasOrigin(blocks[..last], CoinsAt(blocks[..last], interval).value, blocks[last], |blocks[last]|);
      assert blocks[..last] + [blocks[last]] == blocks;
    }
  }

  // ---- Ages ----

  /** The coins before transaction `i` of an acceptable block, and that it passed the screening. */
  lemma {:induction false} ScreenedAt(coins: CoinSet, b: Block, i: nat, n: nat, height: nat, rules: CoinRules)
    requires 0 < i < n <= |b| && Apply(coins, b, n, height).Some? && ScreenedTo(coins, b, n, height, rules)
    ensures Apply(coins, b, i, height).Some? && Pays(Apply(coins, b, i, height).value.coins, b[i])
    ensures Screened(Apply(coins, b, i, height).value.coins, b[i], height, rules)
    decreases n
  {
    hide Pays, Screened, Spend, Create, Fee;
    ApplyStep(coins, b, n - 1, height);
    if i < n - 1 {
      ScreenedAt(coins, b, i, n - 1, height, rules);
    }
  }

  lemma {:induction false} AcceptableParts(coins: CoinSet, b: Block, height: nat, rules: CoinRules)
    requires rules.interval > 0 && Acceptable(coins, b, height, rules)
    ensures Apply(coins, b, |b|, height).Some? && ScreenedTo(coins, b, |b|, height, rules)
  {
    hide Apply, ScreenedTo, SaneBlock;
  }

  /** Input `k` of `tx` spends the output of some transaction of the chain or of the block itself. */
  ghost predicate SpendsOldEnough(blocks: seq<Block>, b: Block, tx: Transaction, k: nat, rules: CoinRules)
    requires k < |tx.inputs|
  {
    exists g: nat, j: nat, coin ::
      && MadeIn(blocks + [b], g, j, tx.inputs[k], coin)
      && (IsCoinbase((blocks + [b])[g][j]) ==> |blocks| >= g + rules.maturity)
      && rules.signed(tx, k, coin)
  }

  /**
   * In a block acceptable on a chain every input after the coinbase spends an output made on the chain
   * or in the block, its witness is accepted for that output, and if a coinbase made it, `maturity`
   * blocks have been added since.
   */
  lemma {:induction false} CoinbaseMaturity(blocks: seq<Block>, b: Block, rules: CoinRules, i: nat, k: nat)
    requires rules.interval > 0 && CoinsAt(blocks, rules.interval).Some?
    requires Acceptable(CoinsAt(blocks, rules.interval).value, b, |blocks|, rules)
    requires 0 < i < |b| && k < |b[i].inputs|
    ensures SpendsOldEnough(blocks, b, b[i], k, rules)
  {
    hide CoinsAt, Acceptable, Apply, ScreenedTo, MadeIn;
    var coins := CoinsAt(blocks, rules.interval).value;
    AcceptableParts(coins, b, |blocks|, rules);
    ScreenedAt(coins, b, i, |b|, |blocks|, rules);
    CoinsHaveOrigin(blocks, rules.interval);
    ApplyHasOrigin(blocks, coins, b, i);
    var before := Apply(coins, b, i, |blocks|).value.coins;
    var op := b[i].inputs[k];
    assert op in before;
    assert Passes(before[op], b[i], k, |blocks|, rules);
    var g: nat, j: nat :| MadeIn(blocks + [b], g, j, op, before[op]);
    OriginMeaning(blocks + [b], g, j, op, before[op]);
  }

  lemma {:induction false} OriginMeaning(blocks: seq<Block>, g: nat, j: nat, op: Outpoint, coin: Coin)
    requires MadeIn(blocks, g, j, op, coin)
    ensures g < |blocks| && j < |blocks[g]| && coin.height == g && coin.coinbase == IsCoinbase(blocks[g][j])
  {
  }

  /** The other way: inputs that are old enough and rightly signed are never refused for it. */
  lemma {:induction false} OldEnoughPasses(blocks: seq<Block>, g: nat, j: nat, tx: Transaction, k: nat, coin: Coin, rules: CoinRules)
    requires k < |tx.inputs| && MadeIn(blocks, g, j, tx.inputs[k], coin)
    requires IsCoinbase(blocks[g][j]) ==> |blocks| >= g + rules.maturity
    requires rules.signed(tx, k, coin)
    ensures Passes(coin, tx, k, |blocks|, rules)
  {
  }
}
