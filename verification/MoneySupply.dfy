/**
 * The money supply over all chains: the value of the coins never exceeds the subsidies paid so far
 * (Sources/Consensus/BlockValidator.swift, lines 167 to 191; Sources/Chain/CoinView.swift, lines
 * 134 to 162; Sources/Consensus/BlockReward.swift).
 */
module MoneySupply {
  import opened BlockReward
  import opened Coins
  import opened CoinValue
  import opened CoinDatabase
  import opened UtxoChain
  import opened UtxoRuns
  import opened UtxoReorgs
  import opened CoinRuns

  // ---- Blocks ----

  /** An accepted block adds at most its subsidy. */
  lemma {:induction false} BlockAddsSubsidy(coins: CoinSet, b: Block, height: nat, interval: nat)
    requires interval > 0 && SaneBlock(b) && NewIds(coins, b) && ApplyBlock(coins, b, height, interval).Some?
    ensures Value(ApplyBlock(coins, b, height, interval).value.coins) <= Value(coins) + GetReward(height, interval)
  {
    hide Value, GetReward, NewIds, Apply, OutputTotal;
    BlockValue(coins, b, |b|, height);
  }

  function GenesisTotal(b: Block, n: nat): nat
    requires n <= |b|
  {
    if n == 0 then 0 else GenesisTotal(b, n - 1) + OutputTotal(b[n - 1].outputs, |b[n - 1].outputs|)
  }

  lemma {:induction false} GenesisValue(b: Block, n: nat)
    requires n <= |b|
    ensures Value(Genesis(b, n)) <= GenesisTotal(b, n)
  {
    hide Value, OutputTotal, CoinsOf;
    if n == 0 {
      CountNothing();
    } else {
      GenesisValue(b, n - 1);
      CreatedValue(Genesis(b, n - 1), b[n - 1], 0);
    }
  }

  /** The coins of any valid chain are worth at most the subsidies of its blocks. */
  lemma {:induction false} SupplyBound(blocks: seq<Block>, interval: nat)
    requires ValidChain(blocks, interval) && GenesisTotal(blocks[0], |blocks[0]|) <= GetReward(0, interval)
    ensures Value(CoinsAt(blocks, interval).value) <= SumOfRewards(|blocks|, interval)
    decreases |blocks|
  {
    var h := |blocks| - 1;
    assert SumOfRewards(h + 1, interval) == SumOfRewards(h, interval) + GetReward(h, interval);
    if h == 0 {
      GenesisValue(blocks[0], |blocks[0]|);
    } else {
      FrontSupply(blocks, interval);
      SupplyBound(blocks[..h], interval);
      hide Value, GetReward, CoinsAt, FreshIds, ApplyBlock, NewIds, SaneBlock;
      BlockAddsSubsidy(CoinsAt(blocks[..h], interval).value, blocks[h], h, interval);
    }
  }

  lemma {:induction false} FrontSupply(blocks: seq<Block>, interval: nat)
    requires ValidChain(blocks, interval) && |blocks| > 1
    ensures var h := |blocks| - 1;
      && ValidChain(blocks[..h], interval) && blocks[..h][0] == blocks[0]
      && SaneBlock(blocks[h]) && CoinsAt(blocks[..h], interval).Some? && NewIds(CoinsAt(blocks[..h], interval).value, blocks[h])
      && ApplyBlock(CoinsAt(blocks[..h], interval).value, blocks[h], h, interval).Some?
      && CoinsAt(blocks, interval).value == ApplyBlock(CoinsAt(blocks[..h], interval).value, blocks[h], h, interval).value.coins
  {
    hide CoinsAt, FreshIds, ApplyBlock, NewIds, SaneBlock;
    var h := |blocks| - 1;
    FrontValid(blocks, interval);
    Facts(blocks, h, interval);
    BlockOf(blocks, h, interval);
    assert blocks[..h + 1] == blocks;
  }

  /** With the main network's schedule the coins of a valid chain are worth at most the maximum supply. */
  lemma {:induction false} SupplyNeverExceedsMaximum(blocks: seq<Block>)
    requires ValidChain(blocks, HALVING_INTERVAL) && GenesisTotal(blocks[0], |blocks[0]|) <= GetReward(0, HALVING_INTERVAL)
    ensures Value(CoinsAt(blocks, HALVING_INTERVAL).value) <= MAX_MONEY
  {
    hide Value, CoinsAt, ValidChain;
    SupplyBound(blocks, HALVING_INTERVAL);
    SupplyCap(|blocks|);
  }

  // ---- Runs ----

  /** The worth of what undone blocks have left behind on the first `n` levels. */
  ghost function StrayWorth(levels: seq<Level>, n: nat): int
    requires n <= |levels|
  {
    if n == 0 then 0 else StrayWorth(levels, n - 1) + Value(levels[n - 1].strays)
  }

  /** What is stored is worth at most the subsidies of its blocks and what undone blocks left behind. */
  lemma {:induction false} LevelSupply(levels: seq<Level>, h: nat, interval: nat)
    requires Sound(levels, interval) && h < |levels|
    requires GenesisTotal(levels[0].block, |levels[0].block|) <= GetReward(0, interval)
    ensures interval > 0
    ensures Value(Top(levels[h], h, interval)) <= SumOfRewards(h + 1, interval) + StrayWorth(levels, h + 1)
  {
    hide *;
    SoundNotEmpty(levels, interval);
    ApartAt(levels, h, interval);
    RewardsNext(h, interval);
    StraysNext(levels, h);
    TopValue(levels[h], h, interval);
    if h == 0 {
      GenesisValue(levels[0].block, |levels[0].block|);
    } else {
      JoinedFacts(levels, h, interval);
      LevelSupply(levels, h - 1, interval);
      AppliedIs(levels[h], h, interval);
      BlockAddsSubsidy(levels[h].before, levels[h].block, h, interval);
    }
  }

  lemma {:induction false} RewardsNext(h: nat, interval: nat)
    requires interval > 0
    ensures SumOfRewards(h + 1, interval) == SumOfRewards(h, interval) + GetReward(h, interval)
    ensures h == 0 ==> SumOfRewards(0, interval) == 0
  {
    hide GetReward;
  }

  lemma {:induction false} StraysNext(levels: seq<Level>, h: nat)
    requires h < |levels|
    ensures StrayWorth(levels, h + 1) == StrayWorth(levels, h) + Value(levels[h].strays)
    ensures h == 0 ==> StrayWorth(levels, 0) == 0
  {
    hide Value;
  }

  lemma {:induction false} TopValue(l: Level, h: nat, interval: nat)
    requires interval > 0 && Apart(l, h, interval)
    ensures Value(Top(l, h, interval)) == Value(Folded(l, h, interval)) + Value(l.strays)
  {
    hide Value, Folded;
    ValueUnion(Folded(l, h, interval), l.strays);
  }

  lemma {:induction false} AppliedIs(l: Level, h: nat, interval: nat)
    requires interval > 0 && h > 0 && l.block != [] && ApplyBlock(l.before, l.block, h, interval).Some?
    ensures Folded(l, h, interval) == ApplyBlock(l.before, l.block, h, interval).value.coins
  {
    hide ApplyBlock;
  }

  lemma {:induction false} NoStrayWorth(levels: seq<Level>, n: nat)
    requires n <= |levels| && NoStrays(levels)
    ensures StrayWorth(levels, n) == 0
  {
    hide Value;
    CountNothing();
    if n > 0 {
      NoStrayWorth(levels, n - 1);
    }
  }

  /**
   * After any run the value counter is at most the subsidies of the chain and what undone blocks have
   * left behind; after a fair run, at most the subsidies.
   */
  lemma {:induction false} CounterBound(db: CoinDatabase, genesis: Block, events: seq<Event>, rules: CoinRules, end: Held)
    requires rules.interval > 0 && RunsTo(Start(genesis, rules.interval), events, rules, end)
    requires Carries(db, end, rules.interval)
    requires GenesisTotal(genesis, |genesis|) <= GetReward(0, rules.interval)
    ensures db.value <= SumOfRewards(|end.levels|, rules.interval) + StrayWorth(end.levels, |end.levels|)
    ensures Fair(Start(genesis, rules.interval), events, rules) ==> db.value <= SumOfRewards(|end.levels|, rules.interval)
  {
    StartSound(genesis, rules.interval);
    hide Sound, RunsTo, Fair, Start, GetReward, SumOfRewards, StrayWorth, Value, Top, GenesisTotal;
    RunSound(Start(genesis, rules.interval), events, rules, end);
    LevelSupply(end.levels, |end.levels| - 1, rules.interval);
    if NoStrays(end.levels) {
      NoStrayWorth(end.levels, |end.levels|);
    }
  }
}
