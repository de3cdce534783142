/**
 * The subsidy schedule (Sources/Consensus/BlockReward.swift) and the supply it adds up to.
 */
module BlockReward {
  import opened Arith
  import opened Base
  import opened Bits

  const COIN_VALUE := 1_000_000
  const MAX_MONEY := 1_051_200_000 * COIN_VALUE
  const BASE_REWARD := 500 * COIN_VALUE
  const HALVING_INTERVAL := 1_051_200
  const MAX_HALVINGS := 52

  function GetReward(height: nat, interval: nat): nat
    requires interval > 0
  {
    var halvings := height / interval;
    if halvings >= MAX_HALVINGS then 0 else ShiftRight(BASE_REWARD, halvings)
  }

  /** The subsidy halves, rounded down, with every interval, and ends after the 52nd. */
  lemma {:induction false} RewardLaw(era: nat, height: nat, interval: nat)
    requires interval > 0 && era * interval <= height < era * interval + interval
    ensures era < MAX_HALVINGS ==>
      GetReward(height, interval) * Pow2(era) <= BASE_REWARD < (GetReward(height, interval) + 1) * Pow2(era)
    ensures era >= MAX_HALVINGS ==> GetReward(height, interval) == 0
  {
    hide ShiftRight, Pow2;
    DivUnique(height, interval, era);
    ShiftBounds(BASE_REWARD, era);
    var reward := ShiftRight(BASE_REWARD, era);
    assert (reward + 1) * Pow2(era) == reward * Pow2(era) + Pow2(era);
  }

  /** The reference: add up the subsidy of every block below `height`. */
  function SumOfRewards(height: nat, interval: nat): nat
    requires interval > 0
  {
    if height == 0 then 0 else SumOfRewards(height - 1, interval) + GetReward(height - 1, interval)
  }

  /** The subsidy of the given era; nothing from the 52nd on. */
  function EraReward(era: nat): nat {
    if era < MAX_HALVINGS then ShiftRight(BASE_REWARD, era) else 0
  }

  lemma {:induction false} SumOfConstant(from: nat, to: nat, interval: nat, reward: nat)
    requires interval > 0 && from <= to
    requires forall h :: from <= h < to ==> GetReward(h, interval) == reward
    ensures SumOfRewards(to, interval) == SumOfRewards(from, interval) + (to - from) * reward
  {
    if from < to {
      SumOfConstant(from, to - 1, interval, reward);
      assert GetReward(to - 1, interval) == reward;
      assert (to - from) * reward == (to - 1 - from) * reward + reward;
    }
  }

  lemma {:induction false} SumWithinEra(from: nat, to: nat, interval: nat, era: nat)
    requires interval > 0 && era * interval <= from <= to <= era * interval + interval
    ensures SumOfRewards(to, interval) == SumOfRewards(from, interval) + (to - from) * EraReward(era)
  {
    forall h | from <= h < to
      ensures GetReward(h, interval) == EraReward(era)
    {
      DivUnique(h, interval, era);
    }
    SumOfConstant(from, to, interval, EraReward(era));
  }

  lemma {:induction false} NoRewardLate(height: nat, interval: nat)
    requires interval > 0 && MAX_HALVINGS * interval <= height
    ensures GetReward(height, interval) == 0
  {
    hide ShiftRight;
    DivMonotone(MAX_HALVINGS * interval, height, interval);
    DivUnique(MAX_HALVINGS * interval, interval, MAX_HALVINGS);
  }

  lemma {:induction false} NothingAfterLastEra(from: nat, to: nat, interval: nat)
    requires interval > 0 && MAX_HALVINGS * interval <= from <= to
    ensures SumOfRewards(to, interval) == SumOfRewards(from, interval)
  {
    hide *;
    forall h | from <= h < to
      ensures GetReward(h, interval) == 0
    {
      NoRewardLate(h, interval);
    }
    SumOfConstant(from, to, interval, 0);
  }

  lemma {:induction false} EraStep(h: nat, height: nat, interval: nat, halving: nat)
    requires interval > 0 && halving < MAX_HALVINGS && h < height && h == Min(height, halving * interval)
    ensures (halving + 1) * interval > h
    ensures var next := Min(height, (halving + 1) * interval);
      SumOfRewards(next, interval)
        == SumOfRewards(h, interval) + ShiftRight(BASE_REWARD, halving) * (next - h)
  {
    var start := halving * interval;
    assert (halving + 1) * interval == start + interval;
    var next := Min(height, start + interval);
    SumWithinEra(h, next, interval, halving);
    var reward, blocks := EraReward(halving), next - h;
    assert reward * blocks == blocks * reward;
  }

  /** The era-by-era loop computes exactly the block-by-block sum. */
  method TotalMined(height: nat, interval: nat) returns (total: nat)
    requires interval > 0
    ensures total == SumOfRewards(height, interval)
  {
    total := 0;
    var h, halving := 0, 0;
    while h < height && halving < MAX_HALVINGS
      invariant 0 <= h <= height && 0 <= halving <= MAX_HALVINGS
      invariant h == Min(height, halving * interval)
      invariant total == SumOfRewards(h, interval)
      decreases MAX_HALVINGS - halving
    {
      EraStep(h, height, interval, halving);
      var reward := ShiftRight(BASE_REWARD, halving);
      var nextHalving := (halving + 1) * interval;
      var blocksInEra := Min(height, nextHalving) - h;
      total := total + reward * blocksInEra;
      h := h + blocksInEra;
      halving := halving + 1;
    }
    if h < height {
      NothingAfterLastEra(h, height, interval);
    }
  }

  lemma {:induction false} ShiftBound(era: nat)
    ensures ShiftRight(BASE_REWARD, era + 1) * 2 <= ShiftRight(BASE_REWARD, era)
  {
  }

  lemma {:induction false} SumOfWholeEra(start: nat, era: nat)
    requires start == era * HALVING_INTERVAL && era < MAX_HALVINGS
    ensures SumOfRewards(start + HALVING_INTERVAL, HALVING_INTERVAL)
         == SumOfRewards(start, HALVING_INTERVAL) + HALVING_INTERVAL * ShiftRight(BASE_REWARD, era)
  {
    SumWithinEra(start, start + HALVING_INTERVAL, HALVING_INTERVAL, era);
  }

  lemma {:induction false} SupplyBelowEra(era: nat)
    requires era <= MAX_HALVINGS
    ensures SumOfRewards(era * HALVING_INTERVAL, HALVING_INTERVAL)
         <= HALVING_INTERVAL * (2 * BASE_REWARD - 2 * ShiftRight(BASE_REWARD, era))
  {
    if era > 0 {
      SupplyBelowEra(era - 1);
      ShiftBound(era - 1);
      SumOfWholeEra((era - 1) * HALVING_INTERVAL, era - 1);
    }
  }

  lemma {:induction false} SumMonotone(a: nat, b: nat, interval: nat)
    requires interval > 0 && a <= b
    ensures SumOfRewards(a, interval) <= SumOfRewards(b, interval)
  {
    if a < b {
      SumMonotone(a, b - 1, interval);
    }
  }

  /** No height ever mines more than the declared maximum supply. */
  lemma {:induction false} SupplyCap(height: nat)
    ensures SumOfRewards(height, HALVING_INTERVAL) <= MAX_MONEY
  {
    var last := MAX_HALVINGS * HALVING_INTERVAL;
    SupplyBelowEra(MAX_HALVINGS);
    if height <= last {
      SumMonotone(height, last, HALVING_INTERVAL);
    } else {
      NothingAfterLastEra(last, height, HALVING_INTERVAL);
    }
  }
}
