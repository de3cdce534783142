/**
 * What the coin set of a chain is: one simple fold over its blocks. Everything the node does with
 * views, flags, undo records and counters is proved to agree with this fold.
 *
 * The acceptance conditions are those of Sources/Consensus/BlockValidator.swift and of the UTXO
 * part of Sources/Chain/ChainValidation.swift (lines 159 to 207).
 */
module Coins {
  import opened Base
  import opened Sums
  import opened BlockReward
  import opened Covenants

  const INT64_MAX := 0x7FFF_FFFF_FFFF_FFFF

  /** A coin as it is stored, without the flags of a view. */
  datatype Coin = Coin(version: nat, height: nat, coinbase: bool, output: Output)

  type CoinSet = map<Outpoint, Coin>

  type Block = seq<Transaction>

  predicate IsCoinbase(tx: Transaction) {
    tx.inputs != [] && tx.inputs[0] == NULL_OUTPOINT
  }

  // ---- Totals ----

  /** The value of the first `n` inputs; null inputs carry none. */
  function InputTotal(coins: CoinSet, inputs: seq<Outpoint>, n: nat): nat
    requires n <= |inputs| && forall k :: 0 <= k < n ==> inputs[k] in coins
  {
    if n == 0 then 0
    else InputTotal(coins, inputs, n - 1) + if inputs[n - 1] == NULL_OUTPOINT then 0 else coins[inputs[n - 1]].output.value
  }

  function OutputTotal(outputs: seq<Output>, n: nat): nat
    requires n <= |outputs|
  {
    if n == 0 then 0 else OutputTotal(outputs, n - 1) + outputs[n - 1].value
  }

  // ---- Checks that need no context ----

  predicate DistinctInputs(inputs: seq<Outpoint>) {
    forall i, j :: 0 <= i < j < |inputs| ==> inputs[i] != inputs[j]
  }

  /** Inputs and outputs present, no input twice, values within the supply. */
  predicate SaneTransaction(tx: Transaction) {
    && tx.inputs != [] && tx.outputs != []
    && (IsCoinbase(tx) || DistinctInputs(tx.inputs))
    && (forall i :: 0 <= i < |tx.outputs| ==> tx.outputs[i].value <= MAX_MONEY)
    && OutputTotal(tx.outputs, |tx.outputs|) <= MAX_MONEY
  }

  lemma {:induction false} TotalGrows(outputs: seq<Output>, n: nat)
    requires n <= |outputs|
    ensures OutputTotal(outputs, n) <= OutputTotal(outputs, |outputs|)
    decreases |outputs| - n
  {
    if n < |outputs| {
      TotalGrows(outputs, n + 1);
    }
  }

  predicate DistinctIds(b: Block) {
    forall i, j :: 0 <= i < j < |b| ==> b[i].hash != b[j].hash
  }

  /** A coinbase first and only first, all ids different, every transaction sane. */
  predicate SaneBlock(b: Block) {
    && b != [] && IsCoinbase(b[0])
    && (forall i :: 1 <= i < |b| ==> !IsCoinbase(b[i]))
    && DistinctIds(b)
    && (forall i :: 0 <= i < |b| ==> SaneTransaction(b[i]))
  }

  // ---- The fold ----

  /** The outpoints a transaction creates. */
  function Made(tx: Transaction): set<Outpoint> {
    set i | 0 <= i < |tx.outputs| :: Outpoint(tx.hash, i)
  }

  function CoinOf(tx: Transaction, height: nat, i: nat): Coin
    requires i < |tx.outputs|
  {
    Coin(tx.version, height, IsCoinbase(tx), tx.outputs[i])
  }

  function CoinsOf(tx: Transaction, height: nat): CoinSet {
    map op | op in Made(tx) :: CoinOf(tx, height, op.index)
  }

  function SpentBy(tx: Transaction): set<Outpoint> {
    set k | 0 <= k < |tx.inputs| :: tx.inputs[k]
  }

  /** The coins spent by the first `n` inputs, in order. */
  function Taken(coins: CoinSet, inputs: seq<Outpoint>, n: nat): (t: seq<Coin>)
    requires n <= |inputs| && forall k :: 0 <= k < n ==> inputs[k] in coins
    ensures |t| == n
    ensures forall k :: 0 <= k < n ==> t[k] == coins[inputs[k]]
  {
    if n == 0 then [] else Taken(coins, inputs, n - 1) + [coins[inputs[n - 1]]]
  }

  /** Coins, fees collected and coins spent, part of the way through a block. */
  datatype Ledger = Ledger(coins: CoinSet, fees: nat, undo: seq<Coin>)

  predicate Pays(coins: CoinSet, tx: Transaction) {
    && (forall k :: 0 <= k < |tx.inputs| ==> tx.inputs[k] in coins)
    && OutputTotal(tx.outputs, |tx.outputs|) <= InputTotal(coins, tx.inputs, |tx.inputs|) <= INT64_MAX
  }

  function Fee(coins: CoinSet, tx: Transaction): nat
    requires Pays(coins, tx)
  {
    InputTotal(coins, tx.inputs, |tx.inputs|) - OutputTotal(tx.outputs, |tx.outputs|)
  }

  function Spend(l: Ledger, tx: Transaction): Ledger
    requires Pays(l.coins, tx)
  {
    Ledger(l.coins - SpentBy(tx), l.fees + Fee(l.coins, tx), l.undo + Taken(l.coins, tx.inputs, |tx.inputs|))
  }

  function Create(l: Ledger, tx: Transaction, height: nat): Ledger {
    l.(coins := l.coins + CoinsOf(tx, height))
  }

  /** The first `n` transactions of a block; the coinbase spends nothing. */
  function Apply(coins: CoinSet, b: Block, n: nat, height: nat): Option<Ledger>
    requires n <= |b|
  {
    if n == 0 then Some(Ledger(coins, 0, []))
    else
      match Apply(coins, b, n - 1, height)
      case None => None
      case Some(l) =>
        if n == 1 then Some(Create(l, b[0], height))
        else if !Pays(l.coins, b[n - 1]) || l.fees + Fee(l.coins, b[n - 1]) > INT64_MAX then None
        else Some(Create(Spend(l, b[n - 1]), b[n - 1], height))
  }

  /** The coinbase may claim the subsidy and the fees. */
  predicate ClaimsAllowed(b: Block, height: nat, fees: nat, interval: nat)
    requires b != [] && interval > 0
  {
    && GetReward(height, interval) + fees <= INT64_MAX
    && OutputTotal(b[0].outputs, |b[0].outputs|) <= GetReward(height, interval) + fees
  }

  /** The coins after an accepted block, with the record for undoing it. */
  function ApplyBlock(coins: CoinSet, b: Block, height: nat, interval: nat): Option<Ledger>
    requires b != [] && interval > 0
  {
    match Apply(coins, b, |b|, height)
    case None => None
    case Some(l) => if ClaimsAllowed(b, height, l.fees, interval) then Some(l) else None
  }

  lemma {:induction false} FailureSticks(coins: CoinSet, b: Block, i: nat, n: nat, height: nat)
    requires i <= n <= |b| && Apply(coins, b, i, height) == None
    ensures Apply(coins, b, n, height) == None
  {
    if i < n {
      FailureSticks(coins, b, i, n - 1, height);
    }
  }

  lemma {:induction false} ApplyNone(coins: CoinSet, b: Block, height: nat)
    ensures Apply(coins, b, 0, height) == Some(Ledger(coins, 0, []))
  {
  }

  lemma {:induction false} ApplyStep(before: CoinSet, b: Block, i: nat, height: nat)
    requires i < |b| && Apply(before, b, i + 1, height).Some?
    ensures Apply(before, b, i, height).Some?
    ensures i == 0 ==> Apply(before, b, 1, height).value == Create(Ledger(before, 0, []), b[0], height)
    ensures var l := Apply(before, b, i, height).value;
      i > 0 ==> Pays(l.coins, b[i]) && Apply(before, b, i + 1, height).value == Create(Spend(l, b[i]), b[i], height)
  {
  }

  /** The genesis block only creates. */
  function Genesis(b: Block, n: nat): CoinSet
    requires n <= |b|
  {
    if n == 0 then map[] else Genesis(b, n - 1) + CoinsOf(b[n - 1], 0)
  }

  /** The coins of a whole chain, or nothing if one of its blocks is not acceptable. */
  function CoinsAt(blocks: seq<Block>, interval: nat): Option<CoinSet>
    requires interval > 0
  {
    if blocks == [] then None
    else if |blocks| == 1 then Some(Genesis(blocks[0], |blocks[0]|))
    else
      var last := |blocks| - 1;
      match CoinsAt(blocks[..last], interval)
      case None => None
      case Some(coins) =>
        if blocks[last] == [] || ApplyBlock(coins, blocks[last], last, interval) == None then None
        else Some(ApplyBlock(coins, blocks[last], last, interval).value.coins)
  }

  // ---- Fresh ids ----

  /** Transaction ids do not recur: no coin of the set has the id of one of the block's transactions. */
  ghost predicate NewIds(coins: CoinSet, b: Block) {
    && NULL_OUTPOINT !in coins
    && (forall i :: 0 <= i < |b| ==> NewId(coins, b[i]))
  }

  /** No id is all zeros, as the null outpoint's is. */
  ghost predicate RealIds(coins: CoinSet, b: Block) {
    NULL_OUTPOINT !in coins && forall i :: 0 <= i < |b| ==> b[i].hash != ZERO_HASH
  }

  lemma {:induction false} NewIsReal(coins: CoinSet, b: Block)
    requires NewIds(coins, b)
    ensures RealIds(coins, b)
  {
    forall i | 0 <= i < |b|
      ensures b[i].hash != ZERO_HASH
    {
      assert NewId(coins, b[i]);
    }
  }

  ghost predicate NewId(coins: CoinSet, tx: Transaction) {
    tx.hash != ZERO_HASH && forall op :: op in coins ==> op.hash != tx.hash
  }

  /** A transaction later in the block is still new after the first `n`. */
  lemma {:induction false} StillNew(coins: CoinSet, b: Block, n: nat, height: nat)
    requires n <= |b| && NewIds(coins, b) && DistinctIds(b) && Apply(coins, b, n, height).Some?
    ensures NULL_OUTPOINT !in Apply(coins, b, n, height).value.coins
    ensures forall j :: n <= j < |b| ==> NewId(Apply(coins, b, n, height).value.coins, b[j])
  {
    hide Apply, Pays, Fee, NewId, CoinsOf, SpentBy, Taken, DistinctIds;
    ApplyNone(coins, b, height);
    if n > 0 {
      ApplyStep(coins, b, n - 1, height);
      StillNew(coins, b, n - 1, height);
      var l := Apply(coins, b, n - 1, height).value;
      var left := if n == 1 then l.coins else l.coins - SpentBy(b[n - 1]);
      LaterStillNew(l.coins, left, b, n - 1, height);
      NullStillOut(left, b[n - 1], height);
    }
  }

  lemma {:induction false} NullStillOut(coins: CoinSet, tx: Transaction, height: nat)
    requires NULL_OUTPOINT !in coins && tx.hash != ZERO_HASH
    ensures NULL_OUTPOINT !in coins + CoinsOf(tx, height)
  {
  }

  lemma {:induction false} LaterStillNew(coins: CoinSet, left: CoinSet, b: Block, i: nat, height: nat)
    requires i < |b| && DistinctIds(b) && forall op :: op in left ==> op in coins
    requires forall j :: i <= j < |b| ==> NewId(coins, b[j])
    ensures forall j :: i < j < |b| ==> NewId(left + CoinsOf(b[i], height), b[j])
    ensures b[i].hash != ZERO_HASH
  {
    assert NewId(coins, b[i]);
    forall j | i < j < |b|
      ensures NewId(left + CoinsOf(b[i], height), b[j])
    {
      NewAfter(coins, left, b[i], height, b[j]);
    }
  }

  lemma {:induction false} NewAfter(coins: CoinSet, left: CoinSet, made: Transaction, height: nat, tx: Transaction)
    requires NewId(coins, tx) && made.hash != tx.hash && forall op :: op in left ==> op in coins
    ensures NewId(left + CoinsOf(made, height), tx)
  {
  }

  // ---- Value ----

  function Values(coins: CoinSet): map<Outpoint, int> {
    map op | op in coins :: coins[op].output.value
  }

  /** The total value of a coin set. */
  ghost function Value(coins: CoinSet): int {
    Sum(Values(coins))
  }

  lemma {:induction false} ValueAdd(coins: CoinSet, op: Outpoint, coin: Coin)
    requires op !in coins
    ensures Value(coins[op := coin]) == Value(coins) + coin.output.value
  {
    hide Sum;
    SumUpdate(Values(coins), op, coin.output.value);
    assert Values(coins[op := coin]) == Values(coins)[op := coin.output.value];
  }

  lemma {:induction false} ValueRemove(coins: CoinSet, op: Outpoint)
    requires op in coins
    ensures Value(coins) == Value(coins - {op}) + coins[op].output.value
  {
    hide Sum;
    SumRemove(Values(coins), op);
    assert Values(coins - {op}) == Values(coins) - {op};
  }

  lemma {:induction false} CountNothing()
    ensures Value(map[]) == 0
  {
    assert Values(map[]) == map[];
  }

  lemma {:induction false} ValueOver(coins: CoinSet, op: Outpoint, coin: Coin)
    requires op in coins
    ensures |coins[op := coin]| == |coins|
    ensures Value(coins[op := coin]) == Value(coins) - coins[op].output.value + coin.output.value
  {
    hide Value;
    ValueRemove(coins, op);
    CountRemove(coins, op);
    ValueAdd(coins - {op}, op, coin);
    assert (coins - {op})[op := coin] == coins[op := coin];
  }

  lemma {:induction false} CountRemove(coins: CoinSet, op: Outpoint)
    requires op in coins
    ensures |coins - {op}| == |coins| - 1
  {
    assert (coins - {op})[op := coins[op]] == coins;
  }

  lemma {:induction false} ValueNonNegative(coins: CoinSet)
    ensures Value(coins) >= 0
    decreases |coins|
  {
    if |coins| > 0 {
      var op :| op in coins;
      CountRemove(coins, op);
      ValueNonNegative(coins - {op});
      ValueRemove(coins, op);
    } else {
      assert Values(coins) == map[];
    }
  }
}
