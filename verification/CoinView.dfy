/**
 * The in-memory view of the coins one block touches (Sources/Chain/CoinView.swift), and what it
 * says about the coin set underneath.
 */
module CoinView {
  import opened Base
  import opened Covenants
  import opened Coins

  const UINT64_LIMIT := 0x1_0000_0000_0000_0000

  /** `created` marks a coin created in this block, `spent` one consumed in it. */
  datatype CoinEntry = CoinEntry(coin: Coin, spent: bool, created: bool)

  type Entries = map<Outpoint, CoinEntry>

  /** The coins left when a view is laid over a stored set. */
  function Overlay(coins: CoinSet, entries: Entries): CoinSet {
    map op | op in coins.Keys + entries.Keys && (op in entries ==> !entries[op].spent) ::
      if op in entries then entries[op].coin else coins[op]
  }

  /** All but the coins created in the block were loaded from the store. */
  predicate Backed(coins: CoinSet, entries: Entries) {
    forall op :: op in entries && !entries[op].created ==> op in coins && entries[op].coin == coins[op]
  }

  function CreatedIn(entries: Entries): set<Outpoint> {
    set op | op in entries && entries[op].created
  }

  /** Loaded coins have been spent, except possibly those in `due`. */
  predicate LoadedSpent(entries: Entries, due: set<Outpoint>) {
    forall op :: op in entries && !entries[op].created && op !in due ==> entries[op].spent
  }

  /** A view with the outputs of a transaction put over what was there. */
  ghost predicate Added(was: Entries, now: Entries, tx: Transaction, height: nat) {
    && (forall op :: op in now <==> op in was || op in Made(tx))
    && (forall op :: op in Made(tx) ==> now[op] == CoinEntry(CoinOf(tx, height, op.index), false, true))
    && forall op :: op in was && op !in Made(tx) ==> now[op] == was[op]
  }

  /** What is stored of an undo stack: the coins without their flags. */
  function Stored(undo: seq<CoinEntry>): (s: seq<Coin>)
    ensures |s| == |undo|
    ensures forall k :: 0 <= k < |s| ==> s[k] == undo[k].coin
  {
    if undo == [] then [] else Stored(undo[..|undo| - 1]) + [undo[|undo| - 1].coin]
  }

  class CoinView {
    var entries: Entries
    var undo: seq<CoinEntry>

    constructor ()
      ensures entries == map[] && undo == []
    {
      entries, undo := map[], [];
    }

    /** The entry of a coin, spent or not. */
    function GetEntry(op: Outpoint): Option<CoinEntry>
      reads this
    {
      if op in entries then Some(entries[op]) else None
    }

    method AddEntry(op: Outpoint, entry: CoinEntry)
      modifies `entries
      ensures entries == old(entries)[op := entry]
    {
      entries := entries[op := entry];
    }

    /** Adding a transaction's outputs puts exactly its coins on top of what was there. */
    method AddTransaction(tx: Transaction, height: nat)
      modifies `entries
      ensures Added(old(entries), entries, tx, height)
    {
      var i := 0;
      while i < |tx.outputs|
        invariant 0 <= i <= |tx.outputs|
        invariant forall op :: op in entries <==> op in old(entries) || (op in Made(tx) && op.index < i)
        invariant forall op :: op in Made(tx) && op.index < i ==>
          op in entries && entries[op] == CoinEntry(CoinOf(tx, height, op.index), false, true)
        invariant forall op :: op in old(entries) && !(op in Made(tx) && op.index < i) ==> entries[op] == old(entries)[op]
      {
        entries := entries[Outpoint(tx.hash, i) := CoinEntry(CoinOf(tx, height, i), false, true)];
        i := i + 1;
      }
    }

    /** Marks an unspent coin spent and pushes it; a missing or spent coin changes nothing. */
    method SpendEntry(op: Outpoint) returns (spent: Option<CoinEntry>)
      modifies this
      ensures spent.Some? <==> op in old(entries) && !old(entries)[op].spent
      ensures spent.Some? ==>
        && spent.value == old(entries)[op]
        && entries == old(entries)[op := old(entries)[op].(spent := true)]
        && undo == old(undo) + [old(entries)[op]]
      ensures spent.None? ==> entries == old(entries) && undo == old(undo)
    {
      if op !in entries || entries[op].spent {
        return None;
      }
      var original := entries[op];
      entries := entries[op := original.(spent := true)];
      undo := undo + [original];
      return Some(original);
    }

    /** The value of a transaction's inputs, if all are unspent here and the sum fits 64 bits. */
    method GetInputValue(tx: Transaction) returns (total: Option<nat>)
      ensures total.Some? <==> Readable(entries, tx.inputs, |tx.inputs|) && InputSum(entries, tx.inputs, |tx.inputs|) < UINT64_LIMIT
      ensures total.Some? ==> total.value == InputSum(entries, tx.inputs, |tx.inputs|)
    {
      hide InputSum;
      NothingRead(entries, tx.inputs);
      var sum, k := 0, 0;
      while k < |tx.inputs|
        invariant 0 <= k <= |tx.inputs| && Readable(entries, tx.inputs, k)
        invariant sum == InputSum(entries, tx.inputs, k) < UINT64_LIMIT
      {
        ReadNext(entries, tx.inputs, k);
        var op := tx.inputs[k];
        if op != NULL_OUTPOINT {
          if op !in entries || entries[op].spent {
            return None;
          }
          if sum + entries[op].coin.output.value >= UINT64_LIMIT {
            return None;
          }
          sum := sum + entries[op].coin.output.value;
        }
        k := k + 1;
      }
      return Some(sum);
    }

    /** Inputs less outputs, when the inputs can be read and both totals fit a signed 64-bit integer. */
    method GetFee(tx: Transaction) returns (fee: Option<int>)
      ensures fee.Some? <==>
        && Readable(entries, tx.inputs, |tx.inputs|) && InputSum(entries, tx.inputs, |tx.inputs|) <= INT64_MAX
        && OutputTotal(tx.outputs, |tx.outputs|) <= INT64_MAX
      ensures fee.Some? ==> fee.value == InputSum(entries, tx.inputs, |tx.inputs|) - OutputTotal(tx.outputs, |tx.outputs|)
    {
      var inputs := GetInputValue(tx);
      if inputs == None {
        return None;
      }
      var outputs, i := 0, 0;
      while i < |tx.outputs|
        invariant 0 <= i <= |tx.outputs|
        invariant outputs == OutputTotal(tx.outputs, i) < UINT64_LIMIT
      {
        TotalGrows(tx.outputs, i + 1);
        if outputs + tx.outputs[i].value >= UINT64_LIMIT {
          return None;
        }
        outputs := outputs + tx.outputs[i].value;
        i := i + 1;
      }
      if inputs.value > INT64_MAX || outputs > INT64_MAX {
        return None;
      }
      return Some(inputs.value - outputs);
    }

    /** Spends every input but the null ones, in order; stops at the first that cannot be spent. */
    method SpendInputs(tx: Transaction) returns (ok: bool)
      modifies this
      ensures ok <==> old(Readable(entries, tx.inputs, |tx.inputs|)) && DistinctSpends(tx.inputs, |tx.inputs|)
      ensures ok ==> entries == Marked(old(entries), tx.inputs, |tx.inputs|)
      ensures ok ==> undo == old(undo) + Pushed(old(entries), tx.inputs, |tx.inputs|)
    {
      hide Marked, Pushed, DistinctSpends;
      NoneTwice(tx.inputs);
      NothingMarked(entries, tx.inputs);
      var k := 0;
      while k < |tx.inputs|
        invariant 0 <= k <= |tx.inputs| && old(Readable(entries, tx.inputs, k)) && DistinctSpends(tx.inputs, k)
        invariant entries == Marked(old(entries), tx.inputs, k)
        invariant undo == old(undo) + Pushed(old(entries), tx.inputs, k)
      {
        MarkNext(old(entries), tx.inputs, k);
        if tx.inputs[k] != NULL_OUTPOINT {
          var spent := SpendEntry(tx.inputs[k]);
          if spent == None {
            SpendsStop(tx.inputs, k);
            return false;
          }
        }
        k := k + 1;
      }
      return true;
    }
  }

  /** The first `n` inputs are null or unspent entries. */
  predicate Readable(entries: Entries, inputs: seq<Outpoint>, n: nat)
    requires n <= |inputs|
  {
    forall k :: 0 <= k < n ==> inputs[k] == NULL_OUTPOINT || (inputs[k] in entries && !entries[inputs[k]].spent)
  }

  function InputSum(entries: Entries, inputs: seq<Outpoint>, n: nat): nat
    requires n <= |inputs|
  {
    if n == 0 then 0
    else
      var op := inputs[n - 1];
      InputSum(entries, inputs, n - 1) + if op == NULL_OUTPOINT || op !in entries then 0 else entries[op].coin.output.value
  }

  lemma {:induction false} NothingRead(entries: Entries, inputs: seq<Outpoint>)
    ensures InputSum(entries, inputs, 0) == 0
  {
  }

  /** The sum with one more input, and that the whole sum is no smaller. */
  lemma {:induction false} ReadNext(entries: Entries, inputs: seq<Outpoint>, k: nat)
    requires k < |inputs|
    ensures var op := inputs[k];
      InputSum(entries, inputs, k + 1) == InputSum(entries, inputs, k)
        + if op == NULL_OUTPOINT || op !in entries then 0 else entries[op].coin.output.value
    ensures InputSum(entries, inputs, k + 1) <= InputSum(entries, inputs, |inputs|)
  {
    SumGrows(entries, inputs, k + 1);
  }

  lemma {:induction false} SumGrows(entries: Entries, inputs: seq<Outpoint>, n: nat)
    requires n <= |inputs|
    ensures InputSum(entries, inputs, n) <= InputSum(entries, inputs, |inputs|)
    decreases |inputs| - n
  {
    if n < |inputs| {
      SumGrows(entries, inputs, n + 1);
    }
  }

  /** The entries with the first `n` inputs marked spent, null ones aside. */
  function Marked(entries: Entries, inputs: seq<Outpoint>, n: nat): Entries
    requires n <= |inputs|
  {
    if n == 0 then entries
    else
      var m, op := Marked(entries, inputs, n - 1), inputs[n - 1];
      if op == NULL_OUTPOINT || op !in m then m else m[op := m[op].(spent := true)]
  }

  /** The entries pushed by spending the first `n` inputs. */
  function Pushed(entries: Entries, inputs: seq<Outpoint>, n: nat): seq<CoinEntry>
    requires n <= |inputs|
  {
    if n == 0 then []
    else
      var op := inputs[n - 1];
      Pushed(entries, inputs, n - 1) + if op == NULL_OUTPOINT || op !in entries then [] else [entries[op]]
  }

  lemma {:induction false} NoneTwice(inputs: seq<Outpoint>)
    ensures DistinctSpends(inputs, 0)
  {
  }

  lemma {:induction false} SpendsStop(inputs: seq<Outpoint>, k: nat)
    requires k < |inputs|
    ensures DistinctSpends(inputs, |inputs|) ==> DistinctSpends(inputs, k + 1)
  {
  }

  lemma {:induction false} NothingMarked(entries: Entries, inputs: seq<Outpoint>)
    ensures Marked(entries, inputs, 0) == entries && Pushed(entries, inputs, 0) == []
  {
  }

  lemma {:induction false} MarkedMeaning(entries: Entries, inputs: seq<Outpoint>, n: nat, op: Outpoint)
    requires n <= |inputs|
    ensures op in Marked(entries, inputs, n) <==> op in entries
    ensures op in entries ==>
      Marked(entries, inputs, n)[op] == if op in inputs[..n] && op != NULL_OUTPOINT then entries[op].(spent := true) else entries[op]
  {
    if n > 0 {
      MarkedMeaning(entries, inputs, n - 1, op);
      assert inputs[..n] == inputs[..n - 1] + [inputs[n - 1]];
    }
  }

  /** Whether the next input can be spent, and what spending it does. */
  lemma {:induction false} MarkNext(entries: Entries, inputs: seq<Outpoint>, k: nat)
    requires k < |inputs| && DistinctSpends(inputs, k)
    ensures var m, op := Marked(entries, inputs, k), inputs[k];
      && (op != NULL_OUTPOINT ==>
            (op in m && !m[op].spent <==> op in entries && !entries[op].spent && DistinctSpends(inputs, k + 1)))
      && (op == NULL_OUTPOINT ==> DistinctSpends(inputs, k + 1))
      && (op != NULL_OUTPOINT && op in m && !m[op].spent ==>
            && Marked(entries, inputs, k + 1) == m[op := m[op].(spent := true)]
            && Pushed(entries, inputs, k + 1) == Pushed(entries, inputs, k) + [m[op]])
      && (op == NULL_OUTPOINT ==>
            Marked(entries, inputs, k + 1) == m && Pushed(entries, inputs, k + 1) == Pushed(entries, inputs, k))
  {
    var op := inputs[k];
    MarkedMeaning(entries, inputs, k, op);
    if op in inputs[..k] {
      var i :| 0 <= i < k && inputs[i] == op;
    }
  }

  /** The first `n` inputs name no outpoint twice, null ones aside. */
  predicate DistinctSpends(inputs: seq<Outpoint>, n: nat)
    requires n <= |inputs|
  {
    forall i, j :: 0 <= i < j < n && inputs[i] == inputs[j] ==> inputs[i] == NULL_OUTPOINT
  }
}
