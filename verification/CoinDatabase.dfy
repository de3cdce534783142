/**
 * The stored coin set, its undo records and its counters (Sources/Chain/CoinDatabase.swift;
 * counters from Sources/Chain/ChainState.swift). A write batch is one assignment.
 */
module CoinDatabase {
  import opened Base
  import opened Covenants
  import opened Coins
  import opened CoinView
  import opened CoinUndo

  datatype CoinError = MissingUndo | UndoUnderflow | MissingCoin | ImmatureCoinbase | BadWitness | ValueBelowOutput
    | CoinbaseTooHigh | MalformedBlock | NotAdmitted

  /** A subtraction that stops at zero. */
  function Minus(a: nat, b: nat): nat {
    if a >= b then a - b else 0
  }

  /** The stored coins after the entries of `done` have been written. */
  function Merged(coins: CoinSet, entries: Entries, done: set<Outpoint>): CoinSet {
    map op |
      && op in coins.Keys + entries.Keys
      && (op in coins || (op in done && !entries[op].spent))
      && !(op in done && op in entries && entries[op].spent && !entries[op].created)
      :: if op in done && op in entries && !entries[op].spent then entries[op].coin else coins[op]
  }

  /** The stored coins under entries that the block both created and spent: nothing deletes them. */
  function Hidden(coins: CoinSet, entries: Entries): CoinSet {
    map op | op in coins && op in entries && entries[op].created && entries[op].spent :: coins[op]
  }

  /** A view whose loaded coins are all spent is written as it reads, except that hidden coins stay stored. */
  lemma {:induction false} MergedIsOverlay(coins: CoinSet, entries: Entries)
    ensures Merged(coins, entries, entries.Keys) == Overlay(coins, entries) + Hidden(coins, entries)
  {
  }

  /** So it is written exactly as it reads if and only if it hides no stored coin. */
  lemma {:induction false} OverlayIffNothingHidden(coins: CoinSet, entries: Entries)
    ensures Merged(coins, entries, entries.Keys) == Overlay(coins, entries) <==> Hidden(coins, entries) == map[]
  {
    MergedIsOverlay(coins, entries);
    forall op | op in Hidden(coins, entries)
      ensures op in Merged(coins, entries, entries.Keys) && op !in Overlay(coins, entries)
    {
    }
  }

  lemma {:induction false} MergeOne(coins: CoinSet, entries: Entries, done: set<Outpoint>, op: Outpoint)
    requires op in entries && op !in done && done <= entries.Keys
    ensures var was, now := Merged(coins, entries, done), Merged(coins, entries, done + {op});
      now == if !entries[op].spent then was[op := entries[op].coin]
             else if !entries[op].created then was - {op} else was
  {
  }

  lemma {:induction false} MergeNone(coins: CoinSet, entries: Entries)
    ensures Merged(coins, entries, {}) == coins
  {
  }

  // ---- Coins stored over coins ----

  /** The stored coins that entries of `done` overwrite. */
  function Overwritten(coins: CoinSet, entries: Entries, done: set<Outpoint>): CoinSet {
    map op | op in coins && op in done && op in entries && !entries[op].spent :: coins[op]
  }

  lemma {:induction false} OverwriteOne(coins: CoinSet, entries: Entries, done: set<Outpoint>, op: Outpoint)
    requires op in entries && op !in done && done <= entries.Keys && Backed(coins, entries)
    ensures var was, before, now :=
        Merged(coins, entries, done), Overwritten(coins, entries, done), Overwritten(coins, entries, done + {op});
      && op !in before
      && (entries[op].spent && !entries[op].created ==> op in was && was[op] == entries[op].coin)
      && now == if !entries[op].spent && op in was then before[op := was[op]] else before
  {
  }

  function CountAfter(n: nat, entry: CoinEntry): nat {
    if !entry.spent then n + 1 else if !entry.created then Minus(n, 1) else n
  }

  function ValueAfter(n: nat, entry: CoinEntry): nat {
    if !entry.spent then n + entry.coin.output.value
    else if !entry.created then Minus(n, entry.coin.output.value) else n
  }

  /** The counters count two sets of coins together. */
  ghost predicate CountBoth(n: nat, v: nat, c: CoinSet, d: CoinSet) {
    n == |c| + |d| && v == Value(c) + Value(d)
  }

  lemma {:induction false} CountsOverwritten(n: nat, v: nat, c: CoinSet, d: CoinSet, op: Outpoint, entry: CoinEntry)
    requires CountBoth(n, v, c, d) && op !in d
    requires entry.spent && !entry.created ==> op in c && c[op] == entry.coin
    ensures
      var after := if !entry.spent then c[op := entry.coin] else if !entry.created then c - {op} else c;
      CountBoth(CountAfter(n, entry), ValueAfter(v, entry), after, if !entry.spent && op in c then d[op := c[op]] else d)
  {
    hide Value;
    ValueNonNegative(d);
    if !entry.spent {
      if op in c {
        ValueOver(c, op, entry.coin);
        ValueAdd(d, op, c[op]);
      } else {
        ValueAdd(c, op, entry.coin);
      }
    } else if !entry.created {
      ValueRemove(c, op);
      CountRemove(c, op);
      ValueNonNegative(c - {op});
    }
  }

  /** The counters are exact if and only if no stored coin was overwritten. */
  lemma {:induction false} ExactIffNothingOverwritten(n: nat, v: nat, c: CoinSet, d: CoinSet)
    requires CountBoth(n, v, c, d)
    ensures n == |c| && v == Value(c) <==> d == map[]
  {
    CountNothing();
    if |d| == 0 {
      assert d == map[];
    }
  }

  lemma {:induction false} OverwriteNone(coins: CoinSet, entries: Entries)
    ensures Overwritten(coins, entries, {}) == map[]
  {
  }

  class CoinDatabase {
    var coins: CoinSet
    var undos: map<nat, seq<Coin>>
    var coinCount: nat
    var value: nat
    var committedHeight: int
    var pendingHeight: Option<nat>

    constructor ()
      ensures coins == map[] && undos == map[] && coinCount == 0 && value == 0
      ensures committedHeight == -1 && pendingHeight == None
    {
      coins, undos, coinCount, value, committedHeight, pendingHeight := map[], map[], 0, 0, -1, None;
    }

    /** The counters describe this coin set. */
    ghost predicate Counts(c: CoinSet)
      reads this`coinCount, this`value
    {
      coinCount == |c| && value == Value(c)
    }

    lemma {:induction false} CountsOnce(c: CoinSet)
      requires Counts(c)
      ensures CountBoth(coinCount, value, c, map[])
    {
      CountNothing();
    }

    lemma {:induction false} CountedOnce(c: CoinSet)
      requires CountBoth(coinCount, value, c, map[])
      ensures Counts(c)
    {
      CountNothing();
    }

    method Reset()
      modifies this
      ensures coins == map[] && undos == map[] && Counts(coins)
      ensures committedHeight == -1 && pendingHeight == None
    {
      coins, undos, coinCount, value, committedHeight, pendingHeight := map[], map[], 0, 0, -1, None;
    }

    method MarkPendingHeight(height: nat)
      modifies `pendingHeight
      ensures pendingHeight == Some(height)
    {
      pendingHeight := Some(height);
    }

    function GetCoin(op: Outpoint): Option<Coin>
      reads this
    {
      if op in coins then Some(coins[op]) else None
    }

    method CountAdd(v: nat)
      modifies `coinCount, `value
      ensures coinCount == old(coinCount) + 1 && value == old(value) + v
    {
      coinCount, value := coinCount + 1, value + v;
    }

    method CountSpend(v: nat)
      modifies `coinCount, `value
      ensures coinCount == Minus(old(coinCount), 1) && value == Minus(old(value), v)
    {
      coinCount, value := Minus(coinCount, 1), Minus(value, v);
    }

    /** Counting a coin that joins `c`. */
    method Added(ghost c: CoinSet, op: Outpoint, coin: Coin)
      modifies `coinCount, `value
      ensures old(Counts(c)) && op !in c ==> Counts(c[op := coin])
      ensures coinCount == old(coinCount) + 1 && value == old(value) + coin.output.value
    {
      CountAdd(coin.output.value);
      if op !in c {
        ValueAdd(c, op, coin);
      }
    }

    /** Counting a coin that leaves `c`: the subtraction does not saturate. */
    method Removed(ghost c: CoinSet, op: Outpoint, v: nat)
      modifies `coinCount, `value
      ensures old(Counts(c)) && op in c && c[op].output.value == v ==> Counts(c - {op})
      ensures coinCount == Minus(old(coinCount), 1) && value == Minus(old(value), v)
    {
      CountSpend(v);
      if op in c {
        ValueRemove(c, op);
        CountRemove(c, op);
        ValueNonNegative(c - {op});
      }
    }

    /** One entry of a view: a coin to store, a coin to delete, or one that was never stored. */
    method WriteEntry(working: CoinSet, op: Outpoint, entry: CoinEntry) returns (after: CoinSet)
      modifies `coinCount, `value
      ensures after == if !entry.spent then working[op := entry.coin] else if !entry.created then working - {op} else working
      ensures coinCount == CountAfter(old(coinCount), entry) && value == ValueAfter(old(value), entry)
    {
      after := working;
      if entry.spent {
        if !entry.created {
          Removed(working, op, entry.coin.output.value);
          after := working - {op};
        }
      } else {
        Added(working, op, entry.coin);
        after := working[op := entry.coin];
      }
    }

    /** Applies all entries of a view, in whatever order they are visited. */
    method WriteEntries(entries: Entries, start: CoinSet) returns (working: CoinSet)
      modifies `coinCount, `value
      ensures working == Merged(start, entries, entries.Keys)
      ensures old(Counts(start)) && Backed(start, entries) ==>
        CountBoth(coinCount, value, working, Overwritten(start, entries, entries.Keys))
    {
      hide *;
      ghost var backed := Counts(start) && Backed(start, entries);
      OverwriteNone(start, entries);
      if backed {
        CountsOnce(start);
      }
      var left := entries.Keys;
      working := start;
      MergeNone(start, entries);
      assert entries.Keys - left == {};
      while left != {}
        invariant left <= entries.Keys
        invariant working == Merged(start, entries, entries.Keys - left)
        invariant backed ==> CountBoth(coinCount, value, working, Overwritten(start, entries, entries.Keys - left))
        decreases |left|
      {
        var op :| op in left;
        if backed {
          OverwriteOne(start, entries, entries.Keys - left, op);
          CountsOverwritten(coinCount, value, working, Overwritten(start, entries, entries.Keys - left), op, entries[op]);
        }
        MergeOne(start, entries, entries.Keys - left, op);
        working := WriteEntry(working, op, entries[op]);
        assert entries.Keys - (left - {op}) == (entries.Keys - left) + {op};
        left := left - {op};
      }
      assert entries.Keys - left == entries.Keys;
    }

    /** Writes a view. The counters then count the stored coins and, again, whatever stored coins it overwrote. */
    method SaveView(view: CoinView, height: nat)
      modifies this
      ensures coins == Merged(old(coins), view.entries, view.entries.Keys)
      ensures undos == old(undos)[height := Stored(view.undo)]
      ensures committedHeight == height && pendingHeight == None
      ensures old(Counts(coins)) && Backed(old(coins), view.entries) ==>
        CountBoth(coinCount, value, coins, Overwritten(old(coins), view.entries, view.entries.Keys))
    {
      hide *;
      var working := WriteEntries(view.entries, coins);
      coins, undos, committedHeight, pendingHeight := working, undos[height := Stored(view.undo)], height, None;
    }

    /** The outpoints a disconnect of `b` will pass over. */
    method FindInBlockSpends(b: Block) returns (skip: set<Outpoint>)
      ensures skip == InBlockSpends(b, |b|)
    {
      hide Ids;
      skip := {};
      var i := 0;
      while i < |b|
        invariant 0 <= i <= |b| && skip == InBlockSpends(b, i)
      {
        var inputs, k := b[i].inputs, 0;
        while k < |inputs|
          invariant 0 <= k <= |inputs| && skip == InBlockSpends(b, i) + Naming(inputs, Ids(b), k)
        {
          if inputs[k] != NULL_OUTPOINT && inputs[k].hash in Ids(b) {
            skip := skip + {inputs[k]};
          }
          k := k + 1;
        }
        i := i + 1;
      }
    }

    /** Takes a transaction's outputs out of the set, except those passed over. */
    method RemoveOutputs(tx: Transaction, skip: set<Outpoint>, working: CoinSet, height: nat) returns (after: CoinSet)
      modifies `coinCount, `value
      ensures after == working - (Made(tx) - skip)
      ensures old(Counts(working)) && Holds(working, tx, skip, height) ==> Counts(after)
    {
      hide Counts, Holds, Made, TakeOut;
      after := working;
      var j := 0;
      ghost var exact := Counts(working) && Holds(working, tx, skip, height);
      StartTaking(working, tx, skip);
      while j < |tx.outputs|
        invariant 0 <= j <= |tx.outputs| && after == TakeOut(working, tx, skip, j)
        invariant exact ==> Counts(after)
      {
        var op := Outpoint(tx.hash, j);
        TakeStep(working, tx, skip, j, height);
        if op !in skip {
          Removed(after, op, tx.outputs[j].value);
          after := after - {op};
        }
        j := j + 1;
      }
      TakeOutAll(working, tx, skip);
    }

    /** Puts back the coins a transaction spent, last input first, except those passed over. */
    method RestoreInputs(tx: Transaction, skip: set<Outpoint>, working: CoinSet, undo: seq<Coin>, idx: nat)
      returns (after: CoinSet, rest: nat, ok: bool)
      requires idx <= |undo|
      modifies `coinCount, `value
      ensures rest <= idx
      ensures NULL_OUTPOINT !in tx.inputs && |tx.inputs| <= idx ==> ok && rest == idx - |tx.inputs|
      ensures ok && NULL_OUTPOINT !in tx.inputs ==>
        rest + |tx.inputs| == idx && after == PutBack(tx.inputs, skip, working, undo, rest, 0)
      ensures ok && Plain(tx) && old(Counts(working)) && (SpentBy(tx) - skip) !! working.Keys ==> Counts(after)
    {
      hide Counts, PutBack, DistinctInputs, SpentBy;
      StartPutting(tx.inputs, skip, working, undo, idx);
      after, rest, ok := working, idx, true;
      var k := |tx.inputs|;
      ghost var plain := NULL_OUTPOINT !in tx.inputs;
      ghost var exact := Plain(tx) && Counts(working) && (SpentBy(tx) - skip) !! working.Keys;
      while k > 0
        invariant 0 <= k <= |tx.inputs| && rest <= idx && ok
        invariant plain ==> rest + (|tx.inputs| - k) == idx && after == PutBack(tx.inputs, skip, working, undo, rest, k)
        invariant exact ==> Counts(after)
      {
        k := k - 1;
        var op := tx.inputs[k];
        if op != NULL_OUTPOINT {
          if rest == 0 {
            ok := false;
            return;
          }
          rest := rest - 1;
          if plain {
            PutStep(tx, skip, working, undo, rest, k);
          }
          if op !in skip {
            Added(after, op, undo[rest]);
            after := after[op := undo[rest]];
          }
        }
      }
    }

    /** Undoes transaction `i`, all later ones being undone. */
    method UndoTransaction(b: Block, i: nat, height: nat, skip: set<Outpoint>, start: CoinSet, undo: seq<Coin>, top: nat,
                           ghost before: CoinSet) returns (working: CoinSet, idx: nat, ok: bool)
      requires i < |b| && top <= |undo| && skip == InBlockSpends(b, |b|)
      modifies `coinCount, `value
      ensures idx <= |undo|
      ensures old(Counts(start)) && UndoneTo(before, b, i + 1, height, coins, start, undo, top) ==>
        ok && UndoneTo(before, b, i, height, coins, working, undo, idx) && Counts(working)
    {
      hide Counts, UndoneTo, InBlockSpends, Made, Restrict, Holds, PutBack, DistinctInputs, SpentBy;
      ghost var good := UndoneTo(before, b, i + 1, height, coins, start, undo, top);
      if good {
        RemovalSound(before, b, i, height, coins, start, undo, top);
      }
      var removed := RemoveOutputs(b[i], skip, start, height);
      if i == 0 {
        if good {
          UndoFirst(before, b, height, coins, start, removed, undo, top);
        }
        return removed, top, true;
      }
      if good {
        RestoreSound(before, b, i, height, coins, start, removed, undo, top);
      }
      working, idx, ok := RestoreInputs(b[i], skip, removed, undo, top);
      if good {
        UndoStep(before, b, i, height, coins, start, removed, working, undo, top, idx);
      }
    }

    /**
     * Undoes the block at `height`. Without an undo record nothing happens. With the record that
     * connecting it to `before` left, the result is `before` and whatever was passed over.
     */
    method DisconnectBlock(b: Block, height: nat, ghost before: CoinSet) returns (r: Outcome<CoinError>)
      requires height > 0
      modifies this
      ensures height !in old(undos) ==> r == Throw(MissingUndo) && unchanged(this)
      ensures r.Throw? ==> unchanged(`coins) && unchanged(`undos) && unchanged(`committedHeight)
      ensures r.Pass? ==> undos == old(undos) - {height} && committedHeight == height - 1
      ensures old(Connected(before, b, height)) ==>
        r.Pass? && coins == before + Restrict(old(coins), InBlockSpends(b, |b|)) && Counts(coins)
      ensures unchanged(`pendingHeight)
    {
      hide Connection, Counts, UndoneTo, InBlockSpends, Made, Restrict, Holds, PutBack;
      if height !in undos {
        return Throw(MissingUndo);
      }
      var undo := undos[height];
      var skip := FindInBlockSpends(b);
      ghost var good := Connected(before, b, height);
      var working, idx, i := coins, |undo|, |b|;
      if good {
        UndoStart(before, b, height, coins, undo);
      }
      while i > 0
        invariant 0 <= i <= |b| && 0 <= idx <= |undo|
        invariant unchanged(`coins) && unchanged(`undos) && unchanged(`committedHeight) && unchanged(`pendingHeight)
        invariant good ==> UndoneTo(before, b, i, height, coins, working, undo, idx)
        invariant good ==> Counts(working)
      {
        i := i - 1;
        var ok;
        working, idx, ok := UndoTransaction(b, i, height, skip, working, undo, idx, before);
        if !ok {
          return Throw(UndoUnderflow);
        }
      }
      if good {
        UndoneAll(before, b, height, coins, working, undo, idx);
      }
      coins, undos, committedHeight := working, undos - {height}, height - 1;
      return Pass;
    }

    /** The block at the top was connected to `before`, and its undo record is there. */
    ghost predicate Connected(before: CoinSet, b: Block, height: nat)
      reads this
    {
      height in undos && Connection(before, b, height, coins, undos[height]) && Counts(coins)
    }
  }
}
