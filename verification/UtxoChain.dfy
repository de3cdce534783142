/**
 * Connecting, disconnecting and rebuilding the coins of a chain: all three agree with the fold of
 * its blocks (Sources/Chain/ChainValidation.swift, lines 76 to 90 and 159 to 290;
 * Sources/Chain/Chain.swift, lines 710 to 850; Sources/Consensus/BlockValidator.swift).
 */
module UtxoChain {
  import opened Base
  import opened BlockReward
  import opened Covenants
  import opened Coins
  import opened CoinValue
  import opened CoinView
  import opened CoinUndo
  import opened CoinDatabase

  /** What connecting checks besides values; witness verification is an arbitrary predicate. */
  datatype CoinRules = CoinRules(interval: nat, maturity: nat, signed: (Transaction, nat, Coin) -> bool)

  // ---- Checks without context ----

  method CheckOutputs(tx: Transaction) returns (ok: bool)
    ensures ok <==>
      && (forall i :: 0 <= i < |tx.outputs| ==> tx.outputs[i].value <= MAX_MONEY)
      && OutputTotal(tx.outputs, |tx.outputs|) <= MAX_MONEY
  {
    var total, i := 0, 0;
    while i < |tx.outputs|
      invariant 0 <= i <= |tx.outputs| && total == OutputTotal(tx.outputs, i) <= MAX_MONEY
      invariant forall j :: 0 <= j < i ==> tx.outputs[j].value <= MAX_MONEY
    {
      if tx.outputs[i].value > MAX_MONEY {
        return false;
      }
      total := total + tx.outputs[i].value;
      if total > MAX_MONEY {
        TotalGrows(tx.outputs, i + 1);
        return false;
      }
      i := i + 1;
    }
    return true;
  }

  method CheckInputs(inputs: seq<Outpoint>) returns (ok: bool)
    ensures ok <==> DistinctInputs(inputs)
  {
    var seen: set<Outpoint>, i := {}, 0;
    while i < |inputs|
      invariant 0 <= i <= |inputs| && DistinctInputs(inputs[..i])
      invariant forall op :: op in seen <==> exists j :: 0 <= j < i && inputs[j] == op
    {
      if inputs[i] in seen {
        return false;
      }
      seen := seen + {inputs[i]};
      i := i + 1;
    }
    assert inputs[..i] == inputs;
    return true;
  }

  method CheckTransactionSanity(tx: Transaction) returns (ok: bool)
    ensures ok <==> SaneTransaction(tx)
  {
    hide DistinctInputs, OutputTotal, IsCoinbase;
    if tx.inputs == [] || tx.outputs == [] {
      return false;
    }
    if !IsCoinbase(tx) {
      var distinct := CheckInputs(tx.inputs);
      if !distinct {
        return false;
      }
    }
    ok := CheckOutputs(tx);
  }

  method CheckBody(b: Block) returns (ok: bool)
    ensures ok <==> SaneBlock(b)
  {
    hide IsCoinbase, SaneTransaction;
    if b == [] || !IsCoinbase(b[0]) {
      return false;
    }
    var i := 1;
    while i < |b|
      invariant 1 <= i <= |b| && forall j :: 1 <= j < i ==> !IsCoinbase(b[j])
    {
      if IsCoinbase(b[i]) {
        return false;
      }
      i := i + 1;
    }
    var distinct := CheckIds(b);
    if !distinct {
      return false;
    }
    i := 0;
    while i < |b|
      invariant 0 <= i <= |b| && forall j :: 0 <= j < i ==> SaneTransaction(b[j])
    {
      var sane := CheckTransactionSanity(b[i]);
      if !sane {
        return false;
      }
      i := i + 1;
    }
    return true;
  }

  method CheckIds(b: Block) returns (ok: bool)
    ensures ok <==> DistinctIds(b)
  {
    var seen: set<Hash>, i := {}, 0;
    while i < |b|
      invariant 0 <= i <= |b| && DistinctIds(b[..i])
      invariant forall h :: h in seen <==> exists j :: 0 <= j < i && b[j].hash == h
    {
      if b[i].hash in seen {
        return false;
      }
      seen := seen + {b[i].hash};
      i := i + 1;
    }
    assert b[..i] == b;
    return true;
  }

  method CheckCoinbaseValue(b: Block, height: nat, fees: nat, interval: nat) returns (ok: bool)
    requires b != [] && interval > 0
    ensures ok <==> ClaimsAllowed(b, height, fees, interval)
  {
    var allowed := GetReward(height, interval) + fees;
    if allowed > INT64_MAX {
      return false;
    }
    var outputs, claimed, i := b[0].outputs, 0, 0;
    while i < |outputs|
      invariant 0 <= i <= |outputs| && claimed == OutputTotal(outputs, i) <= INT64_MAX
    {
      claimed := claimed + outputs[i].value;
      if claimed > INT64_MAX {
        TotalGrows(outputs, i + 1);
        return false;
      }
      i := i + 1;
    }
    return claimed <= allowed;
  }

  // ---- A view stands for a ledger ----

  /** The view over the store reads as the ledger, and holds the ledger's undo record. */
  predicate Reads(coins: CoinSet, entries: Entries, undo: seq<CoinEntry>, l: Ledger) {
    && Overlay(coins, entries) == l.coins && Stored(undo) == l.undo
    && Backed(coins, entries) && LoadedSpent(entries, {})
    && NULL_OUTPOINT !in entries && NULL_OUTPOINT !in coins
  }

  /** Every input is in the view, those not there before loaded from the store. */
  ghost predicate Loaded(coins: CoinSet, was: Entries, now: Entries, tx: Transaction) {
    && (forall op :: op in now <==> op in was || op in tx.inputs)
    && (forall op :: op in was ==> now[op] == was[op])
    && (forall op :: op in now && op !in was ==> op in coins && now[op] == CoinEntry(coins[op], false, false))
  }

  method LoadInputs(db: CoinDatabase, view: CoinView, tx: Transaction) returns (ok: bool)
    modifies view`entries
    ensures ok <==> forall k :: 0 <= k < |tx.inputs| ==> tx.inputs[k] in old(view.entries) || tx.inputs[k] in db.coins
    ensures ok ==> Loaded(db.coins, old(view.entries), view.entries, tx)
  {
    var k := 0;
    while k < |tx.inputs|
      invariant 0 <= k <= |tx.inputs|
      invariant forall op :: op in view.entries <==> op in old(view.entries) || op in tx.inputs[..k]
      invariant forall op :: op in old(view.entries) ==> view.entries[op] == old(view.entries)[op]
      invariant forall op :: op in view.entries && op !in old(view.entries) ==>
        op in db.coins && view.entries[op] == CoinEntry(db.coins[op], false, false)
    {
      var op := tx.inputs[k];
      if view.GetEntry(op) == None {
        var coin := db.GetCoin(op);
        if coin == None {
          return false;
        }
        view.AddEntry(op, CoinEntry(coin.value, false, false));
      }
      assert tx.inputs[..k + 1] == tx.inputs[..k] + [op];
      k := k + 1;
    }
    assert tx.inputs[..k] == tx.inputs;
    return true;
  }

  lemma {:induction false} LoadReads(coins: CoinSet, was: Entries, now: Entries, undo: seq<CoinEntry>, l: Ledger, tx: Transaction)
    requires Reads(coins, was, undo, l) && Loaded(coins, was, now, tx)
    ensures Overlay(coins, now) == l.coins && Backed(coins, now)
    ensures LoadedSpent(now, SpentBy(tx)) && NULL_OUTPOINT !in now && CreatedIn(now) == CreatedIn(was)
  {
    hide Stored;
    forall op | op in tx.inputs
      ensures op in SpentBy(tx)
    {
      SpentIsInput(tx, op);
    }
  }

  /** Unspent entries of a fully loaded view are the coins of the ledger. */
  lemma {:induction false} LoadedInput(coins: CoinSet, entries: Entries, l: Ledger, op: Outpoint)
    requires Overlay(coins, entries) == l.coins && op in entries
    ensures !entries[op].spent <==> op in l.coins
    ensures op in l.coins ==> l.coins[op] == entries[op].coin
  {
  }

  lemma {:induction false} SumIsTotal(view: CoinView, coins: CoinSet, l: Ledger, inputs: seq<Outpoint>, n: nat)
    requires n <= |inputs| && Overlay(coins, view.entries) == l.coins
    requires forall k :: 0 <= k < n ==> inputs[k] in view.entries && inputs[k] in l.coins
    ensures InputSum(view.entries, inputs, n) == InputTotal(l.coins, inputs, n)
  {
    hide Overlay;
    if n > 0 {
      SumIsTotal(view, coins, l, inputs, n - 1);
      LoadedInput(coins, view.entries, l, inputs[n - 1]);
    }
  }

  /** The fee is available exactly when the ledger can pay it. */
  lemma {:induction false} FeeAgrees(view: CoinView, coins: CoinSet, l: Ledger, tx: Transaction)
    requires Overlay(coins, view.entries) == l.coins && NULL_OUTPOINT !in view.entries
    requires forall k :: 0 <= k < |tx.inputs| ==> tx.inputs[k] in view.entries
    ensures Readable(view.entries, tx.inputs, |tx.inputs|) <==> forall k :: 0 <= k < |tx.inputs| ==> tx.inputs[k] in l.coins
    ensures Readable(view.entries, tx.inputs, |tx.inputs|) ==>
      InputSum(view.entries, tx.inputs, |tx.inputs|) == InputTotal(l.coins, tx.inputs, |tx.inputs|)
  {
    hide Overlay;
    forall k | 0 <= k < |tx.inputs|
      ensures !view.entries[tx.inputs[k]].spent <==> tx.inputs[k] in l.coins
    {
      LoadedInput(coins, view.entries, l, tx.inputs[k]);
    }
    if Readable(view.entries, tx.inputs, |tx.inputs|) {
      SumIsTotal(view, coins, l, tx.inputs, |tx.inputs|);
    }
  }

  /** Spending the inputs in the view spends them in the ledger. */
  lemma {:induction false} SpendReads(coins: CoinSet, was: Entries, l: Ledger, tx: Transaction)
    requires Overlay(coins, was) == l.coins && Backed(coins, was) && LoadedSpent(was, SpentBy(tx))
    requires NULL_OUTPOINT !in was && NULL_OUTPOINT !in coins
    requires forall op :: op in SpentBy(tx) ==> op in was
    ensures var now := Marked(was, tx.inputs, |tx.inputs|);
      && Overlay(coins, now) == l.coins - SpentBy(tx)
      && Backed(coins, now) && LoadedSpent(now, {}) && NULL_OUTPOINT !in now && CreatedIn(now) == CreatedIn(was)
  {
    hide SpentBy, Marked;
    var now := Marked(was, tx.inputs, |tx.inputs|);
    forall op
      ensures op in now <==> op in was
      ensures op in was ==> now[op] == if op in SpentBy(tx) then was[op].(spent := true) else was[op]
    {
      MarkedMeaning(was, tx.inputs, |tx.inputs|, op);
      SpentIsInput(tx, op);
      assert tx.inputs[..|tx.inputs|] == tx.inputs;
    }
  }

  lemma {:induction false} PushedMeaning(entries: Entries, inputs: seq<Outpoint>, n: nat)
    requires n <= |inputs| && NULL_OUTPOINT !in inputs && forall k :: 0 <= k < n ==> inputs[k] in entries
    ensures |Pushed(entries, inputs, n)| == n
    ensures forall k :: 0 <= k < n ==> Pushed(entries, inputs, n)[k] == entries[inputs[k]]
  {
    if n > 0 {
      PushedNext(entries, inputs, n);
      hide Pushed;
      PushedMeaning(entries, inputs, n - 1);
    }
  }

  lemma {:induction false} PushedNext(entries: Entries, inputs: seq<Outpoint>, n: nat)
    requires 0 < n <= |inputs| && inputs[n - 1] != NULL_OUTPOINT && inputs[n - 1] in entries
    ensures Pushed(entries, inputs, n) == Pushed(entries, inputs, n - 1) + [entries[inputs[n - 1]]]
  {
  }

  /** What was pushed are the coins the ledger took. */
  lemma {:induction false} PushedIsTaken(entries: Entries, l: Ledger, inputs: seq<Outpoint>)
    requires NULL_OUTPOINT !in inputs
    requires forall k :: 0 <= k < |inputs| ==>
      inputs[k] in l.coins && inputs[k] in entries && entries[inputs[k]].coin == l.coins[inputs[k]]
    ensures Stored(Pushed(entries, inputs, |inputs|)) == Taken(l.coins, inputs, |inputs|)
  {
    hide Stored, Taken;
    PushedMeaning(entries, inputs, |inputs|);
  }

  lemma {:induction false} StoredConcat(a: seq<CoinEntry>, b: seq<CoinEntry>)
    ensures Stored(a + b) == Stored(a) + Stored(b)
  {
    hide Stored;
    var s := Stored(a + b);
    assert forall k :: 0 <= k < |a| ==> s[k] == Stored(a)[k];
    assert forall k :: 0 <= k < |b| ==> s[|a| + k] == Stored(b)[k];
  }

  lemma {:induction false} AddReads(coins: CoinSet, was: Entries, now: Entries, l: CoinSet, tx: Transaction, height: nat)
    requires Overlay(coins, was) == l && Added(was, now, tx, height)
    ensures Overlay(coins, now) == l + CoinsOf(tx, height)
  {
    hide CoinOf, Made;
    var after := l + CoinsOf(tx, height);
    forall op
      ensures op in Overlay(coins, now) <==> op in after
      ensures op in after ==> Overlay(coins, now)[op] == after[op]
    {
      if op in Made(tx) {
        assert op in now;
      }
    }
  }

  lemma {:induction false} AddBacked(coins: CoinSet, was: Entries, now: Entries, tx: Transaction, height: nat)
    requires Backed(coins, was) && LoadedSpent(was, {}) && NULL_OUTPOINT !in was && tx.hash != ZERO_HASH
    requires Added(was, now, tx, height)
    ensures Backed(coins, now) && LoadedSpent(now, {}) && NULL_OUTPOINT !in now
    ensures CreatedIn(now) == CreatedIn(was) + Made(tx)
  {
    MadeNotNull(tx);
    hide CoinOf, Made;
  }

  lemma {:induction false} MadeNotNull(tx: Transaction)
    requires tx.hash != ZERO_HASH
    ensures NULL_OUTPOINT !in Made(tx)
  {
  }

  // ---- One transaction ----

  /** Coinbase coins are old enough and every witness is accepted. */
  predicate Screened(coins: CoinSet, tx: Transaction, height: nat, rules: CoinRules)
    requires forall k :: 0 <= k < |tx.inputs| ==> tx.inputs[k] in coins
  {
    forall k :: 0 <= k < |tx.inputs| ==> Passes(coins[tx.inputs[k]], tx, k, height, rules)
  }

  predicate Passes(coin: Coin, tx: Transaction, k: nat, height: nat, rules: CoinRules) {
    (coin.coinbase ==> height - coin.height >= rules.maturity) && rules.signed(tx, k, coin)
  }

  method ScreenInputs(view: CoinView, tx: Transaction, height: nat, rules: CoinRules) returns (r: Outcome<CoinError>)
    requires forall k :: 0 <= k < |tx.inputs| ==> tx.inputs[k] in view.entries
    ensures r.Pass? <==> forall k :: 0 <= k < |tx.inputs| ==> Passes(view.entries[tx.inputs[k]].coin, tx, k, height, rules)
  {
    var k := 0;
    while k < |tx.inputs|
      invariant 0 <= k <= |tx.inputs|
      invariant forall j :: 0 <= j < k ==> Mature(view.entries[tx.inputs[j]].coin, height, rules)
    {
      var coin := view.entries[tx.inputs[k]].coin;
      if coin.coinbase && height - coin.height < rules.maturity {
        assert !Passes(coin, tx, k, height, rules);
        return Throw(ImmatureCoinbase);
      }
      k := k + 1;
    }
    k := 0;
    while k < |tx.inputs|
      invariant 0 <= k <= |tx.inputs|
      invariant forall j :: 0 <= j < k ==> Passes(view.entries[tx.inputs[j]].coin, tx, j, height, rules)
    {
      assert Mature(view.entries[tx.inputs[k]].coin, height, rules);
      if !rules.signed(tx, k, view.entries[tx.inputs[k]].coin) {
        assert !Passes(view.entries[tx.inputs[k]].coin, tx, k, height, rules);
        return Throw(BadWitness);
      }
      k := k + 1;
    }
    return Pass;
  }

  predicate Mature(coin: Coin, height: nat, rules: CoinRules) {
    coin.coinbase ==> height - coin.height >= rules.maturity
  }

  /** What spending a transaction in a ledger takes. */
  predicate Spendable(l: Ledger, tx: Transaction) {
    Pays(l.coins, tx) && l.fees + Fee(l.coins, tx) <= INT64_MAX
  }

  /** The inputs of `tx` are in the view, which reads as the ledger. */
  predicate ReadyToSpend(coins: CoinSet, entries: Entries, undo: seq<CoinEntry>, l: Ledger, tx: Transaction) {
    && Overlay(coins, entries) == l.coins && Stored(undo) == l.undo
    && Backed(coins, entries) && LoadedSpent(entries, SpentBy(tx))
    && NULL_OUTPOINT !in entries && NULL_OUTPOINT !in coins
    && forall k :: 0 <= k < |tx.inputs| ==> tx.inputs[k] in entries
  }

  lemma {:induction false} LoadedIsReady(coins: CoinSet, was: Entries, now: Entries, undo: seq<CoinEntry>, l: Ledger, tx: Transaction)
    requires Reads(coins, was, undo, l) && Loaded(coins, was, now, tx)
    ensures ReadyToSpend(coins, now, undo, l, tx) && CreatedIn(now) == CreatedIn(was)
  {
    hide Overlay, Stored, Backed, LoadedSpent, SpentBy, CreatedIn;
    LoadReads(coins, was, now, undo, l, tx);
  }

  /** If an input cannot be found the ledger does not have it either. */
  lemma {:induction false} MissingInput(coins: CoinSet, entries: Entries, undo: seq<CoinEntry>, l: Ledger, tx: Transaction)
    requires Reads(coins, entries, undo, l)
    requires !forall k :: 0 <= k < |tx.inputs| ==> tx.inputs[k] in entries || tx.inputs[k] in coins
    ensures !Pays(l.coins, tx)
  {
    hide Stored, Backed, LoadedSpent;
  }

  /** Takes the fee and spends the inputs, when the ledger allows it. */
  method PayAndSpend(view: CoinView, tx: Transaction, fees: nat, ghost coins: CoinSet, ghost l: Ledger)
    returns (r: Result<nat, CoinError>)
    requires SaneTransaction(tx) && !IsCoinbase(tx) && fees == l.fees
    requires ReadyToSpend(coins, view.entries, view.undo, l, tx)
    modifies view
    ensures r.Ok? <==> Spendable(l, tx)
    ensures r.Ok? ==> r.value == Spend(l, tx).fees && Reads(coins, view.entries, view.undo, Spend(l, tx))
    ensures r.Ok? ==> CreatedIn(view.entries) == CreatedIn(old(view.entries))
  {
    hide *;
    PayPrepares(view, tx, coins, l);
    var fee := view.GetFee(tx);
    if fee == None || fee.value < 0 {
      return Err(ValueBelowOutput);
    }
    if fees + fee.value > INT64_MAX {
      return Err(ValueBelowOutput);
    }
    ghost var was, undo := view.entries, view.undo;
    var spent := view.SpendInputs(tx);
    SpendKeeps(coins, was, undo, l, tx);
    SpendFees(l, tx);
    return Ok(fees + fee.value);
  }

  lemma {:induction false} SpendFees(l: Ledger, tx: Transaction)
    requires Pays(l.coins, tx)
    ensures Spend(l, tx).fees == l.fees + Fee(l.coins, tx)
    ensures Spendable(l, tx) <==> l.fees + Fee(l.coins, tx) <= INT64_MAX
  {
  }

  lemma {:induction false} PayPrepares(view: CoinView, tx: Transaction, coins: CoinSet, l: Ledger)
    requires SaneTransaction(tx) && !IsCoinbase(tx) && ReadyToSpend(coins, view.entries, view.undo, l, tx)
    ensures NULL_OUTPOINT !in tx.inputs && DistinctSpends(tx.inputs, |tx.inputs|)
    ensures OutputTotal(tx.outputs, |tx.outputs|) <= INT64_MAX
    ensures var paid, claimed := InputSum(view.entries, tx.inputs, |tx.inputs|), OutputTotal(tx.outputs, |tx.outputs|);
      && (Pays(l.coins, tx) <==> Readable(view.entries, tx.inputs, |tx.inputs|) && claimed <= paid <= INT64_MAX)
      && (Pays(l.coins, tx) ==> Fee(l.coins, tx) == paid - claimed)
      && (Pays(l.coins, tx) && l.fees + Fee(l.coins, tx) <= INT64_MAX <==> Spendable(l, tx))
  {
    hide Overlay, Backed, LoadedSpent, Stored, OutputTotal, InputTotal, SpentBy;
    FeeAgrees(view, coins, l, tx);
  }

  lemma {:induction false} SpendKeeps(coins: CoinSet, was: Entries, undo: seq<CoinEntry>, l: Ledger, tx: Transaction)
    requires ReadyToSpend(coins, was, undo, l, tx) && Pays(l.coins, tx)
    ensures Reads(coins, Marked(was, tx.inputs, |tx.inputs|), undo + Pushed(was, tx.inputs, |tx.inputs|), Spend(l, tx))
    ensures CreatedIn(Marked(was, tx.inputs, |tx.inputs|)) == CreatedIn(was)
  {
    hide CreatedIn, Overlay, Backed, LoadedSpent, Stored, Taken, OutputTotal, InputTotal;
    forall op | op in SpentBy(tx)
      ensures op in was
    {
      SpentIsInput(tx, op);
    }
    forall k | 0 <= k < |tx.inputs|
      ensures was[tx.inputs[k]].coin == l.coins[tx.inputs[k]]
    {
      LoadedInput(coins, was, l, tx.inputs[k]);
    }
    SpendReads(coins, was, l, tx);
    PushedIsTaken(was, l, tx.inputs);
    StoredConcat(undo, Pushed(was, tx.inputs, |tx.inputs|));
  }

  lemma {:induction false} InputsFound(coins: CoinSet, entries: Entries, l: Ledger, tx: Transaction, height: nat, rules: CoinRules)
    requires Overlay(coins, entries) == l.coins && Pays(l.coins, tx)
    requires forall k :: 0 <= k < |tx.inputs| ==> tx.inputs[k] in entries
    ensures Screened(l.coins, tx, height, rules) <==>
      forall k :: 0 <= k < |tx.inputs| ==> Passes(entries[tx.inputs[k]].coin, tx, k, height, rules)
  {
    hide Overlay, Passes, InputTotal, OutputTotal;
    forall k | 0 <= k < |tx.inputs|
      ensures entries[tx.inputs[k]].coin == l.coins[tx.inputs[k]]
    {
      LoadedInput(coins, entries, l, tx.inputs[k]);
    }
  }

  /** One transaction of a block being connected. */
  method ConnectTransaction(db: CoinDatabase, view: CoinView, tx: Transaction, height: nat, rules: CoinRules, fees: nat,
                            ghost l: Ledger) returns (r: Result<nat, CoinError>)
    requires SaneTransaction(tx) && !IsCoinbase(tx) && tx.hash != ZERO_HASH
    requires fees == l.fees && Reads(db.coins, view.entries, view.undo, l)
    modifies view
    ensures r.Ok? <==> Spendable(l, tx) && Screened(l.coins, tx, height, rules)
    ensures r.Ok? ==> var next := Create(Spend(l, tx), tx, height);
      r.value == next.fees && Reads(db.coins, view.entries, view.undo, next)
    ensures r.Ok? ==> CreatedIn(view.entries) == CreatedIn(old(view.entries)) + Made(tx)
  {
    hide *;
    ghost var was := view.entries;
    SpendFeesIf(l, tx);
    var found := LoadInputs(db, view, tx);
    if !found {
      MissingInput(db.coins, was, view.undo, l, tx);
      return Err(MissingCoin);
    }
    LoadedIsReady(db.coins, was, view.entries, view.undo, l, tx);
    ReadyIsFound(db.coins, view.entries, view.undo, l, tx);
    ScreenAgrees(db.coins, view.entries, l, tx, height, rules);
    var screened := ScreenInputs(view, tx, height, rules);
    if screened.Throw? {
      return Err(screened.error);
    }
    var paid := PayAndSpend(view, tx, fees, db.coins, l);
    if paid.Err? {
      return paid;
    }
    was := view.entries;
    view.AddTransaction(tx, height);
    AddKeeps(db.coins, was, view.entries, view.undo, Spend(l, tx), tx, height);
    return paid;
  }

  lemma {:induction false} SpendFeesIf(l: Ledger, tx: Transaction)
    ensures Spendable(l, tx) ==> Pays(l.coins, tx)
    ensures Pays(l.coins, tx) ==> forall k :: 0 <= k < |tx.inputs| ==> tx.inputs[k] in l.coins
  {
  }

  lemma {:induction false} ReadyIsFound(coins: CoinSet, entries: Entries, undo: seq<CoinEntry>, l: Ledger, tx: Transaction)
    requires ReadyToSpend(coins, entries, undo, l, tx)
    ensures Overlay(coins, entries) == l.coins
    ensures forall k :: 0 <= k < |tx.inputs| ==> tx.inputs[k] in entries
  {
  }

  lemma {:induction false} ScreenAgrees(coins: CoinSet, entries: Entries, l: Ledger, tx: Transaction, height: nat, rules: CoinRules)
    requires Overlay(coins, entries) == l.coins
    requires forall k :: 0 <= k < |tx.inputs| ==> tx.inputs[k] in entries
    ensures Pays(l.coins, tx) ==> (Screened(l.coins, tx, height, rules) <==>
      forall k :: 0 <= k < |tx.inputs| ==> Passes(entries[tx.inputs[k]].coin, tx, k, height, rules))
  {
    hide Overlay, Passes, InputTotal, OutputTotal;
    if Pays(l.coins, tx) {
      InputsFound(coins, entries, l, tx, height, rules);
    }
  }

  lemma {:induction false} AddKeeps(coins: CoinSet, was: Entries, now: Entries, undo: seq<CoinEntry>, l: Ledger, tx: Transaction, height: nat)
    requires Reads(coins, was, undo, l) && tx.hash != ZERO_HASH
    requires Added(was, now, tx, height)
    ensures Reads(coins, now, undo, Create(l, tx, height)) && Create(l, tx, height).fees == l.fees
    ensures CreatedIn(now) == CreatedIn(was) + Made(tx)
  {
    hide Overlay, Backed, LoadedSpent, Stored, Made, CoinOf, CoinsOf, CreatedIn, Added;
    AddReads(coins, was, now, l.coins, tx, height);
    AddBacked(coins, was, now, tx, height);
  }

  /** The same without screening, as a rebuild does it. */
  method RebuildTransaction(db: CoinDatabase, view: CoinView, tx: Transaction, height: nat, fees: nat, ghost l: Ledger)
    returns (r: Result<nat, CoinError>)
    requires SaneTransaction(tx) && !IsCoinbase(tx) && tx.hash != ZERO_HASH
    requires fees == l.fees && Reads(db.coins, view.entries, view.undo, l)
    modifies view
    ensures r.Ok? <==> Spendable(l, tx)
    ensures r.Ok? ==> var next := Create(Spend(l, tx), tx, height);
      r.value == next.fees && Reads(db.coins, view.entries, view.undo, next)
    ensures r.Ok? ==> CreatedIn(view.entries) == CreatedIn(old(view.entries)) + Made(tx)
  {
    hide *;
    ghost var was := view.entries;
    SpendFeesIf(l, tx);
    var found := LoadInputs(db, view, tx);
    if !found {
      MissingInput(db.coins, was, view.undo, l, tx);
      return Err(MissingCoin);
    }
    LoadedIsReady(db.coins, was, view.entries, view.undo, l, tx);
    var paid := PayAndSpend(view, tx, fees, db.coins, l);
    if paid.Err? {
      return paid;
    }
    was := view.entries;
    view.AddTransaction(tx, height);
    AddKeeps(db.coins, was, view.entries, view.undo, Spend(l, tx), tx, height);
    return paid;
  }

  // ---- One block ----

  lemma {:induction false} ApplyNext(coins: CoinSet, b: Block, i: nat, height: nat)
    requires i < |b| && Apply(coins, b, i, height).Some?
    ensures var l := Apply(coins, b, i, height).value;
      Apply(coins, b, i + 1, height) ==
        if i == 0 then Some(Create(l, b[0], height))
        else if Spendable(l, b[i]) then Some(Create(Spend(l, b[i]), b[i], height)) else None
  {
  }

  /** All spends up to transaction `n` pass the checks of a connect. */
  predicate ScreenedTo(coins: CoinSet, b: Block, n: nat, height: nat, rules: CoinRules)
    requires n <= |b|
  {
    n <= 1 ||
    (ScreenedTo(coins, b, n - 1, height, rules) &&
     (Apply(coins, b, n - 1, height).Some? && Pays(Apply(coins, b, n - 1, height).value.coins, b[n - 1]) ==>
        Screened(Apply(coins, b, n - 1, height).value.coins, b[n - 1], height, rules)))
  }

  lemma {:induction false} ScreenSticks(coins: CoinSet, b: Block, i: nat, n: nat, height: nat, rules: CoinRules)
    requires i <= n <= |b| && !ScreenedTo(coins, b, i, height, rules)
    ensures !ScreenedTo(coins, b, n, height, rules)
  {
    if i < n {
      ScreenSticks(coins, b, i, n - 1, height, rules);
    }
  }

  /** A block is acceptable on these coins. */
  predicate Acceptable(coins: CoinSet, b: Block, height: nat, rules: CoinRules)
    requires rules.interval > 0
  {
    SaneBlock(b) && ApplyBlock(coins, b, height, rules.interval).Some? && ScreenedTo(coins, b, |b|, height, rules)
  }

  lemma {:induction false} EmptyReads(coins: CoinSet)
    requires NULL_OUTPOINT !in coins
    ensures Reads(coins, map[], [], Ledger(coins, 0, []))
  {
  }

  lemma {:induction false} TransactionFacts(coins: CoinSet, b: Block, i: nat)
    requires SaneBlock(b) && RealIds(coins, b) && i < |b|
    ensures SaneTransaction(b[i]) && b[i].hash != ZERO_HASH && (i > 0 ==> !IsCoinbase(b[i]))
    ensures NULL_OUTPOINT !in coins
  {
  }

  lemma {:induction false} Refused(coins: CoinSet, b: Block, i: nat, height: nat, rules: CoinRules)
    requires 0 < i < |b| && SaneBlock(b) && rules.interval > 0 && Apply(coins, b, i, height).Some?
    requires var l := Apply(coins, b, i, height).value;
      !(Spendable(l, b[i]) && Screened(l.coins, b[i], height, rules))
    ensures !Acceptable(coins, b, height, rules)
  {
    hide Screened, Pays, Fee, Spend, Create, SaneBlock;
    ApplyNext(coins, b, i, height);
    if Apply(coins, b, i + 1, height) == None {
      FailureSticks(coins, b, i + 1, |b|, height);
    } else {
      ScreenSticks(coins, b, i + 1, |b|, height, rules);
    }
  }

  lemma {:induction false} ScreenedNext(coins: CoinSet, b: Block, i: nat, height: nat, rules: CoinRules)
    requires 0 < i < |b| && Apply(coins, b, i, height).Some? && ScreenedTo(coins, b, i, height, rules)
    requires var l := Apply(coins, b, i, height).value;
      Spendable(l, b[i]) && Screened(l.coins, b[i], height, rules)
    ensures ScreenedTo(coins, b, i + 1, height, rules)
  {
  }

  lemma {:induction false} Verdict(coins: CoinSet, b: Block, height: nat, rules: CoinRules)
    requires SaneBlock(b) && rules.interval > 0 && Apply(coins, b, |b|, height).Some?
    requires ScreenedTo(coins, b, |b|, height, rules)
    ensures b != []
    ensures var l := Apply(coins, b, |b|, height).value;
      && (Acceptable(coins, b, height, rules) <==> ClaimsAllowed(b, height, l.fees, rules.interval))
      && (Acceptable(coins, b, height, rules) ==> ApplyBlock(coins, b, height, rules.interval) == Some(l))
  {
  }

  lemma {:induction false} AcceptableInValue(coins: CoinSet, b: Block, height: nat, rules: CoinRules)
    requires rules.interval > 0
    ensures SaneBlock(b) && NewIds(coins, b) && ScreenedTo(coins, b, |b|, height, rules) ==>
      (Acceptable(coins, b, height, rules) <==> AddsAtMostSubsidy(coins, b, height, rules.interval))
  {
    hide NewIds, SaneBlock, AddsAtMostSubsidy, ScreenedTo, ApplyBlock;
    if SaneBlock(b) && NewIds(coins, b) {
      AppliesInValue(coins, b, height, rules.interval);
    }
  }

  /** Stored coins with an outpoint the block makes and spends again: they stay. */
  function Lingering(coins: CoinSet, b: Block, l: Ledger): CoinSet {
    Restrict(coins, MadeBy(b, |b|) - l.coins.Keys)
  }

  /** Stored coins with an outpoint the block makes and leaves: they are overwritten. */
  function Replaced(coins: CoinSet, b: Block, l: Ledger): CoinSet {
    Restrict(coins, MadeBy(b, |b|) * l.coins.Keys)
  }

  /**
   * Connects a block above genesis. It succeeds exactly for acceptable blocks that all other checks
   * admit. Then the undo record is that of the fold, the stored coins are those of the fold and the
   * lingering ones, and the counters count the stored coins and the replaced ones. In values: a sane
   * and admitted block of new ids that passes the screening is accepted if and only if it can be
   * applied and adds at most its subsidy.
   */
  method ConnectBlock(db: CoinDatabase, b: Block, height: nat, rules: CoinRules, admitted: bool) returns (r: Outcome<CoinError>)
    requires height > 0 && rules.interval > 0 && RealIds(db.coins, b)
    modifies db
    ensures r.Pass? <==> Acceptable(old(db.coins), b, height, rules) && admitted
    ensures r.Pass? ==> var l := ApplyBlock(old(db.coins), b, height, rules.interval).value;
      && db.coins == l.coins + Lingering(old(db.coins), b, l) && db.undos == old(db.undos)[height := l.undo]
      && (old(db.Counts(db.coins)) ==> CountBoth(db.coinCount, db.value, db.coins, Replaced(old(db.coins), b, l)))
    ensures r.Pass? ==> db.committedHeight == height && db.pendingHeight == None
    ensures r.Throw? ==> unchanged(db)
    ensures SaneBlock(b) && NewIds(old(db.coins), b) && ScreenedTo(old(db.coins), b, |b|, height, rules) && admitted ==>
      (r.Pass? <==> AddsAtMostSubsidy(old(db.coins), b, height, rules.interval))
  {
    hide *;
    AcceptableInValue(db.coins, b, height, rules);
    NotSane(db.coins, b, height, rules);
    var sane := CheckBody(b);
    if !sane {
      return Throw(MalformedBlock);
    }
    var view := new CoinView();
    var fees := 0;
    ghost var coins := db.coins;
    TransactionFacts(coins, b, 0);
    EmptyReads(coins);
    ApplyNone(coins, b, height);
    ApplyNext(coins, b, 0, height);
    ghost var l := Ledger(coins, 0, []);
    view.AddTransaction(b[0], height);
    AddKeeps(coins, map[], view.entries, [], l, b[0], height);
    l := Create(l, b[0], height);
    FirstMade(b);
    StartScreening(coins, b, height, rules);
    var i := 1;
    while i < |b|
      invariant 1 <= i <= |b| && fees == l.fees && unchanged(db) && fresh(view)
      invariant Apply(coins, b, i, height) == Some(l) && ScreenedTo(coins, b, i, height, rules)
      invariant Reads(coins, view.entries, view.undo, l) && CreatedIn(view.entries) == MadeBy(b, i)
    {
      TransactionFacts(coins, b, i);
      MadeNext(b, i);
      ApplyNext(coins, b, i, height);
      SpendFeesIf(l, b[i]);
      var step := ConnectTransaction(db, view, b[i], height, rules, fees, l);
      if step.Err? {
        Refused(coins, b, i, height, rules);
        return Throw(step.error);
      }
      ScreenedNext(coins, b, i, height, rules);
      fees := step.value;
      l := Create(Spend(l, b[i]), b[i], height);
      i := i + 1;
    }
    Verdict(coins, b, height, rules);
    var allowed := CheckCoinbaseValue(b, height, fees, rules.interval);
    if !allowed {
      return Throw(CoinbaseTooHigh);
    }
    if !admitted {
      return Throw(NotAdmitted);
    }
    SaveReads(coins, view.entries, view.undo, l, b);
    db.MarkPendingHeight(height);
    db.SaveView(view, height);
    return Pass;
  }

  lemma {:induction false} NotSane(coins: CoinSet, b: Block, height: nat, rules: CoinRules)
    requires rules.interval > 0
    ensures Acceptable(coins, b, height, rules) ==> SaneBlock(b)
    ensures SaneBlock(b) ==> b != []
  {
  }

  lemma {:induction false} StartScreening(coins: CoinSet, b: Block, height: nat, rules: CoinRules)
    requires b != []
    ensures ScreenedTo(coins, b, 1, height, rules)
  {
  }

  lemma {:induction false} FirstMade(b: Block)
    requires b != []
    ensures CreatedIn(map[]) + Made(b[0]) == MadeBy(b, 1)
  {
    hide Made;
  }

  lemma {:induction false} MadeNext(b: Block, i: nat)
    requires i < |b|
    ensures MadeBy(b, i + 1) == MadeBy(b, i) + Made(b[i])
  {
    hide Made;
  }

  /** What saving a view stores and counts, when it reads as the ledger after a block. */
  lemma {:induction false} SaveReads(coins: CoinSet, entries: Entries, undo: seq<CoinEntry>, l: Ledger, b: Block)
    requires Reads(coins, entries, undo, l) && CreatedIn(entries) == MadeBy(b, |b|)
    ensures Merged(coins, entries, entries.Keys) == l.coins + Lingering(coins, b, l) && Stored(undo) == l.undo
    ensures Backed(coins, entries) && Overwritten(coins, entries, entries.Keys) == Replaced(coins, b, l)
  {
    hide Merged, MadeBy, Stored;
    MergedIsOverlay(coins, entries);
    assert Hidden(coins, entries) == Lingering(coins, b, l);
  }

  /** Blocks whose ids are new to the store neither hide nor replace any coin. */
  lemma {:induction false} NewIdsExact(coins: CoinSet, b: Block, l: Ledger)
    requires NewIds(coins, b)
    ensures Lingering(coins, b, l) == map[] && Replaced(coins, b, l) == map[]
    ensures l.coins + Lingering(coins, b, l) == l.coins
  {
    hide NewIds;
    forall op | op in MadeBy(b, |b|)
      ensures op !in coins
    {
      MadeNotThere(coins, b, |b|, op);
    }
  }

  lemma {:induction false} MadeNotThere(coins: CoinSet, b: Block, n: nat, op: Outpoint)
    requires NewIds(coins, b) && n <= |b| && op in MadeBy(b, n)
    ensures op !in coins
  {
    if op in MadeBy(b, n - 1) {
      MadeNotThere(coins, b, n - 1, op);
    } else {
      assert NewId(coins, b[n - 1]);
    }
  }

  /** Connecting stores exactly the fold if and only if no coin lingers, and counts exactly if and only if none is replaced. */
  lemma {:induction false} ConnectedExactly(coins: CoinSet, b: Block, l: Ledger, n: nat, v: nat)
    requires CountBoth(n, v, l.coins + Lingering(coins, b, l), Replaced(coins, b, l))
    ensures var stored := l.coins + Lingering(coins, b, l);
      && (stored == l.coins <==> Lingering(coins, b, l) == map[])
      && (n == |stored| && v == Value(stored) <==> Replaced(coins, b, l) == map[])
  {
    hide MadeBy, Value;
    ExactIffNothingOverwritten(n, v, l.coins + Lingering(coins, b, l), Replaced(coins, b, l));
    forall op | op in Lingering(coins, b, l)
      ensures op in l.coins + Lingering(coins, b, l) && op !in l.coins
    {
    }
  }
}
