/**
 * Runs of the coin database: connecting, reorganizing with undo records or by a full rebuild
 * (Sources/Chain/Chain.swift, lines 703 to 850).
 */
module UtxoRuns {
  import opened Base
  import opened Covenants
  import opened Coins
  import opened CoinValue
  import opened CoinView
  import opened CoinUndo
  import opened CoinDatabase
  import opened UtxoChain

  // ---- The chain a database stands for ----

  /** Every block above genesis is sane, and its ids are new to the coins before it. */
  ghost predicate FreshIds(blocks: seq<Block>, interval: nat)
    requires interval > 0
  {
    forall h :: 1 <= h < |blocks| ==>
      SaneBlock(blocks[h]) && CoinsAt(blocks[..h], interval).Some? && NewIds(CoinsAt(blocks[..h], interval).value, blocks[h])
  }

  /** A chain of acceptable blocks with fresh ids. */
  ghost predicate ValidChain(blocks: seq<Block>, interval: nat) {
    interval > 0 && blocks != [] && CoinsAt(blocks, interval).Some? && FreshIds(blocks, interval)
  }

  /** The undo record connecting block `h` leaves. */
  ghost function UndoAt(blocks: seq<Block>, h: nat, interval: nat): seq<Coin>
    requires ValidChain(blocks, interval) && 0 < h < |blocks|
  {
    ChainPrefix(blocks, h + 1, interval);
    BlockOf(blocks, h, interval);
    ApplyBlock(CoinsAt(blocks[..h], interval).value, blocks[h], h, interval).value.undo
  }

  /** The store holds exactly the coins of the chain, exact counters, and no wrong undo record. */
  ghost predicate Represents(db: CoinDatabase, blocks: seq<Block>, interval: nat)
    reads db
  {
    && ValidChain(blocks, interval)
    && db.coins == CoinsAt(blocks, interval).value
    && db.Counts(db.coins)
    && db.committedHeight == |blocks| - 1
    && forall h: nat :: 0 < h < |blocks| && h in db.undos ==> db.undos[h] == UndoAt(blocks, h, interval)
  }

  lemma {:induction false} ChainPrefix(blocks: seq<Block>, n: nat, interval: nat)
    requires ValidChain(blocks, interval) && 0 < n <= |blocks|
    ensures ValidChain(blocks[..n], interval)
    decreases |blocks|
  {
    hide FreshIds, CoinsAt;
    if n < |blocks| {
      var last := |blocks| - 1;
      var front := blocks[..last];
      FrontValid(blocks, interval);
      ChainPrefix(front, n, interval);
      assert front[..n] == blocks[..n];
    } else {
      assert blocks[..n] == blocks;
    }
  }

  lemma {:induction false} FrontValid(blocks: seq<Block>, interval: nat)
    requires ValidChain(blocks, interval) && |blocks| > 1
    ensures ValidChain(blocks[..|blocks| - 1], interval)
  {
    hide NewIds, SaneBlock, ApplyBlock;
    var front := blocks[..|blocks| - 1];
    forall h | 1 <= h < |front|
      ensures SaneBlock(front[h]) && CoinsAt(front[..h], interval).Some?
      ensures NewIds(CoinsAt(front[..h], interval).value, front[h])
    {
      assert front[..h] == blocks[..h];
    }
  }

  /** Block `h` of a valid chain was acceptable on the coins before it. */
  lemma {:induction false} BlockOf(blocks: seq<Block>, h: nat, interval: nat)
    requires ValidChain(blocks, interval) && 0 < h < |blocks|
    ensures CoinsAt(blocks[..h], interval).Some? && blocks[h] != []
    ensures ApplyBlock(CoinsAt(blocks[..h], interval).value, blocks[h], h, interval).Some?
    ensures CoinsAt(blocks[..h + 1], interval)
         == Some(ApplyBlock(CoinsAt(blocks[..h], interval).value, blocks[h], h, interval).value.coins)
  {
    hide ApplyBlock, FreshIds;
    ChainPrefix(blocks, h + 1, interval);
    var upTo := blocks[..h + 1];
    assert upTo[..h] == blocks[..h] && upTo[h] == blocks[h];
    assert CoinsAt(upTo, interval).Some?;
  }

  // ---- Genesis ----

  ghost predicate OnlyCreated(entries: Entries) {
    forall op :: op in entries ==> entries[op].created && !entries[op].spent
  }

  lemma {:induction false} GenesisReads(was: Entries, now: Entries, tx: Transaction)
    requires OnlyCreated(was) && Added(was, now, tx, 0)
    ensures OnlyCreated(now) && Overlay(map[], now) == Overlay(map[], was) + CoinsOf(tx, 0)
  {
    hide CoinOf;
  }

  lemma {:induction false} CreatedIsSound(entries: Entries)
    requires OnlyCreated(entries)
    ensures Backed(map[], entries) && Overwritten(map[], entries, entries.Keys) == map[]
    ensures Merged(map[], entries, entries.Keys) == Overlay(map[], entries)
  {
    MergedIsOverlay(map[], entries);
  }

  lemma {:induction false} StoredNothing()
    ensures Stored([]) == [] && Overlay(map[], map[]) == map[] && OnlyCreated(map[])
  {
  }

  /** The genesis block is stored without any check. */
  method ConnectGenesis(db: CoinDatabase, b: Block)
    requires db.coins == map[]
    modifies db
    ensures db.coins == Genesis(b, |b|) && db.committedHeight == 0 && db.pendingHeight == None
    ensures db.undos == old(db.undos)[0 := []]
    ensures old(db.Counts(db.coins)) ==> db.Counts(db.coins)
  {
    hide Overlay, Merged, OnlyCreated, Backed, LoadedSpent, Stored, CoinsOf, Added, Overwritten, Value;
    var view := new CoinView();
    StoredNothing();
    var i := 0;
    while i < |b|
      invariant 0 <= i <= |b| && unchanged(db) && fresh(view) && view.undo == []
      invariant OnlyCreated(view.entries) && Overlay(map[], view.entries) == Genesis(b, i)
    {
      ghost var was := view.entries;
      view.AddTransaction(b[i], 0);
      GenesisReads(was, view.entries, b[i]);
      i := i + 1;
    }
    CreatedIsSound(view.entries);
    ghost var exact := db.Counts(db.coins);
    db.SaveView(view, 0);
    if exact {
      db.CountedOnce(db.coins);
    }
  }

  // ---- Rebuild ----

  /**
   * Replays one stored block: values are checked again, witnesses and ages are not. With new ids it
   * succeeds if and only if the block can be applied and adds at most its subsidy.
   */
  method RebuildBlock(db: CoinDatabase, b: Block, height: nat, interval: nat) returns (r: Outcome<CoinError>)
    requires height > 0 && interval > 0 && SaneBlock(b) && RealIds(db.coins, b)
    modifies db
    ensures r.Pass? <==> ApplyBlock(old(db.coins), b, height, interval).Some?
    ensures r.Pass? ==> var l := ApplyBlock(old(db.coins), b, height, interval).value;
      && db.coins == l.coins + Lingering(old(db.coins), b, l) && db.undos == old(db.undos)[height := l.undo]
      && (old(db.Counts(db.coins)) ==> CountBoth(db.coinCount, db.value, db.coins, Replaced(old(db.coins), b, l)))
    ensures r.Pass? ==> db.committedHeight == height && db.pendingHeight == None
    ensures r.Throw? ==> unchanged(db)
    ensures NewIds(old(db.coins), b) ==> (r.Pass? <==> AddsAtMostSubsidy(old(db.coins), b, height, interval))
  {
    hide *;
    var view := new CoinView();
    var fees := 0;
    ghost var coins := db.coins;
    if NewIds(coins, b) {
      AppliesInValue(coins, b, height, interval);
    }
    SaneNotEmpty(b);
    TransactionFacts(coins, b, 0);
    EmptyReads(coins);
    ApplyNone(coins, b, height);
    ApplyNext(coins, b, 0, height);
    ghost var l := Ledger(coins, 0, []);
    view.AddTransaction(b[0], height);
    AddKeeps(coins, map[], view.entries, [], l, b[0], height);
    l := Create(l, b[0], height);
    FirstMade(b);
    var i := 1;
    while i < |b|
      invariant 1 <= i <= |b| && fees == l.fees && unchanged(db) && fresh(view)
      invariant Apply(coins, b, i, height) == Some(l)
      invariant Reads(coins, view.entries, view.undo, l) && CreatedIn(view.entries) == MadeBy(b, i)
    {
      TransactionFacts(coins, b, i);
      MadeNext(b, i);
      ApplyNext(coins, b, i, height);
      SpendFeesIf(l, b[i]);
      var step := RebuildTransaction(db, view, b[i], height, fees, l);
      if step.Err? {
        FailureSticks(coins, b, i + 1, |b|, height);
        NotApplied(coins, b, height, interval);
        return Throw(step.error);
      }
      fees := step.value;
      l := Create(Spend(l, b[i]), b[i], height);
      i := i + 1;
    }
    Claimed(coins, b, height, interval);
    var allowed := CheckCoinbaseValue(b, height, fees, interval);
    if !allowed {
      return Throw(CoinbaseTooHigh);
    }
    SaveReads(coins, view.entries, view.undo, l, b);
    db.SaveView(view, height);
    return Pass;
  }

  lemma {:induction false} NotApplied(coins: CoinSet, b: Block, height: nat, interval: nat)
    requires b != [] && interval > 0 && Apply(coins, b, |b|, height) == None
    ensures ApplyBlock(coins, b, height, interval) == None
  {
  }

  lemma {:induction false} Claimed(coins: CoinSet, b: Block, height: nat, interval: nat)
    requires b != [] && interval > 0 && Apply(coins, b, |b|, height).Some?
    ensures var l := Apply(coins, b, |b|, height).value;
      ApplyBlock(coins, b, height, interval) == if ClaimsAllowed(b, height, l.fees, interval) then Some(l) else None
  {
  }

  lemma {:induction false} GenesisChain(b: Block, interval: nat)
    requires interval > 0
    ensures ValidChain([b], interval) && CoinsAt([b], interval).value == Genesis(b, |b|)
  {
  }

  lemma {:induction false} SaneNotEmpty(b: Block)
    requires SaneBlock(b)
    ensures b != []
  {
  }

  lemma {:induction false} CoinsAtMore(blocks: seq<Block>, b: Block, interval: nat)
    requires interval > 0 && blocks != [] && b != [] && CoinsAt(blocks, interval).Some?
    ensures CoinsAt(blocks + [b], interval) ==
      match ApplyBlock(CoinsAt(blocks, interval).value, b, |blocks|, interval)
      case None => None
      case Some(l) => Some(l.coins)
  {
    hide ApplyBlock;
    var longer := blocks + [b];
    assert longer[..|longer| - 1] == blocks && longer[|longer| - 1] == b;
  }

  lemma {:induction false} FreshMore(blocks: seq<Block>, b: Block, interval: nat)
    requires interval > 0 && blocks != [] && FreshIds(blocks, interval) && CoinsAt(blocks, interval).Some?
    requires SaneBlock(b) && NewIds(CoinsAt(blocks, interval).value, b)
    ensures FreshIds(blocks + [b], interval)
  {
    hide CoinsAt, SaneBlock, NewIds;
    var longer := blocks + [b];
    forall h | 1 <= h < |longer|
      ensures SaneBlock(longer[h]) && CoinsAt(longer[..h], interval).Some?
      ensures NewIds(CoinsAt(longer[..h], interval).value, longer[h])
    {
      if h < |blocks| {
        assert longer[..h] == blocks[..h];
      } else {
        assert longer[..h] == blocks;
      }
    }
  }

  lemma {:induction false} Extends(blocks: seq<Block>, b: Block, interval: nat)
    requires ValidChain(blocks, interval) && SaneBlock(b) && NewIds(CoinsAt(blocks, interval).value, b)
    requires ApplyBlock(CoinsAt(blocks, interval).value, b, |blocks|, interval).Some?
    ensures ValidChain(blocks + [b], interval)
    ensures CoinsAt(blocks + [b], interval)
         == Some(ApplyBlock(CoinsAt(blocks, interval).value, b, |blocks|, interval).value.coins)
  {
    SaneNotEmpty(b);
    hide CoinsAt, FreshIds, NewIds, ApplyBlock, SaneBlock;
    CoinsAtMore(blocks, b, interval);
    FreshMore(blocks, b, interval);
  }

  lemma {:induction false} UndoSame(blocks: seq<Block>, longer: seq<Block>, h: nat, interval: nat)
    requires ValidChain(blocks, interval) && ValidChain(longer, interval)
    requires 0 < h < |blocks| <= |longer| && longer[..|blocks|] == blocks
    ensures UndoAt(longer, h, interval) == UndoAt(blocks, h, interval)
  {
    hide ApplyBlock, FreshIds, CoinsAt;
    assert longer[..h] == blocks[..h];
    assert longer[h] == blocks[h];
  }

  lemma {:induction false} UndoLast(blocks: seq<Block>, interval: nat)
    requires ValidChain(blocks, interval) && |blocks| > 1
    ensures var h := |blocks| - 1;
      && CoinsAt(blocks[..h], interval).Some? && blocks[h] != []
      && ApplyBlock(CoinsAt(blocks[..h], interval).value, blocks[h], h, interval).Some?
      && UndoAt(blocks, h, interval) == ApplyBlock(CoinsAt(blocks[..h], interval).value, blocks[h], h, interval).value.undo
  {
    hide ApplyBlock, FreshIds, CoinsAt;
    BlockOf(blocks, |blocks| - 1, interval);
  }

  /** One more block, stored with its coins and its undo record. */
  lemma {:induction false} RepresentsMore(blocks: seq<Block>, b: Block, interval: nat, undos: map<nat, seq<Coin>>)
    requires ValidChain(blocks, interval) && SaneBlock(b) && NewIds(CoinsAt(blocks, interval).value, b)
    requires ApplyBlock(CoinsAt(blocks, interval).value, b, |blocks|, interval).Some?
    requires forall h: nat :: 0 < h < |blocks| && h in undos ==> undos[h] == UndoAt(blocks, h, interval)
    ensures var l, longer := ApplyBlock(CoinsAt(blocks, interval).value, b, |blocks|, interval).value, blocks + [b];
      && ValidChain(longer, interval) && CoinsAt(longer, interval) == Some(l.coins)
      && forall h: nat :: 0 < h < |longer| && h in undos[|blocks| := l.undo] ==>
           undos[|blocks| := l.undo][h] == UndoAt(longer, h, interval)
  {
    NotEmpty(blocks, interval);
    SaneNotEmpty(b);
    hide ApplyBlock, FreshIds, CoinsAt, UndoAt, ValidChain, NewIds, SaneBlock;
    Extends(blocks, b, interval);
    var longer := blocks + [b];
    assert longer[..|blocks|] == blocks && longer[|blocks|] == b;
    var l := ApplyBlock(CoinsAt(blocks, interval).value, b, |blocks|, interval).value;
    UndoLast(longer, interval);
    forall h: nat | 0 < h < |longer| && h in undos[|blocks| := l.undo]
      ensures undos[|blocks| := l.undo][h] == UndoAt(longer, h, interval)
    {
      if h < |blocks| {
        UndoSame(blocks, longer, h, interval);
      }
    }
  }

  lemma {:induction false} NotEmpty(blocks: seq<Block>, interval: nat)
    requires ValidChain(blocks, interval)
    ensures blocks != [] && interval > 0 && CoinsAt(blocks, interval).Some?
  {
  }

  lemma {:induction false} Facts(blocks: seq<Block>, h: nat, interval: nat)
    requires ValidChain(blocks, interval) && 0 < h < |blocks|
    ensures SaneBlock(blocks[h]) && CoinsAt(blocks[..h], interval).Some?
    ensures NewIds(CoinsAt(blocks[..h], interval).value, blocks[h])
  {
  }

  lemma {:induction false} InvalidStays(blocks: seq<Block>, n: nat, interval: nat)
    requires interval > 0 && 0 < n <= |blocks| && CoinsAt(blocks[..n], interval) == None
    ensures CoinsAt(blocks, interval) == None
    decreases |blocks|
  {
    hide ApplyBlock, Genesis;
    if n < |blocks| {
      var front := blocks[..|blocks| - 1];
      assert front[..n] == blocks[..n];
      InvalidStays(front, n, interval);
    } else {
      assert blocks[..n] == blocks;
    }
  }

  /** Sane blocks whose ids are new wherever the blocks before them can be replayed. */
  ghost predicate Replayable(blocks: seq<Block>, interval: nat) {
    && interval > 0 && blocks != []
    && (forall h :: 0 < h < |blocks| ==> SaneBlock(blocks[h]))
    && forall h :: 0 < h < |blocks| && CoinsAt(blocks[..h], interval).Some? ==>
         NewIds(CoinsAt(blocks[..h], interval).value, blocks[h])
  }

  lemma {:induction false} NextReplay(blocks: seq<Block>, h: nat, interval: nat)
    requires Replayable(blocks, interval) && 0 < h < |blocks| && ValidChain(blocks[..h], interval)
    ensures SaneBlock(blocks[h]) && blocks[h] != [] && CoinsAt(blocks[..h], interval).Some?
    ensures NewIds(CoinsAt(blocks[..h], interval).value, blocks[h])
    ensures ApplyBlock(CoinsAt(blocks[..h], interval).value, blocks[h], h, interval) == None ==>
      CoinsAt(blocks[..h + 1], interval) == None
    ensures blocks[..h] + [blocks[h]] == blocks[..h + 1]
  {
    hide NewIds, FreshIds, ApplyBlock, CoinsAt, SaneBlock;
    SaneNotEmpty(blocks[h]);
    assert blocks[..h] + [blocks[h]] == blocks[..h + 1];
    CoinsAtMore(blocks[..h], blocks[h], interval);
  }

  /** The heights with an undo record after replaying `n` blocks. */
  function Below(n: nat): set<nat> {
    if n == 0 then {} else Below(n - 1) + {n - 1}
  }

  lemma {:induction false} BelowNext(n: nat)
    ensures Below(n + 1) == Below(n) + {n}
  {
  }

  /**
   * Throws everything away and replays the stored blocks up to `height`. It gets as far as they can
   * be replayed on their own, and passes exactly when that is all the way.
   */
  method RebuildUtxo(db: CoinDatabase, blocks: seq<Block>, height: nat, interval: nat)
    returns (r: Outcome<CoinError>, done: nat)
    requires Replayable(blocks, interval) && height < |blocks|
    modifies db
    ensures 0 < done <= height + 1 && Represents(db, blocks[..done], interval)
    ensures db.pendingHeight == None && db.undos.Keys == Below(done)
    ensures r.Pass? <==> CoinsAt(blocks[..height + 1], interval).Some?
    ensures if r.Pass? then done == height + 1 else done <= height && CoinsAt(blocks[..done + 1], interval) == None
  {
    hide *;
    StartReplay(blocks, interval);
    StartFresh(db, blocks[0], interval);
    assert blocks[..1] == [blocks[0]];
    var h := 1;
    while h <= height
      invariant 1 <= h <= height + 1 && Represents(db, blocks[..h], interval) && db.pendingHeight == None
      invariant db.undos.Keys == Below(h)
    {
      var replayed := ReplayNext(db, blocks, h, interval);
      if replayed.Throw? {
        assert blocks[..height + 1][..h + 1] == blocks[..h + 1];
        InvalidStays(blocks[..height + 1], h + 1, interval);
        return replayed, h;
      }
      h := h + 1;
    }
    IsValid(db, blocks[..height + 1], interval);
    NotEmpty(blocks[..height + 1], interval);
    return Pass, h;
  }

  method StartFresh(db: CoinDatabase, genesis: Block, interval: nat)
    requires interval > 0
    modifies db
    ensures Represents(db, [genesis], interval) && db.pendingHeight == None && db.undos.Keys == Below(1)
  {
    hide CoinsAt, Genesis, Value;
    db.Reset();
    GenesisChain(genesis, interval);
    ConnectGenesis(db, genesis);
  }

  method ReplayNext(db: CoinDatabase, blocks: seq<Block>, h: nat, interval: nat) returns (r: Outcome<CoinError>)
    requires Replayable(blocks, interval) && 0 < h < |blocks| && Represents(db, blocks[..h], interval)
    requires db.pendingHeight == None && db.undos.Keys == Below(h)
    modifies db
    ensures r.Pass? ==> Represents(db, blocks[..h + 1], interval) && db.undos.Keys == Below(h + 1)
    ensures r.Throw? ==> unchanged(db) && CoinsAt(blocks[..h + 1], interval) == None
    ensures db.pendingHeight == None
  {
    hide CoinsAt, ApplyBlock, ValidChain, SaneBlock, UndoAt, NewIds, RealIds, Value, Replayable, Lingering, Replaced, CountBoth,
      Below, CoinDatabase.Counts;
    NotEmpty(blocks[..h], interval);
    BelowNext(h);
    NextReplay(blocks, h, interval);
    ghost var undos, coins := db.undos, db.coins;
    NewIsReal(coins, blocks[h]);
    r := RebuildBlock(db, blocks[h], h, interval);
    if r.Pass? {
      NewIdsExact(coins, blocks[h], ApplyBlock(coins, blocks[h], h, interval).value);
      db.CountedOnce(db.coins);
      RepresentsMore(blocks[..h], blocks[h], interval, undos);
    }
  }

  lemma {:induction false} StartReplay(blocks: seq<Block>, interval: nat)
    requires Replayable(blocks, interval)
    ensures interval > 0 && blocks != []
  {
  }

  // ---- Disconnect ----

  /** The topmost block and its undo record are what the store was made with. */
  lemma {:induction false} TipConnected(blocks: seq<Block>, interval: nat, undo: seq<Coin>)
    requires ValidChain(blocks, interval) && |blocks| > 1
    requires undo == UndoAt(blocks, |blocks| - 1, interval)
    ensures var h := |blocks| - 1;
      && ValidChain(blocks[..h], interval) && blocks[h] != []
      && Connection(CoinsAt(blocks[..h], interval).value, blocks[h], h, CoinsAt(blocks, interval).value, undo)
  {
    hide FreshIds, CoinsAt, NewIds, SaneBlock, Apply, ValidChain, UndoAt, ClaimsAllowed;
    var h := |blocks| - 1;
    NotEmpty(blocks, interval);
    Facts(blocks, h, interval);
    BlockOf(blocks, h, interval);
    UndoLast(blocks, interval);
    FrontValid(blocks, interval);
    assert blocks[..h + 1] == blocks;
  }

  lemma {:induction false} UndosBelow(blocks: seq<Block>, interval: nat, undos: map<nat, seq<Coin>>)
    requires ValidChain(blocks, interval) && |blocks| > 1 && ValidChain(blocks[..|blocks| - 1], interval)
    requires forall h: nat :: 0 < h < |blocks| && h in undos ==> undos[h] == UndoAt(blocks, h, interval)
    ensures var front := blocks[..|blocks| - 1];
      forall h: nat :: 0 < h < |front| && h in undos - {|blocks| - 1} ==>
        (undos - {|blocks| - 1})[h] == UndoAt(front, h, interval)
  {
    hide UndoAt, ValidChain;
    var front := blocks[..|blocks| - 1];
    forall h: nat | 0 < h < |front| && h in undos
      ensures undos[h] == UndoAt(front, h, interval)
    {
      UndoSame(front, blocks, h, interval);
    }
  }

  /**
   * Undoing the topmost block brings back the chain below it exactly when the block has no
   * phantoms; the counters stay exact in any case. Only a missing undo record makes it fail.
   */
  method DisconnectTip(db: CoinDatabase, blocks: seq<Block>, interval: nat) returns (r: Outcome<CoinError>)
    requires Represents(db, blocks, interval) && |blocks| > 1
    modifies db
    ensures r.Throw? <==> |blocks| - 1 !in old(db.undos)
    ensures r.Throw? ==> unchanged(db)
    ensures blocks[|blocks| - 1] != []
    ensures r.Pass? ==> db.Counts(db.coins)
    ensures r.Pass? ==> (Represents(db, blocks[..|blocks| - 1], interval) <==> Phantoms(blocks[|blocks| - 1]) == {})
  {
    hide CoinsAt, ApplyBlock, FreshIds, UndoAt, Value, Connection, InBlockSpends, Restrict, Phantoms, SaneBlock;
    var h := |blocks| - 1;
    Facts(blocks, h, interval);
    SaneNotEmpty(blocks[h]);
    FrontValid(blocks, interval);
    ghost var before := CoinsAt(blocks[..h], interval).value;
    if h in db.undos {
      TipConnected(blocks, interval, db.undos[h]);
      UndoExact(before, blocks[h], h, db.coins, db.undos[h]);
      UndosBelow(blocks, interval, db.undos);
    }
    r := db.DisconnectBlock(blocks[h], h, before);
  }

  lemma {:induction false} IsValid(db: CoinDatabase, blocks: seq<Block>, interval: nat)
    requires Represents(db, blocks, interval)
    ensures ValidChain(blocks, interval) && blocks != []
  {
  }

  lemma {:induction false} AcceptableApplies(coins: CoinSet, b: Block, height: nat, rules: CoinRules)
    requires rules.interval > 0 && Acceptable(coins, b, height, rules)
    ensures SaneBlock(b) && b != [] && ApplyBlock(coins, b, height, rules.interval).Some?
  {
  }
}
