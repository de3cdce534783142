/**
 * Reorganizations of the coin database, over blocks with phantoms too
 * (Sources/Chain/Chain.swift, lines 697 to 850; Sources/Chain/CoinDatabase.swift, lines 244 to 332).
 *
 * Undoing a block with phantoms leaves their coins behind. These strays stay in the store, on top of
 * the coins of the shorter chain, and later blocks are connected on what is stored.
 */
module UtxoReorgs {
  import opened Base
  import opened Covenants
  import opened Coins
  import opened CoinUndo
  import opened CoinDatabase
  import opened UtxoRuns

  // ---- Coins that a block leaves alone ----

  lemma {:induction false} InputsFrame(c: CoinSet, s: CoinSet, inputs: seq<Outpoint>, n: nat)
    requires n <= |inputs| && c.Keys !! s.Keys && forall k :: 0 <= k < |inputs| ==> inputs[k] in c
    ensures InputTotal(c + s, inputs, n) == InputTotal(c, inputs, n)
    ensures Taken(c + s, inputs, n) == Taken(c, inputs, n)
  {
    if n > 0 {
      InputsFrame(c, s, inputs, n - 1);
      assert inputs[n - 1] in c && (c + s)[inputs[n - 1]] == c[inputs[n - 1]];
    }
  }

  lemma {:induction false} SpendFrame(l: Ledger, s: CoinSet, tx: Transaction)
    requires Pays(l.coins, tx) && l.coins.Keys !! s.Keys
    ensures Pays(l.coins + s, tx) && Fee(l.coins + s, tx) == Fee(l.coins, tx)
    ensures var spent := Spend(l, tx);
      Spend(l.(coins := l.coins + s), tx) == spent.(coins := spent.coins + s) && spent.coins.Keys !! s.Keys
  {
    hide InputTotal, OutputTotal, Taken;
    InputsFrame(l.coins, s, tx.inputs, |tx.inputs|);
    assert (l.coins + s) - SpentBy(tx) == (l.coins - SpentBy(tx)) + s;
  }

  lemma {:induction false} CreateFrame(l: Ledger, s: CoinSet, tx: Transaction, height: nat)
    requires l.coins.Keys !! s.Keys && forall op :: op in s ==> op.hash != tx.hash
    ensures var created := Create(l, tx, height);
      Create(l.(coins := l.coins + s), tx, height) == created.(coins := created.coins + s) && created.coins.Keys !! s.Keys
  {
    hide CoinOf;
    assert (l.coins + s) + CoinsOf(tx, height) == (l.coins + CoinsOf(tx, height)) + s;
  }

  /** Coins a block neither finds nor names are there after it as before it, and change nothing else. */
  lemma {:induction false} ApplyFrame(c: CoinSet, s: CoinSet, b: Block, n: nat, height: nat)
    requires n <= |b| && Apply(c, b, n, height).Some?
    requires c.Keys !! s.Keys && forall op :: op in s ==> op.hash !in Ids(b)
    ensures var l := Apply(c, b, n, height).value;
      l.coins.Keys !! s.Keys && Apply(c + s, b, n, height) == Some(l.(coins := l.coins + s))
  {
    if n > 0 {
      ApplyFrame(c, s, b, n - 1, height);
      assert forall op :: op in s ==> op.hash != b[n - 1].hash;
      hide Pays, Fee, Spend, Create, Ids;
      var l := Apply(c, b, n - 1, height).value;
      if n == 1 {
        CreateFrame(l, s, b[0], height);
      } else {
        SpendFrame(l, s, b[n - 1]);
        SpendKeepsFees(l, s, b[n - 1]);
        CreateFrame(Spend(l, b[n - 1]), s, b[n - 1], height);
      }
    }
  }

  lemma {:induction false} SpendKeepsFees(l: Ledger, s: CoinSet, tx: Transaction)
    requires Pays(l.coins, tx)
    ensures l.(coins := l.coins + s).fees == l.fees && l.(coins := l.coins + s).coins == l.coins + s
  {
  }

  ghost predicate Submap(a: CoinSet, b: CoinSet) {
    forall op :: op in a ==> op in b && b[op] == a[op]
  }

  /** A block acceptable on fewer coins too leaves fewer coins there. */
  lemma {:induction false} ApplySubmap(a: CoinSet, c: CoinSet, b: Block, n: nat, height: nat)
    requires n <= |b| && Submap(a, c) && Apply(a, b, n, height).Some? && Apply(c, b, n, height).Some?
    ensures Submap(Apply(a, b, n, height).value.coins, Apply(c, b, n, height).value.coins)
  {
    hide Pays, Fee, CoinsOf, SpentBy, Taken;
    if n > 0 {
      ApplyStep(a, b, n - 1, height);
      ApplyStep(c, b, n - 1, height);
      ApplySubmap(a, c, b, n - 1, height);
    }
  }

  // ---- Levels ----

  /** A connected block, the stored coins it was connected to, and the strays left on top of it since. */
  datatype Level = Level(block: Block, before: CoinSet, strays: CoinSet)

  function Applied(l: Level, h: nat, interval: nat): Ledger
    requires interval > 0
  {
    if l.block == [] then Ledger(map[], 0, [])
    else match ApplyBlock(l.before, l.block, h, interval) case None => Ledger(map[], 0, []) case Some(x) => x
  }

  function Folded(l: Level, h: nat, interval: nat): CoinSet
    requires interval > 0
  {
    if h == 0 then Genesis(l.block, |l.block|) else Applied(l, h, interval).coins
  }

  function Top(l: Level, h: nat, interval: nat): CoinSet
    requires interval > 0
  {
    Folded(l, h, interval) + l.strays
  }

  /** Real coins, none of which the block was connected to or made. */
  ghost predicate Clear(s: CoinSet, l: Level) {
    NULL_OUTPOINT !in s && s.Keys !! l.before.Keys && forall op :: op in s ==> op.hash !in Ids(l.block)
  }

  ghost predicate Apart(l: Level, h: nat, interval: nat)
    requires interval > 0
  {
    l.strays.Keys !! Folded(l, h, interval).Keys
  }

  ghost predicate Joined(levels: seq<Level>, h: nat, interval: nat)
    requires interval > 0 && 0 < h < |levels|
  {
    && levels[h].before == Top(levels[h - 1], h - 1, interval)
    && SaneBlock(levels[h].block) && NewIds(levels[h].before, levels[h].block)
    && ApplyBlock(levels[h].before, levels[h].block, h, interval).Some?
  }

  /** Every block was accepted on the coins stored below it; strays are nothing the blocks under them knew. */
  ghost predicate Sound(levels: seq<Level>, interval: nat) {
    && interval > 0 && levels != [] && levels[0].before == map[]
    && (forall h :: 0 < h < |levels| ==> Joined(levels, h, interval))
    && (forall h :: 0 <= h < |levels| ==> Apart(levels[h], h, interval))
    && forall j, h :: 0 < j <= h < |levels| ==> Clear(levels[h].strays, levels[j])
  }

  function TopOf(levels: seq<Level>, interval: nat): CoinSet
    requires interval > 0 && levels != []
  {
    Top(levels[|levels| - 1], |levels| - 1, interval)
  }

  /** The store holds exactly the coins on top of these levels, exact counters, and no wrong undo record. */
  ghost predicate Stands(db: CoinDatabase, levels: seq<Level>, interval: nat)
    reads db
  {
    && Sound(levels, interval)
    && db.coins == TopOf(levels, interval)
    && db.Counts(db.coins)
    && db.committedHeight == |levels| - 1
    && forall h: nat :: 0 < h < |levels| && h in db.undos ==> db.undos[h] == Applied(levels[h], h, interval).undo
  }

  function BlocksOf(levels: seq<Level>): (blocks: seq<Block>)
    ensures |blocks| == |levels| && forall h :: 0 <= h < |levels| ==> blocks[h] == levels[h].block
  {
    if levels == [] then [] else BlocksOf(levels[..|levels| - 1]) + [levels[|levels| - 1].block]
  }

  // ---- Going back one block ----

  /** The coins of a level's phantoms. */
  function PhantomCoins(l: Level, h: nat, interval: nat): CoinSet
    requires interval > 0
  {
    if l.block == [] then map[] else Restrict(Applied(l, h, interval).coins, Phantoms(l.block))
  }

  /** What is above level `h`: the strays and phantoms of all levels above, still there after undoing them. */
  function LeftAbove(levels: seq<Level>, h: nat, interval: nat): CoinSet
    requires interval > 0 && h < |levels|
    decreases |levels| - h
  {
    if h + 1 == |levels| then map[]
    else levels[h + 1].strays + LeftAbove(levels, h + 1, interval) + PhantomCoins(levels[h + 1], h + 1, interval)
  }

  /** The levels up to `h`, with everything the levels above leave behind. */
  function Cut(levels: seq<Level>, h: nat, interval: nat): (cut: seq<Level>)
    requires interval > 0 && h < |levels|
    ensures |cut| == h + 1
  {
    levels[..h] + [levels[h].(strays := levels[h].strays + LeftAbove(levels, h, interval))]
  }

  /** No transaction above `height` has an id, or an output, that was there earlier in the chain. */
  ghost predicate OwnPhantoms(levels: seq<Level>, height: nat, interval: nat) {
    interval > 0 && forall j, m :: 0 < j < m < |levels| && height < m ==> Clear(PhantomCoins(levels[m], m, interval), levels[j])
  }

  lemma {:induction false} LeftClear(levels: seq<Level>, h: nat, j: nat, interval: nat)
    requires Sound(levels, interval) && 0 < j <= h < |levels| && OwnPhantoms(levels, h, interval)
    ensures Clear(LeftAbove(levels, h, interval), levels[j])
    decreases |levels| - h
  {
    hide Joined, PhantomCoins, Ids;
    if h + 1 < |levels| {
      LeftClear(levels, h + 1, j, interval);
      assert Clear(levels[h + 1].strays, levels[j]);
      assert Clear(PhantomCoins(levels[h + 1], h + 1, interval), levels[j]);
    }
  }

  /** Nothing left above a level is among the coins the next block was connected to. */
  lemma {:induction false} LeftApart(levels: seq<Level>, h: nat, interval: nat)
    requires Sound(levels, interval) && h + 1 < |levels| && OwnPhantoms(levels, h, interval)
    ensures LeftAbove(levels, h, interval).Keys !! levels[h + 1].before.Keys
  {
    hide Joined, PhantomCoins, Ids, Apart;
    LeftClear(levels, h + 1, h + 1, interval);
    assert Clear(levels[h + 1].strays, levels[h + 1]);
    PhantomsNew(levels, h + 1, interval);
  }

  /** The phantoms of a block were not there before it. */
  lemma {:induction false} PhantomsNew(levels: seq<Level>, h: nat, interval: nat)
    requires Sound(levels, interval) && 0 < h < |levels|
    ensures PhantomCoins(levels[h], h, interval).Keys !! levels[h].before.Keys
    ensures forall op :: op in PhantomCoins(levels[h], h, interval) ==> op.hash in Ids(levels[h].block)
    ensures levels[h].block != []
    ensures PhantomCoins(levels[h], h, interval).Keys == Phantoms(levels[h].block)
  {
    hide Clear, Apart, Phantoms, Ids, Apply, ClaimsAllowed;
    assert Joined(levels, h, interval);
    SaneNotEmpty(levels[h].block);
    var l := levels[h];
    var x := Applied(l, h, interval);
    assert Connection(l.before, l.block, h, x.coins, x.undo);
    hide Connection;
    forall op
      ensures op in InBlockSpends(l.block, |l.block|) && op in x.coins <==> op in Phantoms(l.block)
      ensures op in Phantoms(l.block) ==> op !in l.before && op.hash in Ids(l.block)
    {
      PassedOverIsPhantom(l.before, l.block, h, x.coins, x.undo, op);
      PhantomHasId(l.block, op);
    }
  }

  lemma {:induction false} PhantomHasId(b: Block, op: Outpoint)
    requires b != []
    ensures op in Phantoms(b) ==> op.hash in Ids(b)
  {
    if op in Phantoms(b) {
      MadeHasId(b, op);
    }
  }

  lemma {:induction false} CutSound(levels: seq<Level>, h: nat, interval: nat)
    requires Sound(levels, interval) && h < |levels| && OwnPhantoms(levels, h, interval)
    ensures Sound(Cut(levels, h, interval), interval)
  {
    hide Clear, PhantomCoins, Ids;
    var cut := Cut(levels, h, interval);
    forall k | 0 < k < |cut|
      ensures Joined(cut, k, interval)
    {
      assert Joined(levels, k, interval);
    }
    forall j, k | 0 < j <= k < |cut|
      ensures Clear(cut[k].strays, cut[j])
    {
      assert Clear(levels[k].strays, levels[j]);
      if k == h {
        LeftClear(levels, h, j, interval);
        BothClear(levels[h].strays, LeftAbove(levels, h, interval), levels[j]);
      }
      if j == h {
        ClearSame(cut[k].strays, levels[j], cut[j]);
      }
    }
    forall k | 0 <= k < |cut|
      ensures Apart(cut[k], k, interval)
    {
      assert Apart(levels[k], k, interval);
      if k == h {
        CutApart(levels, h, interval);
      }
    }
  }

  lemma {:induction false} CutApart(levels: seq<Level>, h: nat, interval: nat)
    requires Sound(levels, interval) && h < |levels| && OwnPhantoms(levels, h, interval)
    ensures Apart(Cut(levels, h, interval)[h], h, interval)
    ensures LeftAbove(levels, h, interval).Keys !! Top(levels[h], h, interval).Keys
  {
    hide Clear, PhantomCoins, Ids, Applied;
    assert Apart(levels[h], h, interval);
    FoldedSame(levels[h], Cut(levels, h, interval)[h], h, interval);
    hide Folded;
    if h + 1 < |levels| {
      LeftApart(levels, h, interval);
      assert Joined(levels, h + 1, interval);
    }
  }

  lemma {:induction false} BothClear(a: CoinSet, b: CoinSet, l: Level)
    requires Clear(a, l) && Clear(b, l)
    ensures Clear(a + b, l)
  {
    hide Ids;
  }

  lemma {:induction false} ClearSame(s: CoinSet, l: Level, m: Level)
    requires Clear(s, l) && m.block == l.block && m.before == l.before
    ensures Clear(s, m)
  {
  }

  /** The top block was connected, with its present strays already there, to what is stored below. */
  lemma {:induction false} TopConnected(levels: seq<Level>, interval: nat)
    requires Sound(levels, interval) && |levels| > 1
    ensures var h := |levels| - 1;
      var l := levels[h];
      Connection(l.before + l.strays, l.block, h, TopOf(levels, interval), Applied(l, h, interval).undo)
  {
    hide Apply, SaneBlock, ClaimsAllowed, Ids;
    var h := |levels| - 1;
    var l := levels[h];
    assert Joined(levels, h, interval) && Clear(l.strays, l);
    assert SaneBlock(l.block);
    SaneNotEmpty(l.block);
    ApplyFrame(l.before, l.strays, l.block, |l.block|, h);
    NewWithStrays(l);
  }

  lemma {:induction false} NewWithStrays(l: Level)
    requires NewIds(l.before, l.block) && Clear(l.strays, l)
    ensures NewIds(l.before + l.strays, l.block)
  {
    forall i | 0 <= i < |l.block|
      ensures NewId(l.before + l.strays, l.block[i])
    {
      assert NewId(l.before, l.block[i]);
      assert l.block[i].hash in Ids(l.block);
    }
  }

  /** The coins after undoing the top block, in terms of the levels below. */
  lemma {:induction false} LoweredCoins(levels: seq<Level>, interval: nat)
    requires Sound(levels, interval) && |levels| > 1
    ensures var h := |levels| - 1;
      var l := levels[h];
      l.before + l.strays + Restrict(TopOf(levels, interval), InBlockSpends(l.block, |l.block|))
        == TopOf(Cut(levels, h - 1, interval), interval)
  {
    hide Apply, SaneBlock, ClaimsAllowed, Connection, InBlockSpends, Clear, Applied;
    var h := |levels| - 1;
    var l := levels[h];
    assert Joined(levels, h, interval) && Clear(l.strays, l);
    TopConnected(levels, interval);
    PhantomsNew(levels, h, interval);
    UndoExact(l.before + l.strays, l.block, h, TopOf(levels, interval), Applied(l, h, interval).undo);
    PhantomsOfTop(l, h, interval);
    assert LeftAbove(levels, h, interval) == map[];
    CutTop(levels, interval);
  }

  lemma {:induction false} CutTop(levels: seq<Level>, interval: nat)
    requires interval > 0 && |levels| > 1
    requires var h := |levels| - 1; levels[h].before == Top(levels[h - 1], h - 1, interval)
    ensures var h := |levels| - 1;
      levels[h].before + levels[h].strays + PhantomCoins(levels[h], h, interval) == TopOf(Cut(levels, h - 1, interval), interval)
  {
    hide Folded, PhantomCoins;
    var h := |levels| - 1;
    assert LeftAbove(levels, h, interval) == map[];
    var f, s, t, p := Folded(levels[h - 1], h - 1, interval), levels[h - 1].strays, levels[h].strays, PhantomCoins(levels[h], h, interval);
    FoldedSame(levels[h - 1], Cut(levels, h - 1, interval)[h - 1], h - 1, interval);
    assert LeftAbove(levels, h - 1, interval) == t + map[] + p;
    assert f + s + t + p == f + (s + (t + map[] + p));
  }

  lemma {:induction false} FoldedSame(l: Level, m: Level, h: nat, interval: nat)
    requires interval > 0 && l.block == m.block && l.before == m.before
    ensures Folded(l, h, interval) == Folded(m, h, interval)
  {
  }

  lemma {:induction false} PhantomsOfTop(l: Level, h: nat, interval: nat)
    requires interval > 0 && l.block != [] && h > 0 && Clear(l.strays, l)
    ensures Restrict(Top(l, h, interval), Phantoms(l.block)) == PhantomCoins(l, h, interval)
  {
    hide Ids, Phantoms, Applied;
    forall op | op in Phantoms(l.block)
      ensures op !in l.strays
    {
      PhantomHasId(l.block, op);
    }
  }

  lemma {:induction false} StandsSound(db: CoinDatabase, levels: seq<Level>, interval: nat)
    requires Stands(db, levels, interval)
    ensures Sound(levels, interval) && interval > 0 && levels != []
  {
  }

  /** Cutting twice is cutting once. */
  lemma {:induction false} CutMore(levels: seq<Level>, h: nat, interval: nat)
    requires interval > 0 && h + 1 < |levels|
    ensures Cut(Cut(levels, h + 1, interval), h, interval) == Cut(levels, h, interval)
  {
    hide PhantomCoins;
    var cut := Cut(levels, h + 1, interval);
    assert LeftAbove(cut, h + 1, interval) == map[];
    PhantomsSame(levels[h + 1], cut[h + 1], h + 1, interval);
    var s, l, p := levels[h + 1].strays, LeftAbove(levels, h + 1, interval), PhantomCoins(levels[h + 1], h + 1, interval);
    assert LeftAbove(cut, h, interval) == (s + l) + map[] + p;
    assert LeftAbove(cut, h, interval) == LeftAbove(levels, h, interval);
  }

  lemma {:induction false} PhantomsSame(l: Level, m: Level, h: nat, interval: nat)
    requires interval > 0 && l.block == m.block && l.before == m.before
    ensures PhantomCoins(l, h, interval) == PhantomCoins(m, h, interval)
  {
  }

  /** The assumption survives going back. */
  lemma {:induction false} CutOwn(levels: seq<Level>, h: nat, height: nat, interval: nat)
    requires height <= h < |levels| && OwnPhantoms(levels, height, interval)
    ensures OwnPhantoms(Cut(levels, h, interval), height, interval)
  {
    hide PhantomCoins;
    var cut := Cut(levels, h, interval);
    forall j, m | 0 < j < m < |cut| && height < m
      ensures Clear(PhantomCoins(cut[m], m, interval), cut[j])
    {
      PhantomsSame(levels[m], cut[m], m, interval);
      ClearSame(PhantomCoins(levels[m], m, interval), levels[j], cut[j]);
    }
  }

  /**
   * Undoes the top block: its strays and phantoms stay on top of the level below. Only a missing undo
   * record makes it fail.
   */
  method UndoTop(db: CoinDatabase, block: Block, height: nat, ghost levels: seq<Level>, interval: nat)
    returns (r: Outcome<CoinError>)
    requires Stands(db, levels, interval) && 0 < height == |levels| - 1 && block == levels[height].block
    requires OwnPhantoms(levels, height - 1, interval)
    modifies db
    ensures r.Throw? <==> height !in old(db.undos)
    ensures r.Throw? ==> unchanged(db)
    ensures r.Pass? ==> Stands(db, Cut(levels, height - 1, interval), interval)
    ensures r.Pass? ==> db.undos == old(db.undos) - {height}
  {
    hide Sound, TopOf, Cut, Connection, InBlockSpends, Restrict, Applied, OwnPhantoms, Value;
    StandsSound(db, levels, interval);
    TopConnected(levels, interval);
    LoweredCoins(levels, interval);
    CutSound(levels, height - 1, interval);
    CutUndos(levels, interval);
    r := db.DisconnectBlock(block, height, levels[height].before + levels[height].strays);
  }

  lemma {:induction false} CutUndos(levels: seq<Level>, interval: nat)
    requires interval > 0 && |levels| > 1
    ensures var cut := Cut(levels, |levels| - 2, interval);
      forall h: nat :: h < |cut| ==> Applied(cut[h], h, interval) == Applied(levels[h], h, interval)
  {
  }

  // ---- Chains without strays ----

  /** The levels of a chain each of whose blocks was accepted on the plain coins below it. */
  function PlainLevels(blocks: seq<Block>, interval: nat): (levels: seq<Level>)
    requires interval > 0
    ensures |levels| == |blocks|
  {
    if blocks == [] then []
    else
      var front := blocks[..|blocks| - 1];
      var before := if front == [] || CoinsAt(front, interval) == None then map[] else CoinsAt(front, interval).value;
      PlainLevels(front, interval) + [Level(blocks[|blocks| - 1], before, map[])]
  }

  lemma {:induction false} PlainPrefix(blocks: seq<Block>, n: nat, interval: nat)
    requires interval > 0 && n <= |blocks|
    ensures PlainLevels(blocks[..n], interval) == PlainLevels(blocks, interval)[..n]
    decreases |blocks|
  {
    hide CoinsAt;
    if n < |blocks| {
      var front := blocks[..|blocks| - 1];
      assert front[..n] == blocks[..n];
      PlainPrefix(front, n, interval);
    } else {
      assert blocks[..n] == blocks;
    }
  }

  lemma {:induction false} PlainLevel(blocks: seq<Block>, h: nat, interval: nat)
    requires interval > 0 && h < |blocks|
    ensures var l := PlainLevels(blocks, interval)[h];
      && l.block == blocks[h] && l.strays == map[]
      && (h == 0 ==> l.before == map[])
      && (h > 0 && CoinsAt(blocks[..h], interval).Some? ==> l.before == CoinsAt(blocks[..h], interval).value)
  {
    hide CoinsAt;
    PlainPrefix(blocks, h + 1, interval);
    var upTo := blocks[..h + 1];
    assert upTo[..h] == blocks[..h] && upTo[h] == blocks[h];
    assert PlainLevels(blocks, interval)[h] == PlainLevels(upTo, interval)[h];
  }

  lemma {:induction false} TopPlain(l: Level, h: nat, interval: nat)
    requires interval > 0
    ensures l.strays == map[] ==> Top(l, h, interval) == Folded(l, h, interval)
  {
    hide Folded;
  }

  lemma {:induction false} AppliedSome(l: Level, h: nat, interval: nat)
    requires interval > 0 && h > 0 && l.block != [] && ApplyBlock(l.before, l.block, h, interval).Some?
    ensures ApplyBlock(l.before, l.block, h, interval) == Some(Applied(l, h, interval))
    ensures Folded(l, h, interval) == Applied(l, h, interval).coins
  {
    hide ApplyBlock;
  }

  lemma {:induction false} UndoIs(blocks: seq<Block>, h: nat, before: CoinSet, interval: nat)
    requires ValidChain(blocks, interval) && 0 < h < |blocks| && blocks[h] != []
    requires CoinsAt(blocks[..h], interval) == Some(before) && ApplyBlock(before, blocks[h], h, interval).Some?
    ensures UndoAt(blocks, h, interval) == ApplyBlock(before, blocks[h], h, interval).value.undo
  {
    hide CoinsAt, ApplyBlock, ValidChain;
  }

  lemma {:induction false} PlainTop(blocks: seq<Block>, h: nat, interval: nat)
    requires ValidChain(blocks, interval) && h < |blocks|
    ensures CoinsAt(blocks[..h + 1], interval).Some?
    ensures var l := PlainLevels(blocks, interval)[h];
      && Top(l, h, interval) == Folded(l, h, interval) == CoinsAt(blocks[..h + 1], interval).value
      && (h > 0 ==> Applied(l, h, interval).undo == UndoAt(blocks, h, interval))
  {
    hide *;
    NotEmpty(blocks, interval);
    PlainLevel(blocks, h, interval);
    var l := PlainLevels(blocks, interval)[h];
    TopPlain(l, h, interval);
    if h > 0 {
      BlockOf(blocks, h, interval);
      AppliedSome(l, h, interval);
      UndoIs(blocks, h, l.before, interval);
    } else {
      assert blocks[..1] == [blocks[0]];
      GenesisChain(blocks[0], interval);
      NotEmpty([blocks[0]], interval);
      FoldedGenesis(l, interval);
    }
  }

  lemma {:induction false} FoldedGenesis(l: Level, interval: nat)
    requires interval > 0
    ensures Folded(l, 0, interval) == Genesis(l.block, |l.block|)
  {
  }

  lemma {:induction false} TopIsLast(levels: seq<Level>, interval: nat)
    requires interval > 0 && levels != []
    ensures TopOf(levels, interval) == Top(levels[|levels| - 1], |levels| - 1, interval)
  {
    hide Top;
  }

  lemma {:induction false} SoundIs(levels: seq<Level>, interval: nat)
    requires interval > 0 && levels != [] && levels[0].before == map[]
    requires forall h :: 0 < h < |levels| ==> Joined(levels, h, interval)
    requires forall h :: 0 <= h < |levels| ==> Apart(levels[h], h, interval)
    requires forall j, h :: 0 < j <= h < |levels| ==> Clear(levels[h].strays, levels[j])
    ensures Sound(levels, interval)
  {
    hide Joined, Apart, Clear;
  }

  lemma {:induction false} PlainSound(blocks: seq<Block>, interval: nat)
    requires ValidChain(blocks, interval)
    ensures Sound(PlainLevels(blocks, interval), interval)
    ensures TopOf(PlainLevels(blocks, interval), interval) == CoinsAt(blocks, interval).value
  {
    hide *;
    NotEmpty(blocks, interval);
    var levels := PlainLevels(blocks, interval);
    forall h | 0 <= h < |levels|
      ensures levels[h].strays == map[] && Apart(levels[h], h, interval)
      ensures h > 0 ==> Joined(levels, h, interval)
    {
      PlainLevel(blocks, h, interval);
      NothingApart(levels[h], h, interval);
      if h > 0 {
        PlainJoined(blocks, h, interval);
      }
    }
    forall j, h | 0 < j <= h < |levels|
      ensures Clear(levels[h].strays, levels[j])
    {
      NothingClear(levels[j]);
    }
    PlainLevel(blocks, 0, interval);
    SoundIs(levels, interval);
    PlainTop(blocks, |blocks| - 1, interval);
    TopIsLast(levels, interval);
    assert blocks[..|blocks|] == blocks;
  }

  lemma {:induction false} NothingApart(l: Level, h: nat, interval: nat)
    requires interval > 0 && l.strays == map[]
    ensures Apart(l, h, interval)
  {
    hide Folded;
  }

  lemma {:induction false} NothingClear(l: Level)
    ensures Clear(map[], l)
  {
  }


  lemma {:induction false} PlainJoined(blocks: seq<Block>, h: nat, interval: nat)
    requires ValidChain(blocks, interval) && 0 < h < |blocks|
    ensures Joined(PlainLevels(blocks, interval), h, interval)
  {
    PlainLevel(blocks, h, interval);
    PlainTop(blocks, h - 1, interval);
    Facts(blocks, h, interval);
    BlockOf(blocks, h, interval);
    NotEmpty(blocks, interval);
    hide *;
    JoinedIs(PlainLevels(blocks, interval), h, interval);
  }

  lemma {:induction false} JoinedIs(levels: seq<Level>, h: nat, interval: nat)
    requires interval > 0 && 0 < h < |levels| && levels[h].block != []
    requires levels[h].before == Top(levels[h - 1], h - 1, interval)
    requires SaneBlock(levels[h].block) && NewIds(levels[h].before, levels[h].block)
    requires ApplyBlock(levels[h].before, levels[h].block, h, interval).Some?
    ensures Joined(levels, h, interval)
  {
  }

  /** What represents a chain stands on its plain levels, and the other way round. */
  lemma {:induction false} RepresentsStands(db: CoinDatabase, blocks: seq<Block>, interval: nat)
    requires ValidChain(blocks, interval)
    ensures Represents(db, blocks, interval) <==> Stands(db, PlainLevels(blocks, interval), interval)
  {
    PlainSound(blocks, interval);
    forall h: nat | 0 < h < |blocks|
      ensures Applied(PlainLevels(blocks, interval)[h], h, interval).undo == UndoAt(blocks, h, interval)
    {
      PlainTop(blocks, h, interval);
    }
    hide ValidChain, CoinsAt, Applied, UndoAt, Sound, TopOf, Value;
  }

  // ---- Replaying the blocks of a chain with strays ----

  /** Wherever the blocks can be replayed on their own, the result is part of what is stored. */
  lemma {:induction false} PlainBelow(levels: seq<Level>, h: nat, interval: nat)
    requires Sound(levels, interval) && h < |levels|
    requires CoinsAt(BlocksOf(levels)[..h + 1], interval).Some?
    ensures Submap(CoinsAt(BlocksOf(levels)[..h + 1], interval).value, Top(levels[h], h, interval))
  {
    ApartAt(levels, h, interval);
    var blocks := BlocksOf(levels);
    if h == 0 {
      assert blocks[..1] == [blocks[0]];
      GenesisChain(blocks[0], interval);
      FoldedBelow(levels[0], 0, interval);
    } else {
      PlainStep(levels, h, interval);
      hide *;
      PlainBelow(levels, h - 1, interval);
      BlockSubmap(CoinsAt(blocks[..h], interval).value, levels[h], h, interval);
      FoldedBelow(levels[h], h, interval);
      SubmapMore(CoinsAt(blocks[..h + 1], interval).value, Folded(levels[h], h, interval), Top(levels[h], h, interval));
    }
  }

  lemma {:induction false} SubmapMore(a: CoinSet, b: CoinSet, c: CoinSet)
    requires Submap(a, b) && Submap(b, c)
    ensures Submap(a, c)
  {
  }

  lemma {:induction false} SoundNotEmpty(levels: seq<Level>, interval: nat)
    requires Sound(levels, interval)
    ensures interval > 0 && levels != []
  {
    hide Joined, Clear, Apart;
  }

  lemma {:induction false} ApartAt(levels: seq<Level>, h: nat, interval: nat)
    requires Sound(levels, interval) && h < |levels|
    ensures interval > 0 && Apart(levels[h], h, interval) && levels[0].before == map[]
    ensures h == 0 ==> Folded(levels[0], 0, interval) == Genesis(levels[0].block, |levels[0].block|)
  {
    hide Joined, Clear, Apart;
  }

  lemma {:induction false} JoinedFacts(levels: seq<Level>, h: nat, interval: nat)
    requires Sound(levels, interval) && 0 < h < |levels|
    ensures interval > 0 && levels[h].before == Top(levels[h - 1], h - 1, interval)
    ensures levels[h].block != [] && SaneBlock(levels[h].block) && NewIds(levels[h].before, levels[h].block)
    ensures ApplyBlock(levels[h].before, levels[h].block, h, interval).Some?
    ensures Clear(levels[h].strays, levels[h])
  {
    hide Clear, Apart, ApplyBlock, NewIds, Top;
    assert Joined(levels, h, interval);
    SaneNotEmpty(levels[h].block);
  }

  lemma {:induction false} PlainStep(levels: seq<Level>, h: nat, interval: nat)
    requires Sound(levels, interval) && 0 < h < |levels| && CoinsAt(BlocksOf(levels)[..h + 1], interval).Some?
    ensures interval > 0 && levels[h].before == Top(levels[h - 1], h - 1, interval) && levels[h].block != []
    ensures ApplyBlock(levels[h].before, levels[h].block, h, interval).Some?
    ensures CoinsAt(BlocksOf(levels)[..h], interval).Some?
    ensures var coins := CoinsAt(BlocksOf(levels)[..h], interval).value;
      && ApplyBlock(coins, levels[h].block, h, interval).Some?
      && CoinsAt(BlocksOf(levels)[..h + 1], interval).value == ApplyBlock(coins, levels[h].block, h, interval).value.coins
  {
    JoinedFacts(levels, h, interval);
    hide *;
    PrefixStep(BlocksOf(levels), h, interval);
  }

  lemma {:induction false} PrefixStep(blocks: seq<Block>, h: nat, interval: nat)
    requires interval > 0 && 0 < h < |blocks| && blocks[h] != [] && CoinsAt(blocks[..h + 1], interval).Some?
    ensures CoinsAt(blocks[..h], interval).Some?
    ensures var coins := CoinsAt(blocks[..h], interval).value;
      && ApplyBlock(coins, blocks[h], h, interval).Some?
      && CoinsAt(blocks[..h + 1], interval).value == ApplyBlock(coins, blocks[h], h, interval).value.coins
  {
    hide *;
    var upTo := blocks[..h + 1];
    assert upTo == blocks[..h] + [blocks[h]] && upTo[..h] == blocks[..h];
    InvalidPrefix(upTo, h, interval);
    CoinsAtMore(blocks[..h], blocks[h], interval);
  }

  lemma {:induction false} InvalidPrefix(blocks: seq<Block>, n: nat, interval: nat)
    requires interval > 0 && 0 < n <= |blocks| && CoinsAt(blocks, interval).Some?
    ensures CoinsAt(blocks[..n], interval).Some?
  {
    hide CoinsAt;
    if CoinsAt(blocks[..n], interval) == None {
      InvalidStays(blocks, n, interval);
    }
  }

  lemma {:induction false} BlockSubmap(a: CoinSet, l: Level, h: nat, interval: nat)
    requires interval > 0 && h > 0 && l.block != [] && Submap(a, l.before)
    requires ApplyBlock(a, l.block, h, interval).Some? && ApplyBlock(l.before, l.block, h, interval).Some?
    ensures Submap(ApplyBlock(a, l.block, h, interval).value.coins, Folded(l, h, interval))
  {
    hide Submap, ClaimsAllowed, Apply;
    ApplySubmap(a, l.before, l.block, |l.block|, h);
  }

  lemma {:induction false} FoldedBelow(l: Level, h: nat, interval: nat)
    requires interval > 0 && Apart(l, h, interval)
    ensures Submap(Folded(l, h, interval), Top(l, h, interval))
  {
    hide Folded;
  }

  lemma {:induction false} SoundReplays(levels: seq<Level>, interval: nat)
    requires Sound(levels, interval)
    ensures Replayable(BlocksOf(levels), interval)
  {
    hide CoinsAt, Clear, Apart, Folded;
    var blocks := BlocksOf(levels);
    forall h | 0 < h < |blocks|
      ensures SaneBlock(blocks[h])
      ensures CoinsAt(blocks[..h], interval).Some? ==> NewIds(CoinsAt(blocks[..h], interval).value, blocks[h])
    {
      assert Joined(levels, h, interval);
      if CoinsAt(blocks[..h], interval).Some? {
        PlainBelow(levels, h - 1, interval);
        NewBelow(CoinsAt(blocks[..h], interval).value, levels[h].before, blocks[h]);
      }
    }
  }

  lemma {:induction false} NewBelow(a: CoinSet, c: CoinSet, b: Block)
    requires Submap(a, c) && NewIds(c, b)
    ensures NewIds(a, b)
  {
    forall i | 0 <= i < |b|
      ensures NewId(a, b[i])
    {
      assert NewId(c, b[i]);
    }
  }

  /** The longest prefix of the first `n` blocks that can be replayed on its own. */
  ghost function Longest(blocks: seq<Block>, n: nat, interval: nat): (k: nat)
    requires interval > 0 && 0 < n <= |blocks|
    ensures 0 < k <= n
  {
    if n == 1 || CoinsAt(blocks[..n], interval).Some? then n else Longest(blocks, n - 1, interval)
  }

  lemma {:induction false} LongestIs(blocks: seq<Block>, n: nat, k: nat, interval: nat)
    requires interval > 0 && 0 < k <= n <= |blocks| && CoinsAt(blocks[..k], interval).Some?
    requires k < n ==> CoinsAt(blocks[..k + 1], interval) == None
    ensures Longest(blocks, n, interval) == k
  {
    hide CoinsAt;
    if k < n {
      assert blocks[..n][..k + 1] == blocks[..k + 1];
      InvalidStays(blocks[..n], k + 1, interval);
      LongestIs(blocks, n - 1, k, interval);
    }
  }

  // ---- Going back ----

  ghost predicate Recorded(records: set<nat>, from: nat, to: nat) {
    forall m: nat :: from < m < to ==> m in records
  }

  /** The records left after using those between `h` and `n`. */
  ghost function RecordsAfter(records: set<nat>, h: nat, n: nat): set<nat> {
    set m | m in records && !(h < m < n)
  }

  /**
   * Takes the chain back to `height`. With all undo records there, everything the undone blocks leave
   * behind stays on top of the shorter chain, and the counters are exact. With one missing the blocks
   * are replayed, which gets as far as they can be replayed on their own.
   */
  method DisconnectTo(db: CoinDatabase, blocks: seq<Block>, height: nat, ghost levels: seq<Level>, interval: nat)
    returns (r: Outcome<CoinError>, done: nat)
    requires Stands(db, levels, interval) && blocks == BlocksOf(levels) && height < |levels|
    requires OwnPhantoms(levels, height, interval)
    modifies db
    ensures Recorded(old(db.undos.Keys), height, |levels|) ==>
      && r.Pass? && done == height + 1 && Stands(db, Cut(levels, height, interval), interval)
      && db.undos.Keys == RecordsAfter(old(db.undos.Keys), height, |levels|)
    ensures !Recorded(old(db.undos.Keys), height, |levels|) ==>
      && done == Longest(blocks, height + 1, interval) && (r.Pass? <==> done == height + 1)
      && Represents(db, blocks[..done], interval) && db.undos.Keys == Below(done)
  {
    hide *;
    StandsSound(db, levels, interval);
    ghost var records := db.undos.Keys;
    var h := |blocks| - 1;
    WholeCut(levels, interval);
    RecordsStart(records, h);
    while h > height
      invariant height <= h < |blocks| && Stands(db, Cut(levels, h, interval), interval)
      invariant Recorded(records, h, |levels|)
      invariant db.undos.Keys == RecordsAfter(records, h, |levels|)
    {
      OneLower(levels, h, height, interval);
      RecordsNext(records, h, |levels|);
      var undone := UndoTop(db, blocks[h], h, Cut(levels, h, interval), interval);
      if undone.Throw? {
        NotRecorded(records, h, height, |levels|);
        SoundReplays(levels, interval);
        r, done := RebuildUtxo(db, blocks, height, interval);
        IsValid(db, blocks[..done], interval);
        NotEmpty(blocks[..done], interval);
        LongestIs(blocks, height + 1, done, interval);
        return;
      }
      h := h - 1;
    }
    return Pass, height + 1;
  }

  lemma {:induction false} RecordsStart(records: set<nat>, h: nat)
    ensures Recorded(records, h, h + 1) && RecordsAfter(records, h, h + 1) == records
  {
  }

  lemma {:induction false} RecordsNext(records: set<nat>, h: nat, n: nat)
    requires 0 < h < n
    ensures h in RecordsAfter(records, h, n) <==> h in records
    ensures h in records && Recorded(records, h, n) ==> Recorded(records, h - 1, n)
    ensures RecordsAfter(records, h, n) - {h} == RecordsAfter(records, h - 1, n)
  {
  }

  lemma {:induction false} NotRecorded(records: set<nat>, h: nat, height: nat, n: nat)
    requires height < h < n && h !in records
    ensures !Recorded(records, height, n)
  {
  }

  lemma {:induction false} WholeCut(levels: seq<Level>, interval: nat)
    requires Sound(levels, interval)
    ensures interval > 0 && levels != [] && Cut(levels, |levels| - 1, interval) == levels
  {
    hide Joined, Clear, Apart;
    var last := levels[|levels| - 1];
    assert LeftAbove(levels, |levels| - 1, interval) == map[];
    assert last.(strays := last.strays + map[]) == last;
  }

  lemma {:induction false} OneLower(levels: seq<Level>, h: nat, height: nat, interval: nat)
    requires Sound(levels, interval) && height < h < |levels| && OwnPhantoms(levels, height, interval)
    ensures interval > 0 && h > 0
    ensures var cut := Cut(levels, h, interval);
      && cut[h].block == BlocksOf(levels)[h] && |cut| == h + 1
      && OwnPhantoms(cut, h - 1, interval)
      && Cut(cut, h - 1, interval) == Cut(levels, h - 1, interval)
  {
    hide Sound, LeftAbove;
    assert interval > 0;
    CutOwn(levels, h, height, interval);
    FewerOwn(Cut(levels, h, interval), height, h - 1, interval);
    CutMore(levels, h - 1, interval);
  }

  lemma {:induction false} FewerOwn(levels: seq<Level>, height: nat, higher: nat, interval: nat)
    requires height <= higher && OwnPhantoms(levels, height, interval)
    ensures OwnPhantoms(levels, higher, interval)
  {
    hide Clear, PhantomCoins;
  }

  // ---- How far this is from the shorter chain ----

  ghost predicate NoPhantomsAbove(blocks: seq<Block>, height: nat) {
    forall m :: height < m < |blocks| ==> blocks[m] != [] && Phantoms(blocks[m]) == {}
  }

  /** Without strays so far, nothing is left exactly when no block undone has phantoms. */
  lemma {:induction false} NothingLeft(levels: seq<Level>, h: nat, interval: nat)
    requires Sound(levels, interval) && h < |levels| && forall m :: h < m < |levels| ==> levels[m].strays == map[]
    ensures interval > 0
    ensures LeftAbove(levels, h, interval) == map[] <==> NoPhantomsAbove(BlocksOf(levels), h)
    decreases |levels| - h
  {
    hide Joined, Clear, Apart, Phantoms, PhantomCoins, BlocksOf;
    if h + 1 < |levels| {
      NothingLeft(levels, h + 1, interval);
      PhantomsNew(levels, h + 1, interval);
      var p, l := PhantomCoins(levels[h + 1], h + 1, interval), LeftAbove(levels, h + 1, interval);
      UnionEmpty(map[] + l, p);
      assert map[] + l == l;
      FirstAbove(BlocksOf(levels), h);
    }
  }

  lemma {:induction false} UnionEmpty(a: CoinSet, b: CoinSet)
    ensures a + b == map[] <==> a == map[] && b == map[]
    ensures b == map[] <==> b.Keys == {}
  {
    if a + b == map[] {
      assert forall op :: op in a ==> op in a + b;
      assert forall op :: op in b ==> op in a + b;
    }
    if b.Keys == {} {
      assert forall op :: op in b ==> op in b.Keys;
    }
  }

  lemma {:induction false} FirstAbove(blocks: seq<Block>, h: nat)
    requires h + 1 < |blocks|
    ensures NoPhantomsAbove(blocks, h) <==>
      NoPhantomsAbove(blocks, h + 1) && blocks[h + 1] != [] && Phantoms(blocks[h + 1]) == {}
  {
    hide Phantoms;
  }

  lemma {:induction false} ValueUnion(a: CoinSet, b: CoinSet)
    requires a.Keys !! b.Keys
    ensures Value(a + b) == Value(a) + Value(b)
    decreases |b|
  {
    hide *;
    UnionEmpty(a, b);
    if b.Keys == {} {
      CountNothing();
      assert a + b == a;
    } else {
      var op :| op in b.Keys;
      OneOut(a, b, op);
      CountRemove(b, op);
      ValueUnion(a, b - {op});
      ValueRemove(b, op);
      ValueAdd(a + (b - {op}), op, b[op]);
    }
  }

  lemma {:induction false} ValueOfParts(s: CoinSet, l: CoinSet, p: CoinSet)
    requires s.Keys !! l.Keys && (s + l).Keys !! p.Keys
    ensures Value(s + l + p) == Value(s) + Value(l) + Value(p)
  {
    ValueUnion(s, l);
    ValueUnion(s + l, p);
  }

  lemma {:induction false} OneOut(a: CoinSet, b: CoinSet, op: Outpoint)
    requires a.Keys !! b.Keys && op in b
    ensures a.Keys !! (b - {op}).Keys && op !in a + (b - {op})
    ensures (a + (b - {op}))[op := b[op]] == a + b
  {
  }

  /** The worth of everything the levels above `h` leave behind, block by block. */
  ghost function LeftWorth(levels: seq<Level>, h: nat, interval: nat): int
    requires interval > 0 && h < |levels|
    decreases |levels| - h
  {
    if h + 1 == |levels| then 0
    else
      Value(levels[h + 1].strays) + LeftWorth(levels, h + 1, interval)
      + Value(PhantomCoins(levels[h + 1], h + 1, interval))
  }

  lemma {:induction false} LeftValue(levels: seq<Level>, h: nat, interval: nat)
    requires Sound(levels, interval) && h < |levels| && OwnPhantoms(levels, h, interval)
    ensures interval > 0 && Value(LeftAbove(levels, h, interval)) == LeftWorth(levels, h, interval)
    decreases |levels| - h
  {
    hide *;
    ApartAt(levels, h, interval);
    LeftNext(levels, h, interval);
    if h + 1 < |levels| {
      FewerOwn(levels, h, h + 1, interval);
      LeftValue(levels, h + 1, interval);
      PartsApart(levels, h + 1, interval);
    } else {
      CountNothing();
    }
  }

  lemma {:induction false} LeftNext(levels: seq<Level>, h: nat, interval: nat)
    requires interval > 0 && h < |levels|
    ensures h + 1 == |levels| ==> LeftAbove(levels, h, interval) == map[] && LeftWorth(levels, h, interval) == 0
    ensures h + 1 < |levels| ==>
      var s, p := levels[h + 1].strays, PhantomCoins(levels[h + 1], h + 1, interval);
      && LeftAbove(levels, h, interval) == s + LeftAbove(levels, h + 1, interval) + p
      && LeftWorth(levels, h, interval) == Value(s) + LeftWorth(levels, h + 1, interval) + Value(p)
  {
    hide PhantomCoins, Value;
  }

  /** Strays, what is left above, and phantoms of a level have no outpoint in common, so their values add up. */
  lemma {:induction false} PartsApart(levels: seq<Level>, h: nat, interval: nat)
    requires Sound(levels, interval) && 0 < h < |levels| && OwnPhantoms(levels, h, interval)
    ensures interval > 0
    ensures var s, l, p := levels[h].strays, LeftAbove(levels, h, interval), PhantomCoins(levels[h], h, interval);
      Value(s + l + p) == Value(s) + Value(l) + Value(p)
  {
    CutApart(levels, h, interval);
    JoinedFacts(levels, h, interval);
    PhantomsNew(levels, h, interval);
    hide Sound, OwnPhantoms, LeftAbove, Ids, Applied;
    forall op | op in levels[h].strays
      ensures op !in LeftAbove(levels, h, interval) && op !in PhantomCoins(levels[h], h, interval)
    {
      assert op in Top(levels[h], h, interval);
    }
    forall op | op in PhantomCoins(levels[h], h, interval)
      ensures op !in LeftAbove(levels, h, interval)
    {
      assert op in Folded(levels[h], h, interval);
      assert op in Top(levels[h], h, interval);
    }
    hide *;
    ValueOfParts(levels[h].strays, LeftAbove(levels, h, interval), PhantomCoins(levels[h], h, interval));
  }

  /**
   * A plain chain taken back to `h` by undo records alone: the coins of the shorter chain and the
   * phantoms of all blocks undone, worth the sum of both; it is the shorter chain if and only if no
   * block undone has phantoms.
   */
  lemma {:induction false} ReorganizeExact(db: CoinDatabase, blocks: seq<Block>, h: nat, interval: nat)
    requires ValidChain(blocks, interval) && h < |blocks| && OwnPhantoms(PlainLevels(blocks, interval), h, interval)
    requires Stands(db, Cut(PlainLevels(blocks, interval), h, interval), interval)
    ensures CoinsAt(blocks[..h + 1], interval).Some?
    ensures var levels, coins := PlainLevels(blocks, interval), CoinsAt(blocks[..h + 1], interval).value;
      && db.coins == coins + LeftAbove(levels, h, interval)
      && db.value == Value(coins) + LeftWorth(levels, h, interval)
    ensures Represents(db, blocks[..h + 1], interval) <==> NoPhantomsAbove(blocks, h)
  {
    ChainPrefix(blocks, h + 1, interval);
    ApartAt(Cut(PlainLevels(blocks, interval), h, interval), 0, interval);
    hide *;
    var levels := PlainLevels(blocks, interval);
    PlainLeft(blocks, h, interval);
    CutStands(db, levels, h, interval);
    LeftValue(levels, h, interval);
    RepresentsStands(db, blocks[..h + 1], interval);
    RepresentsCoins(db, blocks[..h + 1], interval);
    PlainPrefix(blocks, h + 1, interval);
    CutNothing(levels, h, interval);
    var coins, left := CoinsAt(blocks[..h + 1], interval).value, LeftAbove(levels, h, interval);
    ValueUnion(coins, left);
    DisjointNothing(coins, left);
  }

  lemma {:induction false} PlainLeft(blocks: seq<Block>, h: nat, interval: nat)
    requires ValidChain(blocks, interval) && h < |blocks| && OwnPhantoms(PlainLevels(blocks, interval), h, interval)
    ensures CoinsAt(blocks[..h + 1], interval).Some?
    ensures var levels, coins := PlainLevels(blocks, interval), CoinsAt(blocks[..h + 1], interval).value;
      && Sound(levels, interval) && Top(levels[h], h, interval) == coins
      && coins.Keys !! LeftAbove(levels, h, interval).Keys
      && (LeftAbove(levels, h, interval) == map[] <==> NoPhantomsAbove(blocks, h))
  {
    NotEmpty(blocks, interval);
    hide *;
    PlainSound(blocks, interval);
    PlainTop(blocks, h, interval);
    PlainNothing(blocks, h, interval);
    CutApart(PlainLevels(blocks, interval), h, interval);
  }

  lemma {:induction false} PlainNothing(blocks: seq<Block>, h: nat, interval: nat)
    requires ValidChain(blocks, interval) && h < |blocks| && interval > 0
    ensures LeftAbove(PlainLevels(blocks, interval), h, interval) == map[] <==> NoPhantomsAbove(blocks, h)
  {
    hide *;
    var levels := PlainLevels(blocks, interval);
    PlainSound(blocks, interval);
    PlainBlocks(blocks, interval);
    forall m | h < m < |levels|
      ensures levels[m].strays == map[]
    {
      PlainLevel(blocks, m, interval);
    }
    NothingLeft(levels, h, interval);
  }

  lemma {:induction false} RepresentsCoins(db: CoinDatabase, blocks: seq<Block>, interval: nat)
    requires ValidChain(blocks, interval)
    ensures CoinsAt(blocks, interval).Some?
    ensures Represents(db, blocks, interval) ==> db.coins == CoinsAt(blocks, interval).value
  {
  }

  lemma {:induction false} DisjointNothing(a: CoinSet, b: CoinSet)
    requires a.Keys !! b.Keys
    ensures a + b == a <==> b == map[]
  {
    if a + b == a {
      assert forall op :: op in b ==> op in a + b;
    } else {
      UnionEmpty(a, b);
    }
  }

  lemma {:induction false} CutStands(db: CoinDatabase, levels: seq<Level>, h: nat, interval: nat)
    requires interval > 0 && h < |levels| && Stands(db, Cut(levels, h, interval), interval)
    ensures db.coins == Top(levels[h], h, interval) + LeftAbove(levels, h, interval) && db.value == Value(db.coins)
  {
    hide LeftAbove, Value, Sound, Folded, Applied;
    CutCoins(levels, h, interval);
  }

  lemma {:induction false} CutCoins(levels: seq<Level>, h: nat, interval: nat)
    requires interval > 0 && h < |levels|
    ensures TopOf(Cut(levels, h, interval), interval) == Top(levels[h], h, interval) + LeftAbove(levels, h, interval)
  {
    hide LeftAbove, Folded;
    var f, s, l := Folded(levels[h], h, interval), levels[h].strays, LeftAbove(levels, h, interval);
    FoldedSame(levels[h], Cut(levels, h, interval)[h], h, interval);
    assert f + (s + l) == (f + s) + l;
  }

  lemma {:induction false} CutNothing(levels: seq<Level>, h: nat, interval: nat)
    requires interval > 0 && h < |levels|
    ensures LeftAbove(levels, h, interval) == map[] ==> Cut(levels, h, interval) == levels[..h + 1]
  {
    hide LeftAbove;
    if LeftAbove(levels, h, interval) == map[] {
      assert levels[h].strays + map[] == levels[h].strays;
      assert levels[h].(strays := levels[h].strays) == levels[h];
    }
  }

  lemma {:induction false} PlainBlocks(blocks: seq<Block>, interval: nat)
    requires interval > 0
    ensures BlocksOf(PlainLevels(blocks, interval)) == blocks
  {
    hide CoinsAt, PlainLevels;
    var levels := PlainLevels(blocks, interval);
    forall h | 0 <= h < |blocks|
      ensures BlocksOf(levels)[h] == blocks[h]
    {
      PlainLevel(blocks, h, interval);
    }
  }

  // ---- Distinct ids are enough ----

  /** No transaction has the id of one in an earlier block, or of a stray under it. */
  ghost predicate IdsDiffer(levels: seq<Level>) {
    && (forall k, m :: 0 <= k < m < |levels| ==> Ids(levels[k].block) !! Ids(levels[m].block))
    && forall k, m :: 0 <= k < m < |levels| ==> StraysDiffer(levels[k].strays, levels[m].block)
  }

  ghost predicate StraysDiffer(s: CoinSet, b: Block) {
    forall op :: op in s ==> op.hash !in Ids(b)
  }

  lemma {:induction false} GenesisIds(b: Block, n: nat, op: Outpoint)
    requires n <= |b| && op in Genesis(b, n)
    ensures op.hash in Ids(b)
  {
    hide CoinOf;
    if op !in CoinsOf(b[n - 1], 0) {
      GenesisIds(b, n - 1, op);
    }
  }

  lemma {:induction false} CoinIds(levels: seq<Level>, h: nat, m: nat, op: Outpoint, interval: nat)
    requires Sound(levels, interval) && IdsDiffer(levels) && h < m < |levels| && op in Top(levels[h], h, interval)
    ensures op.hash !in Ids(levels[m].block)
    decreases h
  {
    hide *;
    DifferAt(levels, h, m, op);
    ApartAt(levels, h, interval);
    TopIs(levels[h], h, op, interval);
    if h > 0 {
      JoinedFacts(levels, h, interval);
    }
    if op in levels[h].strays {
    } else if h == 0 {
      GenesisIds(levels[0].block, |levels[0].block|, op);
    } else {
      AddedIds(levels[h], h, op, interval);
      if op in levels[h].before {
        CoinIds(levels, h - 1, m, op, interval);
      }
    }
  }

  lemma {:induction false} DifferAt(levels: seq<Level>, k: nat, m: nat, op: Outpoint)
    requires IdsDiffer(levels) && k < m < |levels|
    ensures op.hash in Ids(levels[k].block) || op in levels[k].strays ==> op.hash !in Ids(levels[m].block)
  {
    hide Ids;
    assert StraysDiffer(levels[k].strays, levels[m].block);
    assert Ids(levels[k].block) !! Ids(levels[m].block);
  }

  lemma {:induction false} TopIs(l: Level, h: nat, op: Outpoint, interval: nat)
    requires interval > 0
    ensures op in Top(l, h, interval) <==> op in Folded(l, h, interval) || op in l.strays
  {
    hide Folded;
  }

  lemma {:induction false} AddedIds(l: Level, h: nat, op: Outpoint, interval: nat)
    requires interval > 0 && h > 0 && l.block != [] && ApplyBlock(l.before, l.block, h, interval).Some?
    requires op in Folded(l, h, interval)
    ensures op in l.before || op.hash in Ids(l.block)
  {
    hide Ids, MadeBy, Apply, ClaimsAllowed;
    OnlyMadeAdded(l.before, l.block, |l.block|, h, op);
    if op in MadeBy(l.block, |l.block|) {
      MadeHasId(l.block, op);
    }
  }

  /** If transaction ids do not recur, what going back assumes holds. */
  lemma {:induction false} DistinctIdsSuffice(levels: seq<Level>, height: nat, interval: nat)
    requires Sound(levels, interval) && IdsDiffer(levels)
    ensures OwnPhantoms(levels, height, interval)
  {
    ApartAt(levels, 0, interval);
    hide Clear, PhantomCoins, Sound, IdsDiffer;
    forall j, m | 0 < j < m < |levels| && height < m
      ensures Clear(PhantomCoins(levels[m], m, interval), levels[j])
    {
      OwnAt(levels, j, m, interval);
    }
  }

  lemma {:induction false} OwnAt(levels: seq<Level>, j: nat, m: nat, interval: nat)
    requires Sound(levels, interval) && IdsDiffer(levels) && 0 < j < m < |levels|
    ensures interval > 0 && Clear(PhantomCoins(levels[m], m, interval), levels[j])
  {
    PhantomsNew(levels, m, interval);
    JoinedFacts(levels, j, interval);
    JoinedFacts(levels, m, interval);
    hide Sound, IdsDiffer, PhantomCoins, Ids;
    forall op | op in PhantomCoins(levels[m], m, interval)
      ensures op !in levels[j].before && op != NULL_OUTPOINT && op.hash !in Ids(levels[j].block)
    {
      DifferAt(levels, j, m, op);
      if op in levels[j].before {
        CoinIds(levels, j - 1, m, op, interval);
      }
      NewHasNoId(levels[m].before, levels[m].block, op);
    }
  }
}
