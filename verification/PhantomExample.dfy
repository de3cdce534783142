/**
 * What a phantom does. A block of two transactions, whose coinbase names as a second input the output of
 * the other one, passes every check; undoing it leaves both the coin it spent and the one it made. When
 * the transaction is mined again, the counters count the coin it makes twice, or the old one stays
 * stored although the same block has spent it.
 */
module PhantomExample {
  import opened Base
  import opened BlockReward
  import opened Covenants
  import opened Coins
  import opened CoinUndo
  import opened UtxoChain
  import opened UtxoReorgs
  import opened CoinRuns
  import opened MoneySupply

  /** Different ids. The input of a coinbase fixes its own id, not that of the transaction it names. */
  function Id(n: Byte): Hash {
    [n] + Zeros(31)
  }

  const OLD := Outpoint(Id(3), 0)
  const MOVED := Outpoint(Id(2), 0)
  const FILL := Outpoint(Id(4), 0)

  function Plain(v: nat): Output {
    Output(v, NULL_ADDRESS, Covenant(Nothing, []))
  }

  function Move(v: nat): Transaction {
    Transaction(Id(2), 0, [OLD], [Plain(v)])
  }

  function MoveOn(v: nat): Transaction {
    Transaction(Id(5), 0, [MOVED], [Plain(v)])
  }

  /** The coinbase names the output of the transaction after it. */
  function Doubling(v: nat): Block {
    [Transaction(Id(1), 0, [NULL_OUTPOINT, MOVED], [Plain(0)]), Move(v)]
  }

  /** The coin is moved, and moved on in the same block. */
  function Passing(v: nat): Block {
    [Transaction(Id(6), 0, [NULL_OUTPOINT], [Plain(0)]), Move(v), MoveOn(v)]
  }

  lemma {:induction false} IdsAreReal()
    ensures forall n: Byte :: |Id(n)| == 32
    ensures forall n: Byte :: n > 0 ==> Id(n) != ZERO_HASH
    ensures forall m: Byte, n: Byte :: Id(m) == Id(n) ==> m == n
  {
    ZerosLength(31);
    assert ZERO_HASH[0] == 0 && ZERO_HASH == [0] + Zeros(31);
    assert forall n: Byte :: Id(n)[0] == n;
  }

  // ---- Transactions with one output, moving one coin ----

  lemma {:induction false} OneOutput(tx: Transaction, height: nat)
    requires |tx.outputs| == 1
    ensures OutputTotal(tx.outputs, 1) == tx.outputs[0].value
    ensures Made(tx) == {Outpoint(tx.hash, 0)} && CoinsOf(tx, height) == map[Outpoint(tx.hash, 0) := CoinOf(tx, height, 0)]
  {
    hide CoinOf;
    assert OutputTotal(tx.outputs, 0) == 0;
  }

  /** The transaction moves one coin of the ledger, whole. */
  predicate IsMove(l: Ledger, tx: Transaction) {
    && |tx.inputs| == 1 && |tx.outputs| == 1 && tx.inputs[0] != NULL_OUTPOINT && tx.inputs[0] in l.coins
    && l.coins[tx.inputs[0]].output.value == tx.outputs[0].value <= MAX_MONEY && l.fees == 0
  }

  function Moved(l: Ledger, tx: Transaction, height: nat): Ledger
    requires IsMove(l, tx)
  {
    Ledger((l.coins - {tx.inputs[0]})[Outpoint(tx.hash, 0) := CoinOf(tx, height, 0)], 0, l.undo + [l.coins[tx.inputs[0]]])
  }

  lemma {:induction false} MoveSpends(l: Ledger, tx: Transaction, height: nat)
    requires IsMove(l, tx)
    ensures Pays(l.coins, tx) && Fee(l.coins, tx) == 0 && Create(Spend(l, tx), tx, height) == Moved(l, tx, height)
  {
    OneOutput(tx, height);
    hide CoinOf, CoinsOf, Made, OutputTotal;
    assert InputTotal(l.coins, tx.inputs, 0) == 0;
    assert InputTotal(l.coins, tx.inputs, 1) == tx.outputs[0].value;
    assert SpentBy(tx) == {tx.inputs[0]};
    assert Taken(l.coins, tx.inputs, 1) == [l.coins[tx.inputs[0]]];
  }

  lemma {:induction false} NextMove(coins: CoinSet, b: Block, i: nat, height: nat, l: Ledger)
    requires 0 < i < |b| && Apply(coins, b, i, height) == Some(l) && IsMove(l, b[i])
    ensures Apply(coins, b, i + 1, height) == Some(Moved(l, b[i], height))
  {
    hide IsMove, Moved, Pays, Fee, Spend, Create;
    MoveSpends(l, b[i], height);
    NoFees(l, b[i]);
  }

  lemma {:induction false} NoFees(l: Ledger, tx: Transaction)
    requires IsMove(l, tx)
    ensures l.fees == 0
  {
  }

  lemma {:induction false} FirstCreates(coins: CoinSet, b: Block, height: nat)
    requires b != [] && |b[0].outputs| == 1
    ensures Apply(coins, b, 1, height) == Some(Ledger(coins[Outpoint(b[0].hash, 0) := CoinOf(b[0], height, 0)], 0, []))
  {
    OneOutput(b[0], height);
    hide CoinOf, CoinsOf;
    ApplyNone(coins, b, height);
    var op, c := Outpoint(b[0].hash, 0), CoinOf(b[0], height, 0);
    assert coins + map[op := c] == coins[op := c];
  }

  // ---- What the two blocks do ----

  /** A store with the old coin, perhaps also the moved one, but nothing else the blocks know. */
  predicate Ready(coins: CoinSet, v: nat) {
    && OLD in coins && coins[OLD].output.value == v <= MAX_MONEY
    && forall op :: op in coins && op != MOVED ==> op.hash !in {ZERO_HASH, Id(1), Id(2), Id(5), Id(6)}
  }

  function After1(coins: CoinSet, v: nat, height: nat): Ledger {
    Ledger(coins[Outpoint(Id(1), 0) := CoinOf(Doubling(v)[0], height, 0)], 0, [])
  }

  function After6(coins: CoinSet, v: nat, height: nat): Ledger {
    Ledger(coins[Outpoint(Id(6), 0) := CoinOf(Passing(v)[0], height, 0)], 0, [])
  }

  lemma {:induction false} DoublingApplies(coins: CoinSet, v: nat, height: nat)
    requires Ready(coins, v)
    ensures Apply(coins, Doubling(v), 1, height) == Some(After1(coins, v, height)) && IsMove(After1(coins, v, height), Move(v))
    ensures Apply(coins, Doubling(v), 2, height) == Some(Moved(After1(coins, v, height), Move(v), height))
    ensures After1(coins, v, height).coins[OLD] == coins[OLD]
  {
    hide Zeros, Id, Apply, Moved, CoinOf;
    IdsAreReal();
    FirstCreates(coins, Doubling(v), height);
    NextMove(coins, Doubling(v), 1, height, After1(coins, v, height));
  }

  lemma {:induction false} PassingApplies(coins: CoinSet, v: nat, height: nat)
    requires Ready(coins, v)
    ensures Apply(coins, Passing(v), 1, height) == Some(After6(coins, v, height)) && IsMove(After6(coins, v, height), Move(v))
    ensures var l := Moved(After6(coins, v, height), Move(v), height);
      && Apply(coins, Passing(v), 2, height) == Some(l) && IsMove(l, MoveOn(v))
      && l.coins[MOVED] == CoinOf(Move(v), height, 0)
      && Apply(coins, Passing(v), 3, height) == Some(Moved(l, MoveOn(v), height))
    ensures After6(coins, v, height).coins[OLD] == coins[OLD]
  {
    hide Zeros, Id, Apply;
    IdsAreReal();
    FirstCreates(coins, Passing(v), height);
    var l := After6(coins, v, height);
    NextMove(coins, Passing(v), 1, height, l);
    NextMove(coins, Passing(v), 2, height, Moved(l, Move(v), height));
  }

  /** One output within the supply, and one input unless it is a coinbase. */
  lemma {:induction false} OneOutputSane(tx: Transaction)
    requires |tx.outputs| == 1 && tx.outputs[0].value <= MAX_MONEY && tx.inputs != []
    requires IsCoinbase(tx) || |tx.inputs| == 1
    ensures SaneTransaction(tx)
  {
    OneOutput(tx, 0);
  }

  lemma {:induction false} DoublingSane(v: nat)
    requires v <= MAX_MONEY
    ensures SaneBlock(Doubling(v)) && Doubling(v) != []
  {
    var b := Doubling(v);
    IdsAreReal();
    OneOutputSane(b[0]);
    OneOutputSane(b[1]);
    hide Zeros, Id, SaneTransaction;
    assert b[1].inputs[0] != NULL_OUTPOINT;
    assert b[0].hash != b[1].hash;
  }

  lemma {:induction false} PassingSane(v: nat)
    requires v <= MAX_MONEY
    ensures SaneBlock(Passing(v)) && Passing(v) != []
  {
    var b := Passing(v);
    IdsAreReal();
    OneOutputSane(b[0]);
    OneOutputSane(b[1]);
    OneOutputSane(b[2]);
    hide Zeros, Id, SaneTransaction;
    assert b[1].inputs[0] != NULL_OUTPOINT && b[2].inputs[0] != NULL_OUTPOINT;
    assert b[0].hash != b[1].hash && b[0].hash != b[2].hash && b[1].hash != b[2].hash;
  }

  lemma {:induction false} DoublingMakes(v: nat)
    ensures MadeBy(Doubling(v), |Doubling(v)|) == {Outpoint(Id(1), 0), MOVED}
  {
    var b := Doubling(v);
    OneOutput(b[0], 0);
    OneOutput(b[1], 0);
    hide Zeros, Id, Made;
    assert MadeBy(b, 0) == {} && MadeBy(b, 1) == MadeBy(b, 0) + Made(b[0]) && MadeBy(b, 2) == MadeBy(b, 1) + Made(b[1]);
  }

  lemma {:induction false} PassingMakes(v: nat)
    ensures MadeBy(Passing(v), |Passing(v)|) == {Outpoint(Id(6), 0), MOVED, Outpoint(Id(5), 0)}
  {
    var b := Passing(v);
    OneOutput(b[0], 0);
    OneOutput(b[1], 0);
    OneOutput(b[2], 0);
    hide Zeros, Id, Made;
    assert MadeBy(b, 0) == {} && MadeBy(b, 1) == MadeBy(b, 0) + Made(b[0]) && MadeBy(b, 2) == MadeBy(b, 1) + Made(b[1]);
    assert MadeBy(b, 3) == MadeBy(b, 2) + Made(b[2]);
  }

  /** The moved coin is the first block's one phantom. */
  lemma {:induction false} OnePhantom(v: nat)
    ensures Phantoms(Doubling(v)) == {MOVED}
  {
    hide Zeros, Id;
    IdsAreReal();
    DoublingMakes(v);
    var b := Doubling(v);
    assert b[0].inputs[0] == NULL_OUTPOINT && b[0].inputs[1] == MOVED;
    assert SpentBy(b[0]) == {NULL_OUTPOINT, MOVED};
    assert SpentBy(b[1]) == {OLD} by { assert Move(v).inputs[0] == OLD; }
    assert SpentByOthers(b, 2) == {OLD};
  }

  lemma {:induction false} OneCoin(op: Outpoint, c: Coin)
    ensures Value(map[op := c]) == c.output.value
  {
    CountNothing();
    var none: CoinSet := map[];
    ValueAdd(none, op, c);
    assert none[op := c] == map[op := c];
  }

  lemma {:induction false} MovedCoin(v: nat, height: nat)
    ensures CoinOf(Move(v), height, 0).output.value == v && !CoinOf(Move(v), height, 0).coinbase
  {
    hide Zeros;
    IdsAreReal();
  }

  // ---- Undone, the coin is there twice ----

  lemma {:induction false} DoublingNew(coins: CoinSet, v: nat)
    requires Ready(coins, v) && MOVED !in coins
    ensures NewIds(coins, Doubling(v))
  {
    hide Zeros, Id;
    IdsAreReal();
    var b := Doubling(v);
    forall i | 0 <= i < |b|
      ensures NewId(coins, b[i])
    {
    }
  }

  lemma {:induction false} MovedStays(coins: CoinSet, v: nat, height: nat)
    requires Ready(coins, v) && IsMove(After1(coins, v, height), Move(v))
    ensures Restrict(Moved(After1(coins, v, height), Move(v), height).coins, {MOVED}) == map[MOVED := CoinOf(Move(v), height, 0)]
  {
    hide Zeros, Id, CoinOf, Ready;
  }

  /** Whatever is stored, with a coin worth v that the block spends: undone, its value is there twice. */
  lemma {:induction false} Doubled(before: CoinSet, v: nat, height: nat) returns (coins: CoinSet, undo: seq<Coin>)
    requires Ready(before, v) && MOVED !in before
    ensures Connection(before, Doubling(v), height, coins, undo)
    ensures Value(before + Restrict(coins, InBlockSpends(Doubling(v), |Doubling(v)|))) == Value(before) + v
  {
    hide *;
    Sized(v);
    var b, c := Doubling(v), CoinOf(Move(v), height, 0);
    DoublingApplies(before, v, height);
    var l := Moved(After1(before, v, height), Move(v), height);
    coins, undo := l.coins, l.undo;
    DoublingConnects(before, v, height);
    OnePhantom(v);
    MovedStays(before, v, height);
    UndoExact(before, b, height, coins, undo);
    MovedCoin(v, height);
    ValueAdd(before, MOVED, c);
    assert before + map[MOVED := c] == before[MOVED := c];
  }

  lemma {:induction false} DoublingConnects(before: CoinSet, v: nat, height: nat)
    requires Ready(before, v) && MOVED !in before && IsMove(After1(before, v, height), Move(v))
    ensures var l := Moved(After1(before, v, height), Move(v), height);
      Connection(before, Doubling(v), height, l.coins, l.undo)
  {
    DoublingApplies(before, v, height);
    Sized(v);
    DoublingSane(v);
    DoublingNew(before, v);
    hide After1, Moved, SaneBlock, NewIds, Doubling, Move, Apply, IsMove, Ready;
  }

  lemma {:induction false} Sized(v: nat)
    ensures |Doubling(v)| == 2 && Doubling(v)[1] == Move(v)
    ensures |Passing(v)| == 3 && Passing(v)[1] == Move(v) && Passing(v)[2] == MoveOn(v)
    ensures |Move(v).outputs| == 1 && Move(v).inputs == [OLD] && MoveOn(v).inputs == [MOVED]
  {
  }

  // ---- The blocks are acceptable ----

  /** The coinbase maturity of the regression test network; every witness verifies. */
  function Rules(): CoinRules {
    CoinRules(HALVING_INTERVAL, 2, (tx, k, coin) => true)
  }

  lemma {:induction false} NextScreened(coins: CoinSet, b: Block, i: nat, height: nat, l: Ledger)
    requires 0 < i < |b| && Apply(coins, b, i, height) == Some(l) && ScreenedTo(coins, b, i, height, Rules())
    requires IsMove(l, b[i]) && Mature(l.coins[b[i].inputs[0]], height, Rules())
    ensures ScreenedTo(coins, b, i + 1, height, Rules())
  {
    hide Apply, Pays;
  }

  /** At heights 1 and 2 a coinbase that claims at most the first reward may do so. */
  lemma {:induction false} Claims(b: Block, height: nat)
    requires b != [] && height <= 2 && |b[0].outputs| == 1 && b[0].outputs[0].value <= BASE_REWARD
    ensures ClaimsAllowed(b, height, 0, HALVING_INTERVAL)
  {
    OneOutput(b[0], height);
    Rewards();
  }

  lemma {:induction false} Rewards()
    ensures forall h: nat :: h <= 2 ==> GetReward(h, HALVING_INTERVAL) == BASE_REWARD
    ensures SumOfRewards(2, HALVING_INTERVAL) == 2 * BASE_REWARD
  {
    assert forall h: nat :: h <= 2 ==> h / HALVING_INTERVAL == 0;
    assert SumOfRewards(0, HALVING_INTERVAL) == 0;
    assert SumOfRewards(1, HALVING_INTERVAL) == BASE_REWARD;
  }

  lemma {:induction false} DoublingAcceptable(coins: CoinSet, v: nat)
    requires Ready(coins, v) && Mature(coins[OLD], 2, Rules())
    ensures Acceptable(coins, Doubling(v), 2, Rules()) && Doubling(v) != []
    ensures ApplyBlock(coins, Doubling(v), 2, HALVING_INTERVAL) == Some(Moved(After1(coins, v, 2), Move(v), 2))
  {
    hide Zeros, Id, SaneBlock, Apply, ScreenedTo, GetReward, Ready, After1, CoinOf;
    DoublingApplies(coins, v, 2);
    DoublingSane(v);
    Claims(Doubling(v), 2);
    StartScreening(coins, Doubling(v), 2, Rules());
    NextScreened(coins, Doubling(v), 1, 2, After1(coins, v, 2));
  }

  lemma {:induction false} PassingAcceptable(coins: CoinSet, v: nat)
    requires Ready(coins, v) && Mature(coins[OLD], 2, Rules())
    ensures IsMove(After6(coins, v, 2), Move(v)) && IsMove(Moved(After6(coins, v, 2), Move(v), 2), MoveOn(v))
    ensures Acceptable(coins, Passing(v), 2, Rules()) && Passing(v) != []
    ensures ApplyBlock(coins, Passing(v), 2, HALVING_INTERVAL)
         == Some(Moved(Moved(After6(coins, v, 2), Move(v), 2), MoveOn(v), 2))
  {
    hide Zeros, Id, SaneBlock, Apply, ScreenedTo, GetReward, Ready, After6, CoinOf;
    PassingApplies(coins, v, 2);
    MovedCoin(v, 2);
    PassingSane(v);
    Claims(Passing(v), 2);
    StartScreening(coins, Passing(v), 2, Rules());
    NextScreened(coins, Passing(v), 1, 2, After6(coins, v, 2));
    NextScreened(coins, Passing(v), 2, 2, Moved(After6(coins, v, 2), Move(v), 2));
  }

  // ---- A run that breaks the bound on the supply ----

  /** Genesis pays a reward that is moved later; the block after it pays the next one. */
  function GenesisBlock(): Block {
    [Transaction(Id(3), 0, [NULL_OUTPOINT], [Plain(BASE_REWARD)])]
  }

  function Filler(): Block {
    [Transaction(Id(4), 0, [NULL_OUTPOINT], [Plain(BASE_REWARD)])]
  }

  const OLD_COIN := Coin(0, 0, true, Plain(BASE_REWARD))
  const FILL_COIN := Coin(0, 1, true, Plain(BASE_REWARD))
  const MOVED_COIN := Coin(0, 2, false, Plain(BASE_REWARD))

  const BEFORE: CoinSet := map[OLD := OLD_COIN, FILL := FILL_COIN]
  const LEFT: CoinSet := BEFORE[MOVED := MOVED_COIN]

  // The states of the run.

  function Level0(): Level {
    Level(GenesisBlock(), map[], map[])
  }

  function Level1(): Level {
    Level(Filler(), map[OLD := OLD_COIN], map[])
  }

  function Level2(): Level {
    Level(Doubling(BASE_REWARD), BEFORE, map[])
  }

  function Genesis0(): Held {
    Held([Level0()], {0})
  }

  function Filled1(): Held {
    Held([Level0(), Level1()], {0, 1})
  }

  function Doubled2(): Held {
    Held([Level0(), Level1(), Level2()], {0, 1, 2})
  }

  /** What is stored in the end: one level less, and the moved coin over it. */
  function Ends(): Held {
    Held([Level0(), Level1().(strays := map[MOVED := MOVED_COIN])], {0, 1})
  }

  lemma {:induction false} CoinsAre()
    ensures CoinOf(GenesisBlock()[0], 0, 0) == OLD_COIN && CoinOf(Filler()[0], 1, 0) == FILL_COIN
    ensures CoinOf(Move(BASE_REWARD), 2, 0) == MOVED_COIN
  {
    MovedCoin(BASE_REWARD, 2);
  }

  lemma {:induction false} StoresAreReady()
    ensures Ready(BEFORE, BASE_REWARD) && MOVED !in BEFORE && Ready(LEFT, BASE_REWARD)
    ensures Mature(BEFORE[OLD], 2, Rules()) && LEFT[OLD] == BEFORE[OLD]
    ensures OLD in BEFORE && OLD != FILL && OLD != MOVED && FILL != MOVED
  {
    hide Zeros, Id;
    IdsAreReal();
  }

  lemma {:induction false} GenesisIs()
    ensures Genesis(GenesisBlock(), 1) == map[OLD := OLD_COIN]
    ensures GenesisTotal(GenesisBlock(), 1) == BASE_REWARD && GetReward(0, HALVING_INTERVAL) == BASE_REWARD
  {
    var b := GenesisBlock();
    CoinsAre();
    Rewards();
    OneOutput(b[0], 0);
    hide Zeros, Id, CoinsOf, GetReward;
    assert Genesis(b, 0) == map[] && GenesisTotal(b, 0) == 0;
    assert map[] + CoinsOf(b[0], 0) == CoinsOf(b[0], 0);
  }

  lemma {:induction false} FillerConnects()
    ensures NewIds(map[OLD := OLD_COIN], Filler()) && Filler() != []
    ensures Acceptable(map[OLD := OLD_COIN], Filler(), 1, Rules())
    ensures ApplyBlock(map[OLD := OLD_COIN], Filler(), 1, HALVING_INTERVAL) == Some(Ledger(BEFORE, 0, []))
  {
    var coins, b := map[OLD := OLD_COIN], Filler();
    CoinsAre();
    IdsAreReal();
    OneOutput(b[0], 1);
    FirstCreates(coins, b, 1);
    Claims(b, 1);
    StartScreening(coins, b, 1, Rules());
    hide Zeros, Id, Apply, ClaimsAllowed, ScreenedTo, GetReward, CoinOf;
    assert coins[FILL := FILL_COIN] == BEFORE;
    assert SaneTransaction(b[0]);
  }

  lemma {:induction false} StartIs()
    ensures Start(GenesisBlock(), HALVING_INTERVAL) == Genesis0()
    ensures TopOf(Genesis0().levels, HALVING_INTERVAL) == map[OLD := OLD_COIN]
  {
    GenesisIs();
    var g := GenesisBlock();
    hide Genesis, GetReward, Doubling;
    assert [g][..0] == [] && PlainLevels([], HALVING_INTERVAL) == [];
    assert PlainLevels([g], HALVING_INTERVAL) == [Level(g, map[], map[])];
    var coins: CoinSet := map[OLD := OLD_COIN];
    assert coins + map[] == coins;
  }

  /** Connecting an acceptable block with new ids. */
  lemma {:induction false} Joins(s: Held, b: Block)
    requires s.levels != [] && NewIds(TopOf(s.levels, HALVING_INTERVAL), b)
    requires Acceptable(TopOf(s.levels, HALVING_INTERVAL), b, |s.levels|, Rules())
    ensures IdsOwn(s, Connect(b, true), HALVING_INTERVAL)
    ensures After(s, Connect(b, true), Rules())
         == Held(s.levels + [Level(b, TopOf(s.levels, HALVING_INTERVAL), map[])], s.records + {|s.levels|})
  {
    hide NewIds, TopOf, Acceptable;
  }

  lemma {:induction false} FillerJoins()
    ensures Genesis0().levels != [] && IdsOwn(Genesis0(), Connect(Filler(), true), HALVING_INTERVAL)
    ensures After(Genesis0(), Connect(Filler(), true), Rules()) == Filled1()
  {
    StartIs();
    FillerConnects();
    hide NewIds, TopOf, Acceptable, Filler, Level0, After, IdsOwn;
    Joins(Genesis0(), Filler());
  }

  lemma {:induction false} FilledTop()
    ensures Filled1().levels != [] && TopOf(Filled1().levels, HALVING_INTERVAL) == BEFORE
  {
    FillerConnects();
    hide ApplyBlock, Acceptable, NewIds, Filler, Level0;
    assert BEFORE + map[] == BEFORE;
  }

  lemma {:induction false} DoublingJoins()
    ensures Filled1().levels != [] && IdsOwn(Filled1(), Connect(Doubling(BASE_REWARD), true), HALVING_INTERVAL)
    ensures After(Filled1(), Connect(Doubling(BASE_REWARD), true), Rules()) == Doubled2()
  {
    FilledTop();
    StoresAreReady();
    DoublingAcceptable(BEFORE, BASE_REWARD);
    DoublingNew(BEFORE, BASE_REWARD);
    hide NewIds, TopOf, Acceptable, Doubling, Level0, Level1, After, IdsOwn, ApplyBlock, Moved, After1, Ready;
    Joins(Filled1(), Doubling(BASE_REWARD));
    assert [Level0(), Level1()] + [Level2()] == [Level0(), Level1(), Level2()];
  }

  lemma {:induction false} PhantomLeft()
    ensures PhantomCoins(Level2(), 2, HALVING_INTERVAL) == map[MOVED := MOVED_COIN]
  {
    StoresAreReady();
    CoinsAre();
    DoublingAcceptable(BEFORE, BASE_REWARD);
    DoublingApplies(BEFORE, BASE_REWARD, 2);
    MovedStays(BEFORE, BASE_REWARD, 2);
    OnePhantom(BASE_REWARD);
    hide Zeros, Id, ApplyBlock, Doubling, After1, Moved, Phantoms, Restrict, Ready, CoinOf, GenesisBlock, Filler;
  }

  lemma {:induction false} GoesBack()
    ensures Doubled2().levels != [] && IdsOwn(Doubled2(), Reorganize(1), HALVING_INTERVAL)
    ensures After(Doubled2(), Reorganize(1), Rules()) == Ends()
  {
    PhantomLeft();
    MovedIsNew();
    var levels := Doubled2().levels;
    hide PhantomCoins, Clear, Doubling, Filler, GenesisBlock, Replayed;
    assert LeftAbove(levels, 2, HALVING_INTERVAL) == map[];
    var moved: CoinSet := map[MOVED := MOVED_COIN];
    assert map[] + map[] + moved == moved;
    assert LeftAbove(levels, 1, HALVING_INTERVAL) == moved;
    assert Cut(levels, 1, HALVING_INTERVAL) == Ends().levels;
    assert RecordsAfter({0, 1, 2}, 1, 3) == {0, 1};
  }

  lemma {:induction false} MovedIsNew()
    ensures Clear(map[MOVED := MOVED_COIN], Level1())
  {
    hide Zeros, Id;
    IdsAreReal();
    assert Filler()[0].hash == Id(4) && |Filler()| == 1;
  }

  lemma {:induction false} LeftIs()
    ensures TopOf(Ends().levels, HALVING_INTERVAL) == LEFT && Value(LEFT) == 3 * BASE_REWARD
  {
    FillerConnects();
    StoresAreReady();
    hide Acceptable, NewIds, ApplyBlock, Filler, GenesisBlock, Doubling, Value;
    assert BEFORE + map[MOVED := MOVED_COIN] == LEFT;
    OneCoin(OLD, OLD_COIN);
    var first: CoinSet := map[OLD := OLD_COIN];
    assert first[FILL := FILL_COIN] == BEFORE;
    ValueAdd(first, FILL, FILL_COIN);
    ValueAdd(BEFORE, MOVED, MOVED_COIN);
  }

  lemma {:induction false} RunEnds()
    ensures RunsTo(Ends(), [], Rules(), Ends())
  {
  }

  lemma {:induction false} RunGoesOn(s: Held, e: Event, rest: seq<Event>, end: Held)
    requires s.levels != [] && IdsOwn(s, e, HALVING_INTERVAL) && RunsTo(After(s, e, Rules()), rest, Rules(), end)
    ensures RunsTo(s, [e] + rest, Rules(), end)
  {
    hide After, IdsOwn;
    assert ([e] + rest)[1..] == rest;
  }

  function RunEvents(): seq<Event> {
    [Connect(Filler(), true)] + ([Connect(Doubling(BASE_REWARD), true)] + ([Reorganize(1)] + []))
  }

  lemma {:induction false} TheRun()
    ensures RunsTo(Start(GenesisBlock(), HALVING_INTERVAL), RunEvents(), Rules(), Ends())
  {
    hide Start, After, IdsOwn, RunsTo, Filler, GenesisBlock, Doubling, Ends, Genesis0, Filled1, Doubled2, Rules;
    StartIs();
    GoesBack();
    RunEnds();
    RunGoesOn(Doubled2(), Reorganize(1), [], Ends());
    DoublingJoins();
    RunGoesOn(Filled1(), Connect(Doubling(BASE_REWARD), true), [Reorganize(1)] + [], Ends());
    FillerJoins();
    RunGoesOn(Genesis0(), Connect(Filler(), true), [Connect(Doubling(BASE_REWARD), true)] + ([Reorganize(1)] + []), Ends());
  }

  /**
   * Three events break the bound on the supply: a block, the block above, and going back by one. Two
   * subsidies have been paid on the chain that is left, and coins worth three are stored.
   */
  lemma {:induction false} BoundBroken()
    ensures RunsTo(Start(GenesisBlock(), HALVING_INTERVAL), RunEvents(), Rules(), Ends())
    ensures GenesisTotal(GenesisBlock(), |GenesisBlock()|) <= GetReward(0, HALVING_INTERVAL)
    ensures |Ends().levels| == 2
    ensures Value(TopOf(Ends().levels, HALVING_INTERVAL)) == SumOfRewards(2, HALVING_INTERVAL) + BASE_REWARD
  {
    hide *;
    TheRun();
    Rewards();
    GenesisIs();
    LeftIs();
    LeftHolds();
  }

  // ---- Mined again ----

  lemma {:induction false} DoublingLeaves(coins: CoinSet, v: nat)
    requires Ready(coins, v) && MOVED in coins && IsMove(After1(coins, v, 2), Move(v))
    ensures var l := Moved(After1(coins, v, 2), Move(v), 2);
      Lingering(coins, Doubling(v), l) == map[] && Replaced(coins, Doubling(v), l) == map[MOVED := coins[MOVED]]
  {
    IdsAreReal();
    DoublingMakes(v);
    hide Zeros, Id, MadeBy, CoinOf, IsMove;
    assert Outpoint(Id(1), 0) !in coins;
  }

  lemma {:induction false} PassingLeaves(coins: CoinSet, v: nat)
    requires Ready(coins, v) && MOVED in coins && IsMove(After6(coins, v, 2), Move(v))
    requires IsMove(Moved(After6(coins, v, 2), Move(v), 2), MoveOn(v))
    ensures var l := Moved(Moved(After6(coins, v, 2), Move(v), 2), MoveOn(v), 2);
      && Lingering(coins, Passing(v), l) == map[MOVED := coins[MOVED]] && Replaced(coins, Passing(v), l) == map[]
      && MOVED !in l.coins
  {
    IdsAreReal();
    PassingMakes(v);
    hide Zeros, Id, MadeBy, CoinOf, IsMove;
    assert Outpoint(Id(6), 0) !in coins && Outpoint(Id(5), 0) !in coins;
  }

  lemma {:induction false} IdsReal(coins: CoinSet, v: nat)
    requires Ready(coins, v)
    ensures RealIds(coins, Doubling(v)) && RealIds(coins, Passing(v))
  {
    hide Zeros, Id;
    IdsAreReal();
    forall i | 0 <= i < 3
      ensures Passing(v)[i].hash != ZERO_HASH
    {
    }
  }

  lemma {:induction false} LeftHolds()
    ensures MOVED in LEFT && LEFT[MOVED] == MOVED_COIN && |Ends().levels| == 2 && |GenesisBlock()| == 1
    ensures OLD in LEFT && OLD in BEFORE && BASE_REWARD > 0
  {
    hide Zeros;
    IdsAreReal();
  }

  /**
   * On that store the same block can be connected again. What it stores is the fold, but the moved coin
   * was there: the counters count it twice.
   */
  lemma {:induction false} MinedAgain()
    ensures var b, coins := Doubling(BASE_REWARD), TopOf(Ends().levels, HALVING_INTERVAL);
      && RealIds(coins, b) && Acceptable(coins, b, |Ends().levels|, Rules())
      && var l := ApplyBlock(coins, b, |Ends().levels|, HALVING_INTERVAL).value;
      && Lingering(coins, b, l) == map[] && Replaced(coins, b, l) == map[MOVED := MOVED_COIN]
  {
    hide *;
    LeftIs();
    LeftHolds();
    StoresAreReady();
    IdsReal(LEFT, BASE_REWARD);
    DoublingAcceptable(LEFT, BASE_REWARD);
    DoublingApplies(LEFT, BASE_REWARD, 2);
    DoublingLeaves(LEFT, BASE_REWARD);
  }

  /**
   * A block may also mine the transaction again and move its output on. The fold spends the moved coin,
   * but the one that was there stays stored: a coin that the chain has spent can be spent again.
   */
  lemma {:induction false} SpentAgain()
    ensures var b, coins := Passing(BASE_REWARD), TopOf(Ends().levels, HALVING_INTERVAL);
      && RealIds(coins, b) && Acceptable(coins, b, |Ends().levels|, Rules())
      && var l := ApplyBlock(coins, b, |Ends().levels|, HALVING_INTERVAL).value;
      && MOVED !in l.coins && Lingering(coins, b, l) == map[MOVED := MOVED_COIN] && Replaced(coins, b, l) == map[]
  {
    hide *;
    LeftIs();
    LeftHolds();
    StoresAreReady();
    IdsReal(LEFT, BASE_REWARD);
    PassingAcceptable(LEFT, BASE_REWARD);
    PassingLeaves(LEFT, BASE_REWARD);
  }
}
