/**
 * Whole runs of the coin database: connecting, reorganizing, losing undo records and rebuilding, in any
 * order (Sources/Chain/Chain.swift, lines 697 to 850; Sources/Chain/ChainValidation.swift, lines 159
 * to 290).
 */
module CoinRuns {
  import opened Base
  import opened Coins
  import opened CoinUndo
  import opened CoinDatabase
  import opened UtxoChain
  import opened UtxoRuns
  import opened UtxoReorgs

  /** What happens to a chain of stored blocks; an undo record may also get lost. */
  datatype Event =
    | Connect(block: Block, admitted: bool)
    | Reorganize(height: nat)
    | Rebuild(height: nat)
    | Loses(height: nat)

  /** The levels stored, and the heights with an undo record. */
  datatype Held = Held(levels: seq<Level>, records: set<nat>)

  ghost predicate Carries(db: CoinDatabase, s: Held, interval: nat)
    reads db
  {
    Stands(db, s.levels, interval) && db.undos.Keys == s.records
  }

  ghost function Start(genesis: Block, interval: nat): Held
    requires interval > 0
  {
    Held(PlainLevels([genesis], interval), {0})
  }

  /** After replaying the blocks up to a height, as far as they go. */
  ghost function Replayed(s: Held, height: nat, interval: nat): Held
    requires interval > 0 && height < |s.levels|
  {
    var blocks := BlocksOf(s.levels);
    var n := Longest(blocks, height + 1, interval);
    Held(PlainLevels(blocks[..n], interval), Below(n))
  }

  /** A block accepted on what is stored becomes the new top level. */
  ghost function Joining(levels: seq<Level>, b: Block, interval: nat): seq<Level>
    requires interval > 0 && levels != []
  {
    levels + [Level(b, TopOf(levels, interval), map[])]
  }

  ghost function After(s: Held, e: Event, rules: CoinRules): Held
    requires rules.interval > 0 && s.levels != []
  {
    var n := |s.levels|;
    match e
    case Connect(b, admitted) =>
      if admitted && Acceptable(TopOf(s.levels, rules.interval), b, n, rules)
      then Held(Joining(s.levels, b, rules.interval), s.records + {n}) else s
    case Reorganize(height) =>
      if height >= n then s
      else if Recorded(s.records, height, n)
      then Held(Cut(s.levels, height, rules.interval), RecordsAfter(s.records, height, n))
      else Replayed(s, height, rules.interval)
    case Rebuild(height) => if height < n then Replayed(s, height, rules.interval) else s
    case Loses(height) => s.(records := s.records - {height})
  }

  /** Ids do not recur: a block's are new to the store, and phantoms are nothing older blocks knew. */
  ghost predicate IdsOwn(s: Held, e: Event, interval: nat)
    requires interval > 0 && s.levels != []
  {
    match e
    case Connect(b, _) => NewIds(TopOf(s.levels, interval), b)
    case Reorganize(height) => OwnPhantoms(s.levels, height, interval)
    case Rebuild(_) | Loses(_) => true
  }

  lemma {:induction false} JoiningSound(levels: seq<Level>, b: Block, interval: nat)
    requires Sound(levels, interval) && SaneBlock(b) && b != [] && NewIds(TopOf(levels, interval), b)
    requires ApplyBlock(TopOf(levels, interval), b, |levels|, interval).Some?
    ensures Sound(Joining(levels, b, interval), interval)
    ensures TopOf(Joining(levels, b, interval), interval)
         == ApplyBlock(TopOf(levels, interval), b, |levels|, interval).value.coins
    ensures BlocksOf(Joining(levels, b, interval)) == BlocksOf(levels) + [b]
  {
    hide *;
    SoundNotEmpty(levels, interval);
    ApartAt(levels, 0, interval);
    NewTop(TopOf(levels, interval), b, |levels|, interval);
    JoiningParts(levels, b, interval);
    var more := Joining(levels, b, interval);
    forall h | 0 < h < |more|
      ensures Joined(more, h, interval)
    {
      JoiningJoined(levels, b, h, interval);
    }
    forall h | 0 <= h < |more|
      ensures Apart(more[h], h, interval)
    {
      JoiningApart(levels, b, h, interval);
    }
    forall j, h | 0 < j <= h < |more|
      ensures Clear(more[h].strays, more[j])
    {
      JoiningClear(levels, b, j, h, interval);
    }
    SoundIs(more, interval);
    TopIsLast(more, interval);
  }

  lemma {:induction false} JoiningParts(levels: seq<Level>, b: Block, interval: nat)
    requires interval > 0 && levels != []
    ensures var more := Joining(levels, b, interval);
      && |more| == |levels| + 1 && more[0] == levels[0]
      && more[|levels|] == Level(b, TopOf(levels, interval), map[])
      && BlocksOf(more) == BlocksOf(levels) + [b]
  {
    hide TopOf;
  }

  lemma {:induction false} JoiningJoined(levels: seq<Level>, b: Block, h: nat, interval: nat)
    requires Sound(levels, interval) && 0 < h <= |levels| && SaneBlock(b) && b != []
    requires NewIds(TopOf(levels, interval), b) && ApplyBlock(TopOf(levels, interval), b, |levels|, interval).Some?
    ensures interval > 0 && Joined(Joining(levels, b, interval), h, interval)
  {
    hide Clear, Apart, NewIds, SaneBlock, ApplyBlock, Top;
    if h < |levels| {
      assert Joined(levels, h, interval);
    }
  }

  lemma {:induction false} JoiningApart(levels: seq<Level>, b: Block, h: nat, interval: nat)
    requires Sound(levels, interval) && h <= |levels|
    ensures interval > 0 && Apart(Joining(levels, b, interval)[h], h, interval)
  {
    hide Clear, Joined, TopOf, Folded;
    if h < |levels| {
      assert Apart(levels[h], h, interval);
    }
  }

  lemma {:induction false} JoiningClear(levels: seq<Level>, b: Block, j: nat, h: nat, interval: nat)
    requires Sound(levels, interval) && 0 < j <= h <= |levels|
    ensures interval > 0 && Clear(Joining(levels, b, interval)[h].strays, Joining(levels, b, interval)[j])
  {
    hide Joined, Apart, TopOf, Ids;
    if h < |levels| {
      assert Clear(levels[h].strays, levels[j]);
    }
  }

  lemma {:induction false} NewTop(coins: CoinSet, b: Block, h: nat, interval: nat)
    requires interval > 0 && h > 0 && b != [] && ApplyBlock(coins, b, h, interval).Some?
    ensures var l := Level(b, coins, map[]);
      && Applied(l, h, interval) == ApplyBlock(coins, b, h, interval).value
      && Top(l, h, interval) == ApplyBlock(coins, b, h, interval).value.coins
  {
    hide ApplyBlock;
  }

  lemma {:induction false} JoiningUndos(levels: seq<Level>, b: Block, undos: map<nat, seq<Coin>>, interval: nat)
    requires interval > 0 && levels != [] && b != []
    requires ApplyBlock(TopOf(levels, interval), b, |levels|, interval).Some?
    requires forall h: nat :: 0 < h < |levels| && h in undos ==> undos[h] == Applied(levels[h], h, interval).undo
    ensures var more, now := Joining(levels, b, interval),
                             undos[|levels| := ApplyBlock(TopOf(levels, interval), b, |levels|, interval).value.undo];
      forall h: nat :: 0 < h < |more| && h in now ==> now[h] == Applied(more[h], h, interval).undo
  {
    hide ApplyBlock, TopOf;
    NewTop(TopOf(levels, interval), b, |levels|, interval);
    hide Applied;
  }

  method HandleConnect(db: CoinDatabase, b: Block, height: nat, admitted: bool, ghost s: Held, rules: CoinRules)
    returns (passed: bool)
    requires Carries(db, s, rules.interval) && height == |s.levels|
    requires rules.interval > 0 && IdsOwn(s, Connect(b, admitted), rules.interval)
    modifies db
    ensures s.levels != [] && Carries(db, After(s, Connect(b, admitted), rules), rules.interval)
    ensures BlocksOf(After(s, Connect(b, admitted), rules).levels) == BlocksOf(s.levels) + if passed then [b] else []
  {
    hide ApplyBlock, Acceptable, NewIds, RealIds, Sound, TopOf, Joining, Applied, Value, BlocksOf, Lingering, Replaced, CountBoth;
    StandsSound(db, s.levels, rules.interval);
    ghost var coins, undos := db.coins, db.undos;
    NewIsReal(coins, b);
    var r := ConnectBlock(db, b, height, rules, admitted);
    if r.Pass? {
      AcceptableApplies(coins, b, height, rules);
      NewIdsExact(coins, b, ApplyBlock(coins, b, height, rules.interval).value);
      db.CountedOnce(db.coins);
      JoiningSound(s.levels, b, rules.interval);
      JoiningUndos(s.levels, b, undos, rules.interval);
      JoiningLength(s.levels, b, rules.interval);
    }
    return r.Pass?;
  }

  lemma {:induction false} JoiningLength(levels: seq<Level>, b: Block, interval: nat)
    requires interval > 0 && levels != []
    ensures |Joining(levels, b, interval)| == |levels| + 1
  {
  }

  /** A database that represents a chain holds its plain levels. */
  lemma {:induction false} ReplayedCarries(db: CoinDatabase, s: Held, height: nat, interval: nat)
    requires interval > 0 && height < |s.levels|
    requires var blocks := BlocksOf(s.levels);
      var n := Longest(blocks, height + 1, interval);
      Represents(db, blocks[..n], interval) && db.undos.Keys == Below(n)
    ensures Carries(db, Replayed(s, height, interval), interval)
    ensures BlocksOf(Replayed(s, height, interval).levels)
         == BlocksOf(s.levels)[..Longest(BlocksOf(s.levels), height + 1, interval)]
  {
    var blocks := BlocksOf(s.levels);
    var n := Longest(blocks, height + 1, interval);
    IsValid(db, blocks[..n], interval);
    hide Represents, Stands, PlainLevels, Longest, ValidChain;
    RepresentsStands(db, blocks[..n], interval);
    PlainBlocks(blocks[..n], interval);
  }

  method HandleRebuild(db: CoinDatabase, blocks: seq<Block>, height: nat, ghost s: Held, interval: nat)
    returns (next: seq<Block>)
    requires interval > 0 && Sound(s.levels, interval) && blocks == BlocksOf(s.levels) && height < |blocks|
    modifies db
    ensures Carries(db, Replayed(s, height, interval), interval) && next == BlocksOf(Replayed(s, height, interval).levels)
  {
    hide *;
    SoundReplays(s.levels, interval);
    var r, done := RebuildUtxo(db, blocks, height, interval);
    IsValid(db, blocks[..done], interval);
    NotEmpty(blocks[..done], interval);
    LongestIs(blocks, height + 1, done, interval);
    ReplayedCarries(db, s, height, interval);
    next := blocks[..done];
  }

  method HandleReorganize(db: CoinDatabase, blocks: seq<Block>, height: nat, ghost s: Held, rules: CoinRules)
    returns (next: seq<Block>)
    requires rules.interval > 0 && Carries(db, s, rules.interval) && blocks == BlocksOf(s.levels) && height < |blocks|
    requires OwnPhantoms(s.levels, height, rules.interval)
    modifies db
    ensures s.levels != [] && Carries(db, After(s, Reorganize(height), rules), rules.interval)
    ensures next == BlocksOf(After(s, Reorganize(height), rules).levels)
  {
    hide Stands, Longest, Cut, OwnPhantoms, Represents, PlainLevels, BlocksOf, Below, RecordsAfter, Recorded, Replayed;
    var r, done := DisconnectTo(db, blocks, height, s.levels, rules.interval);
    if Recorded(s.records, height, |s.levels|) {
      CutBlocks(s.levels, height, rules.interval);
    } else {
      ReplayedCarries(db, s, height, rules.interval);
    }
    next := blocks[..done];
  }

  lemma {:induction false} CutBlocks(levels: seq<Level>, h: nat, interval: nat)
    requires interval > 0 && h < |levels|
    ensures BlocksOf(Cut(levels, h, interval)) == BlocksOf(levels)[..h + 1]
  {
    hide *;
    var cut := Cut(levels, h, interval);
    forall k | 0 <= k <= h
      ensures cut[k].block == levels[k].block
    {
      CutBlock(levels, h, k, interval);
    }
    assert BlocksOf(cut) == BlocksOf(levels)[..h + 1];
  }

  lemma {:induction false} CutBlock(levels: seq<Level>, h: nat, k: nat, interval: nat)
    requires interval > 0 && k <= h < |levels|
    ensures Cut(levels, h, interval)[k].block == levels[k].block
  {
    hide LeftAbove;
  }

  /** Every event takes the store from one state to the next. */
  method Handle(db: CoinDatabase, blocks: seq<Block>, e: Event, ghost s: Held, rules: CoinRules) returns (next: seq<Block>)
    requires rules.interval > 0 && Carries(db, s, rules.interval) && blocks == BlocksOf(s.levels)
    requires s.levels != [] && IdsOwn(s, e, rules.interval)
    modifies db
    ensures Carries(db, After(s, e, rules), rules.interval) && next == BlocksOf(After(s, e, rules).levels)
  {
    hide Stands, Longest, Cut, OwnPhantoms, Replayed, Joining, Acceptable, NewIds, BlocksOf, Recorded, RecordsAfter;
    next := blocks;
    match e {
      case Connect(b, admitted) =>
        var passed := HandleConnect(db, b, |blocks|, admitted, s, rules);
        next := if passed then blocks + [b] else blocks;
        assert blocks + [] == blocks;
      case Reorganize(height) =>
        if height < |blocks| {
          next := HandleReorganize(db, blocks, height, s, rules);
        }
      case Rebuild(height) =>
        if height < |blocks| {
          StandsSound(db, s.levels, rules.interval);
          next := HandleRebuild(db, blocks, height, s, rules.interval);
        }
      case Loses(height) =>
        LosesRecord(db, height, s, rules.interval);
    }
  }

  method LosesRecord(db: CoinDatabase, height: nat, ghost s: Held, interval: nat)
    requires Carries(db, s, interval)
    modifies db
    ensures Carries(db, s.(records := s.records - {height}), interval)
  {
    hide Sound, TopOf, Applied, Value;
    db.undos := db.undos - {height};
  }

  /** The state after a whole run, if ids do not recur in it. */
  ghost predicate RunsTo(s: Held, events: seq<Event>, rules: CoinRules, end: Held)
    decreases |events|
  {
    rules.interval > 0 && s.levels != [] &&
    if events == [] then s == end
    else IdsOwn(s, events[0], rules.interval) && RunsTo(After(s, events[0], rules), events[1..], rules, end)
  }

  method StartCarries(db: CoinDatabase, genesis: Block, interval: nat)
    requires interval > 0
    modifies db
    ensures Carries(db, Start(genesis, interval), interval) && BlocksOf(Start(genesis, interval).levels) == [genesis]
  {
    hide Represents, Stands, PlainLevels, BlocksOf;
    StartFresh(db, genesis, interval);
    GenesisChain(genesis, interval);
    RepresentsStands(db, [genesis], interval);
    PlainBlocks([genesis], interval);
  }

  // ---- Soundness of the states themselves ----

  /** What can be replayed up to some block is a valid chain up to there. */
  lemma {:induction false} ReplayableValid(blocks: seq<Block>, n: nat, interval: nat)
    requires Replayable(blocks, interval) && 0 < n <= |blocks| && CoinsAt(blocks[..n], interval).Some?
    ensures interval > 0 && ValidChain(blocks[..n], interval)
  {
    hide CoinsAt, SaneBlock, NewIds;
    var front := blocks[..n];
    forall h | 1 <= h < n
      ensures SaneBlock(front[h]) && CoinsAt(front[..h], interval).Some?
      ensures NewIds(CoinsAt(front[..h], interval).value, front[h])
    {
      assert front[..h] == blocks[..h];
      InvalidPrefix(front, h, interval);
    }
  }

  lemma {:induction false} LongestValid(blocks: seq<Block>, n: nat, interval: nat)
    requires Replayable(blocks, interval) && 0 < n <= |blocks|
    ensures interval > 0 && ValidChain(blocks[..Longest(blocks, n, interval)], interval)
    decreases n
  {
    hide Replayable, ValidChain, CoinsAt;
    StartReplay(blocks, interval);
    if n == 1 {
      assert blocks[..1] == [blocks[0]];
      GenesisChain(blocks[0], interval);
    } else if CoinsAt(blocks[..n], interval).Some? {
      ReplayableValid(blocks, n, interval);
    } else {
      LongestValid(blocks, n - 1, interval);
    }
  }

  lemma {:induction false} ReplayedSound(s: Held, height: nat, interval: nat)
    requires Sound(s.levels, interval) && height < |s.levels|
    ensures interval > 0 && Sound(Replayed(s, height, interval).levels, interval)
    ensures Replayed(s, height, interval).levels != []
    ensures Replayed(s, height, interval).levels[0].block == s.levels[0].block
  {
    hide *;
    SoundNotEmpty(s.levels, interval);
    ReplayedIs(s, height, interval);
    var blocks := BlocksOf(s.levels);
    SoundReplays(s.levels, interval);
    LongestValid(blocks, height + 1, interval);
    var front := blocks[..Longest(blocks, height + 1, interval)];
    NotEmpty(front, interval);
    PlainSound(front, interval);
    PlainLevel(front, 0, interval);
  }

  lemma {:induction false} ReplayedIs(s: Held, height: nat, interval: nat)
    requires interval > 0 && height < |s.levels|
    ensures var blocks := BlocksOf(s.levels);
      Replayed(s, height, interval).levels == PlainLevels(blocks[..Longest(blocks, height + 1, interval)], interval)
  {
    hide BlocksOf, Longest, PlainLevels;
  }

  /** Every state a run reaches is sound, and starts with the same genesis block. */
  lemma {:induction false} AfterSound(s: Held, e: Event, rules: CoinRules)
    requires Sound(s.levels, rules.interval) && s.levels != [] && rules.interval > 0 && IdsOwn(s, e, rules.interval)
    ensures Sound(After(s, e, rules).levels, rules.interval) && After(s, e, rules).levels != []
    ensures After(s, e, rules).levels[0].block == s.levels[0].block
  {
    hide Sound, Acceptable, NewIds, OwnPhantoms, Replayed, Recorded, TopOf, LeftAbove;
    match e
    case Connect(b, admitted) =>
      if admitted && Acceptable(TopOf(s.levels, rules.interval), b, |s.levels|, rules) {
        AcceptableApplies(TopOf(s.levels, rules.interval), b, |s.levels|, rules);
        JoiningSound(s.levels, b, rules.interval);
      }
    case Reorganize(height) =>
      if height < |s.levels| {
        CutSound(s.levels, height, rules.interval);
        ReplayedSound(s, height, rules.interval);
      }
    case Rebuild(height) =>
      if height < |s.levels| {
        ReplayedSound(s, height, rules.interval);
      }
    case Loses(_) =>
  }

  lemma {:induction false} StartSound(genesis: Block, interval: nat)
    requires interval > 0
    ensures Sound(Start(genesis, interval).levels, interval) && |Start(genesis, interval).levels| == 1
    ensures Start(genesis, interval).levels[0].block == genesis && Start(genesis, interval).levels[0].strays == map[]
  {
    hide Sound, PlainLevels;
    GenesisChain(genesis, interval);
    PlainSound([genesis], interval);
    PlainLevel([genesis], 0, interval);
  }

  // ---- Fair runs ----

  /** No block that an event of the run undoes has phantoms. */
  ghost predicate Fair(s: Held, events: seq<Event>, rules: CoinRules)
    requires rules.interval > 0
    decreases |events|
  {
    s.levels != [] &&
    if events == [] then true
    else
      && (events[0].Reorganize? ==> NoPhantomsAbove(BlocksOf(s.levels), events[0].height))
      && Fair(After(s, events[0], rules), events[1..], rules)
  }

  ghost predicate NoStrays(levels: seq<Level>) {
    forall h :: 0 <= h < |levels| ==> levels[h].strays == map[]
  }

  lemma {:induction false} AfterPlain(s: Held, e: Event, rules: CoinRules)
    requires rules.interval > 0 && Sound(s.levels, rules.interval) && s.levels != [] && NoStrays(s.levels)
    requires e.Reorganize? ==> NoPhantomsAbove(BlocksOf(s.levels), e.height)
    ensures NoStrays(After(s, e, rules).levels)
  {
    hide Acceptable, Longest, BlocksOf, NoPhantomsAbove, TopOf, PlainLevels, Cut, Recorded, Sound, Replayed;
    match e
    case Connect(b, admitted) =>
    case Reorganize(height) =>
      if height < |s.levels| {
        CutPlain(s.levels, height, rules.interval);
        ReplayedPlain(s, height, rules.interval);
      }
    case Rebuild(height) =>
      if height < |s.levels| {
        ReplayedPlain(s, height, rules.interval);
      }
    case Loses(_) =>
  }

  lemma {:induction false} ReplayedPlain(s: Held, height: nat, interval: nat)
    requires interval > 0 && height < |s.levels|
    ensures NoStrays(Replayed(s, height, interval).levels)
  {
    hide PlainLevels, Longest, BlocksOf;
    var blocks := BlocksOf(s.levels);
    var replayed := blocks[..Longest(blocks, height + 1, interval)];
    forall h | 0 <= h < |replayed|
      ensures PlainLevels(replayed, interval)[h].strays == map[]
    {
      PlainLevel(replayed, h, interval);
    }
  }

  lemma {:induction false} CutPlain(levels: seq<Level>, h: nat, interval: nat)
    requires Sound(levels, interval) && h < |levels| && NoStrays(levels) && NoPhantomsAbove(BlocksOf(levels), h)
    ensures interval > 0 && NoStrays(Cut(levels, h, interval))
  {
    hide Sound, NoPhantomsAbove, BlocksOf, LeftAbove;
    SoundNotEmpty(levels, interval);
    NothingLeft(levels, h, interval);
    CutNothing(levels, h, interval);
  }

  /** A run stays sound on its genesis block, and without strays as long as it is fair. */
  lemma {:induction false} RunSound(s: Held, events: seq<Event>, rules: CoinRules, end: Held)
    requires RunsTo(s, events, rules, end) && Sound(s.levels, rules.interval)
    ensures rules.interval > 0 && Sound(end.levels, rules.interval) && s.levels != [] && end.levels != []
    ensures end.levels[0].block == s.levels[0].block
    ensures NoStrays(s.levels) && Fair(s, events, rules) ==> NoStrays(end.levels)
    decreases |events|
  {
    hide Sound, After, IdsOwn, NoPhantomsAbove, NoStrays;
    if events != [] {
      AfterSound(s, events[0], rules);
      if NoStrays(s.levels) && Fair(s, events, rules) {
        AfterPlain(s, events[0], rules);
      }
      RunSound(After(s, events[0], rules), events[1..], rules, end);
    }
  }

  lemma {:induction false} NoStrayAt(levels: seq<Level>, h: nat)
    requires NoStrays(levels) && h < |levels|
    ensures levels[h].strays == map[]
  {
  }

  /** Without strays the blocks replay to exactly what is stored. */
  lemma {:induction false} PlainAt(levels: seq<Level>, h: nat, interval: nat)
    requires Sound(levels, interval) && NoStrays(levels) && h < |levels|
    ensures interval > 0 && CoinsAt(BlocksOf(levels)[..h + 1], interval) == Some(Top(levels[h], h, interval))
  {
    hide *;
    NoStrayAt(levels, h);
    ApartAt(levels, h, interval);
    TopPlain(levels[h], h, interval);
    var blocks := BlocksOf(levels);
    if h == 0 {
      assert blocks[..1] == [blocks[0]];
      GenesisChain(blocks[0], interval);
      NotEmpty([blocks[0]], interval);
    } else {
      JoinedFacts(levels, h, interval);
      PlainAt(levels, h - 1, interval);
      assert blocks[..h] + [blocks[h]] == blocks[..h + 1];
      CoinsAtMore(blocks[..h], blocks[h], interval);
      AppliedSome(levels[h], h, interval);
    }
  }

  lemma {:induction false} PlainChain(levels: seq<Level>, interval: nat)
    requires Sound(levels, interval) && NoStrays(levels)
    ensures ValidChain(BlocksOf(levels), interval)
  {
    hide *;
    SoundNotEmpty(levels, interval);
    var blocks := BlocksOf(levels);
    forall h | 1 <= h < |blocks|
      ensures SaneBlock(blocks[h]) && CoinsAt(blocks[..h], interval).Some?
      ensures NewIds(CoinsAt(blocks[..h], interval).value, blocks[h])
    {
      PlainAt(levels, h - 1, interval);
      JoinedFacts(levels, h, interval);
    }
    PlainAt(levels, |levels| - 1, interval);
    assert blocks[..|blocks|] == blocks;
    ChainIs(blocks, interval);
  }

  lemma {:induction false} ChainIs(blocks: seq<Block>, interval: nat)
    requires interval > 0 && blocks != [] && CoinsAt(blocks, interval).Some?
    requires forall h :: 1 <= h < |blocks| ==>
      SaneBlock(blocks[h]) && CoinsAt(blocks[..h], interval).Some? && NewIds(CoinsAt(blocks[..h], interval).value, blocks[h])
    ensures ValidChain(blocks, interval)
  {
    hide CoinsAt, SaneBlock, NewIds;
  }

  lemma {:induction false} PlainUndo(levels: seq<Level>, h: nat, interval: nat)
    requires Sound(levels, interval) && NoStrays(levels) && ValidChain(BlocksOf(levels), interval) && 0 < h < |levels|
    ensures interval > 0 && Applied(levels[h], h, interval).undo == UndoAt(BlocksOf(levels), h, interval)
  {
    hide *;
    PlainAt(levels, h - 1, interval);
    JoinedFacts(levels, h, interval);
    AppliedSome(levels[h], h, interval);
    UndoIs(BlocksOf(levels), h, levels[h].before, interval);
  }

  /** Without strays the store represents the chain of the blocks reached. */
  lemma {:induction false} PlainRepresents(db: CoinDatabase, s: Held, interval: nat)
    requires Carries(db, s, interval) && NoStrays(s.levels)
    ensures Represents(db, BlocksOf(s.levels), interval)
  {
    hide *;
    CarriesStands(db, s, interval);
    StandsSound(db, s.levels, interval);
    var levels := s.levels;
    var blocks := BlocksOf(levels);
    PlainChain(levels, interval);
    PlainAt(levels, |levels| - 1, interval);
    TopIsLast(levels, interval);
    assert blocks[..|blocks|] == blocks;
    forall h: nat | 0 < h < |blocks|
      ensures Applied(levels[h], h, interval).undo == UndoAt(blocks, h, interval)
    {
      PlainUndo(levels, h, interval);
    }
    StandsRepresents(db, levels, blocks, interval);
  }

  lemma {:induction false} CarriesStands(db: CoinDatabase, s: Held, interval: nat)
    requires Carries(db, s, interval)
    ensures Stands(db, s.levels, interval)
  {
    hide Stands;
  }

  lemma {:induction false} StandsRepresents(db: CoinDatabase, levels: seq<Level>, blocks: seq<Block>, interval: nat)
    requires Stands(db, levels, interval) && interval > 0 && levels != [] && |blocks| == |levels|
    requires ValidChain(blocks, interval) && CoinsAt(blocks, interval) == Some(TopOf(levels, interval))
    requires forall h: nat :: 0 < h < |blocks| ==> Applied(levels[h], h, interval).undo == UndoAt(blocks, h, interval)
    ensures Represents(db, blocks, interval)
  {
    hide Sound, ValidChain, CoinsAt, TopOf, Applied, UndoAt, Value;
  }

  /**
   * In every run from genesis the store holds exactly the coins of the levels reached: each block folded
   * over what was stored, and what undone blocks left behind; with exact counters and undo records. In a
   * fair run these are the coins of the chain.
   */
  method Run(genesis: Block, events: seq<Event>, rules: CoinRules, ghost end: Held)
    returns (db: CoinDatabase, blocks: seq<Block>)
    requires rules.interval > 0 && RunsTo(Start(genesis, rules.interval), events, rules, end)
    ensures fresh(db) && Carries(db, end, rules.interval) && blocks == BlocksOf(end.levels)
    ensures Fair(Start(genesis, rules.interval), events, rules) ==> Represents(db, blocks, rules.interval)
  {
    hide Carries, After, IdsOwn, BlocksOf, Start, Fair, Represents;
    db := new CoinDatabase();
    ghost var s := Start(genesis, rules.interval);
    StartCarries(db, genesis, rules.interval);
    blocks := [genesis];
    var i := 0;
    while i < |events|
      invariant 0 <= i <= |events| && Carries(db, s, rules.interval) && fresh(db) && blocks == BlocksOf(s.levels)
      invariant RunsTo(s, events[i..], rules, end)
    {
      assert events[i..][0] == events[i] && events[i..][1..] == events[i + 1..];
      blocks := Handle(db, blocks, events[i], s, rules);
      s := After(s, events[i], rules);
      i := i + 1;
    }
    RunPlain(db, genesis, events, rules, end);
  }

  lemma {:induction false} RunPlain(db: CoinDatabase, genesis: Block, events: seq<Event>, rules: CoinRules, end: Held)
    requires rules.interval > 0 && RunsTo(Start(genesis, rules.interval), events, rules, end)
    requires Carries(db, end, rules.interval)
    ensures Fair(Start(genesis, rules.interval), events, rules) ==> Represents(db, BlocksOf(end.levels), rules.interval)
  {
    StartSound(genesis, rules.interval);
    hide Start, Carries, Sound, RunsTo, Fair;
    RunSound(Start(genesis, rules.interval), events, rules, end);
    if NoStrays(end.levels) {
      PlainRepresents(db, end, rules.interval);
    }
  }
}
