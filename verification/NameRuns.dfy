/**
 * One name database object through a whole run: it ends exactly in the database that the states of
 * NameChain describe (Sources/Chain/Chain.swift, lines 188 to 234 and 697 to 724;
 * Sources/Chain/ChainValidation.swift, lines 229 to 275 and 575 to 626).
 */
module NameRuns {
  import opened Base
  import opened NameState
  import opened NameDB
  import opened CovenantContext
  import opened CovenantReplay
  import opened CovenantProcessor
  import opened NameChain

  /** The object stands for the database of this state, which is that of its chain. */
  ghost predicate Holds(p: NameParams, genesis: Store, db: NameDB, s: State)
    reads db
  {
    p.treeInterval > 0 && db.Valid() && db.Meaning() == s.db && Faithful(p, genesis, s)
  }

  /** How many commits a chain has seen above genesis. */
  function Commits(p: NameParams, blocks: seq<Block>): nat {
    if blocks == [] || p.treeInterval == 0 then 0 else (|blocks| - 1) / p.treeInterval
  }

  /** After any run there is a snapshot at every multiple of the interval, and none besides. */
  lemma {:induction false} HoldsRegular(p: NameParams, genesis: Store, db: NameDB, s: State)
    requires IsGenesis(genesis) && Holds(p, genesis, db, s)
    ensures db.store.Regular(Commits(p, s.blocks), p.treeInterval)
    ensures db.store.committed < |s.blocks|
  {
    hide Straight, StorableThroughout, Disk.Sound, Disk.Contents;
    StraightShaped(p, genesis, s.blocks);
    BoundaryAtMost(|s.blocks| - 1, p.treeInterval);
    assert db.Meaning().snapshots.Keys == db.store.snapshots.Keys;
  }

  method HandleConnect(p: NameParams, ghost genesis: Store, db: NameDB, blocks: seq<Block>, ctx: Context, block: Block,
      ghost s: State, rewritten: nat) returns (next: seq<Block>)
    requires IsGenesis(genesis) && Holds(p, genesis, db, s) && blocks == s.blocks && Fits(p, s, Connect(ctx, block))
    modifies db
    ensures Holds(p, genesis, db, ConnectBlock(p, s, ctx, block)) && next == ConnectBlock(p, s, ctx, block).blocks
  {
    hide IsGenesis, Straight, StorableThroughout, Faithful, ProcessTransactions, Disk.Sound, Disk.Contents, Disk.Trees;
    HoldsRegular(p, genesis, db, s);
    ConnectIsStraight(p, genesis, s, ctx, block);
    var r := ConnectInto(p, ctx, block, |blocks|, db, rewritten);
    next := if r.Pass? then blocks + [block] else blocks;
  }

  method HandleReorganize(p: NameParams, ghost genesis: Store, db: NameDB, blocks: seq<Block>, height: nat, ghost s: State)
    returns (next: seq<Block>)
    requires IsGenesis(genesis) && Holds(p, genesis, db, s) && blocks == s.blocks
    modifies db
    ensures TryReorganize(p, s, height).Ok? && Holds(p, genesis, db, TryReorganize(p, s, height).value)
    ensures next == TryReorganize(p, s, height).value.blocks
  {
    hide IsGenesis, Straight, StorableThroughout, Reorganize, LeftByThrow, Disk.Sound, Disk.Contents, Disk.Trees, Disk.Regular;
    HoldsRegular(p, genesis, db, s);
    NextFaithful(p, genesis, s, ReorganizeTo(height));
    var r := DisconnectTo(p, blocks, height, db, Commits(p, blocks));
    if r.Pass? {
      next := blocks[..height + 1];
    } else {
      ThrowKeeps(p, genesis, s, height, db.Meaning());
      next := blocks;
    }
  }

  method HandleRestart(p: NameParams, ghost genesis: Store, db: NameDB, blocks: seq<Block>, ghost s: State, rewritten: nat)
    requires IsGenesis(genesis) && Holds(p, genesis, db, s) && blocks == s.blocks
    modifies db
    ensures Restarted(p, s).Ok? && Holds(p, genesis, db, Restarted(p, s).value) && Restarted(p, s).value.blocks == blocks
  {
    hide IsGenesis, Straight, StorableThroughout, Faithful, Rebuild, Disk.Sound, Disk.Contents, Disk.Trees;
    HoldsRegular(p, genesis, db, s);
    NextFaithful(p, genesis, s, Restart);
    db.Reopen();
    var r := RebuildNameState(p, blocks, db, rewritten);
  }

  /** One event, done by the object: it can never fail. */
  method Handle(p: NameParams, ghost genesis: Store, db: NameDB, blocks: seq<Block>, e: Event, ghost s: State, rewritten: nat)
    returns (next: seq<Block>)
    requires IsGenesis(genesis) && Holds(p, genesis, db, s) && blocks == s.blocks && Fits(p, s, e)
    modifies db
    ensures Next(p, s, e).Ok? && Holds(p, genesis, db, Next(p, s, e).value) && next == Next(p, s, e).value.blocks
  {
    hide IsGenesis, Holds, ConnectBlock, TryReorganize, Restarted;
    match e {
      case Connect(ctx, block) =>
        next := HandleConnect(p, genesis, db, blocks, ctx, block, s, rewritten);
      case ReorganizeTo(height) =>
        next := HandleReorganize(p, genesis, db, blocks, height, s);
      case Restart =>
        HandleRestart(p, genesis, db, blocks, s, rewritten);
        next := blocks;
    }
  }

  /** Each event suits the state it meets. */
  ghost predicate AllFit(p: NameParams, s: State, events: seq<Event>)
    requires p.treeInterval > 0
    decreases |events|
  {
    events == [] ||
    (Fits(p, s, events[0]) && (Next(p, s, events[0]).Ok? ==> AllFit(p, Next(p, s, events[0]).value, events[1..])))
  }

  /**
   * From genesis through any blocks, reorganizations and restarts: the object never gets stuck, and ends
   * in the state the events determine, which replaying the surviving chain from genesis would also give.
   */
  method RunDatabase(p: NameParams, ghost genesis: Store, block: Block, events: seq<Event>, db: NameDB, rewritten: nat)
    returns (blocks: seq<Block>)
    requires p.treeInterval > 0 && IsGenesis(genesis) && AllStorable(genesis.names)
    requires db.Valid() && db.Meaning() == genesis && AllFit(p, State([block], genesis), events)
    modifies db
    ensures db.Valid()
    ensures Run(p, State([block], genesis), events, State(blocks, db.Meaning()))
    ensures Straight(p, genesis, blocks) == Ok(db.Meaning())
  {
    hide IsGenesis, AllStorable, Faithful, Fits, Next, Straight;
    GenesisFaithful(p, genesis, block);
    ghost var s := State([block], genesis);
    blocks := [block];
    var i := 0;
    while i < |events|
      invariant 0 <= i <= |events| && Holds(p, genesis, db, s) && blocks == s.blocks
      invariant AllFit(p, s, events[i..])
      invariant forall t :: Run(p, s, events[i..], t) ==> Run(p, State([block], genesis), events, t)
    {
      RunStep(p, s, events, i);
      blocks := Handle(p, genesis, db, blocks, events[i], s, rewritten);
      s := Next(p, s, events[i]).value;
      i := i + 1;
    }
    FaithfulIs(p, genesis, s);
    assert events[i..] == [];
  }

  lemma {:induction false} RunStep(p: NameParams, s: State, events: seq<Event>, i: nat)
    requires p.treeInterval > 0 && i < |events| && AllFit(p, s, events[i..])
    ensures Fits(p, s, events[i])
    ensures Next(p, s, events[i]).Ok? ==> AllFit(p, Next(p, s, events[i]).value, events[i + 1..])
    ensures Next(p, s, events[i]).Ok? ==>
      forall t :: Run(p, Next(p, s, events[i]).value, events[i + 1..], t) ==> Run(p, s, events[i..], t)
  {
    hide Fits, Next;
    var rest := events[i..];
    assert rest[0] == events[i] && rest[1..] == events[i + 1..];
  }

  lemma {:induction false} FaithfulIs(p: NameParams, genesis: Store, s: State)
    requires p.treeInterval > 0 && Faithful(p, genesis, s)
    ensures Straight(p, genesis, s.blocks) == Ok(s.db)
  {
  }
}
