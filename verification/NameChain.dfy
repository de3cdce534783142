/**
 * The name database over whole runs: connecting blocks, refused blocks, reorganizations and
 * restarts (Sources/Chain/ChainValidation.swift, lines 229 to 275 and 575 to 626;
 * Sources/Chain/Chain.swift, lines 188 to 234 and 697 to 724).
 */
module NameChain {
  import opened Base
  import opened Arith
  import opened Covenants
  import opened NameState
  import opened NameDB
  import opened CovenantContext
  import opened CovenantReplay
  import opened CovenantProcessor

  type Block = seq<Transaction>

  type Error = CovenantContext.Error

  function SetNames(d: Store, names: Names): Store {
    d.(names := names)
  }

  /** Replay blocks `from`, ..., `to - 1`, without committing. */
  function ReplayRange(p: NameParams, blocks: seq<Block>, from: nat, to: nat, names: Names): Result<Names, Error>
    requires from <= to <= |blocks|
  {
    if from == to then Ok(names)
    else
      var before :- ReplayRange(p, blocks, from, to - 1, names);
      ReplayTransactions(p, to - 1, blocks[to - 1], |blocks[to - 1]|, before)
  }

  /** Commit at every multiple of the tree interval. */
  function CommitIfDue(p: NameParams, height: nat, d: Store): Store
    requires p.treeInterval > 0
  {
    if height % p.treeInterval == 0 then d.Commit(height) else d
  }

  /** The reference: replay the blocks after genesis one by one, committing when due. */
  function Straight(p: NameParams, genesis: Store, blocks: seq<Block>): Result<Store, Error>
    requires p.treeInterval > 0
    decreases |blocks|
  {
    var n := |blocks|;
    if n <= 1 then Ok(genesis)
    else
      var d :- Straight(p, genesis, blocks[..n - 1]);
      var names :- ReplayTransactions(p, n - 1, blocks[n - 1], |blocks[n - 1]|, d.names);
      Ok(CommitIfDue(p, n - 1, SetNames(d, names)))
  }

  /** A chain of blocks, genesis first, and the database that goes with it. */
  datatype State = State(blocks: seq<Block>, db: Store)

  /** Just after genesis: its names committed at height 0, nothing pending. */
  predicate IsGenesis(d: Store) {
    && d.committed == 0
    && d.names.pending == map[]
    && d.snapshots == map[0 := d.names.tree]
  }

  datatype Event =
    | Connect(ctx: Context, block: Block)
    | ReorganizeTo(height: nat)
    | Restart

  /** Blocks are processed with the running network's parameters, at the height of their position. */
  predicate Fits(p: NameParams, s: State, e: Event) {
    match e
    case Connect(ctx, _) => ctx.rules.params == p && ctx.height == |s.blocks|
    case ReorganizeTo(_) => true
    case Restart => true
  }

  /** Connect: validate, then commit if due; a refused block changes nothing. */
  function ConnectBlock(p: NameParams, s: State, ctx: Context, block: Block): State
    requires p.treeInterval > 0
  {
    match ProcessTransactions(ctx, block, |block|, s.db.names)
    case Err(_) => s
    case Ok(names) => State(s.blocks + [block], CommitIfDue(p, |s.blocks|, SetNames(s.db, names)))
  }

  /** Roll back to the last commit and replay the shared blocks above it. */
  function Reorganize(p: NameParams, s: State, height: nat): Result<State, Error>
    requires p.treeInterval > 0 && height < |s.blocks|
  {
    var d :- s.db.Rollback(height, p.treeInterval).ToResult(MissingSnapshot);
    if d.committed <= height then
      var names :- ReplayRange(p, s.blocks, d.committed + 1, height + 1, d.names);
      Ok(State(s.blocks[..height + 1], SetNames(d, names)))
    else Ok(State(s.blocks[..height + 1], d))
  }

  /** Replay every stored block above the last commit, committing when due. */
  function Rebuild(p: NameParams, blocks: seq<Block>, from: nat, to: nat, d: Store): Result<Store, Error>
    requires p.treeInterval > 0 && from <= to <= |blocks|
  {
    if from == to then Ok(d)
    else
      var before :- Rebuild(p, blocks, from, to - 1, d);
      var names :- ReplayTransactions(p, to - 1, blocks[to - 1], |blocks[to - 1]|, before.names);
      Ok(CommitIfDue(p, to - 1, SetNames(before, names)))
  }

  function Restarted(p: NameParams, s: State): Result<State, Error>
    requires p.treeInterval > 0
  {
    var d := s.db.Reopen();
    if d.committed < |s.blocks| then
      var rebuilt :- Rebuild(p, s.blocks, d.committed + 1, |s.blocks|, d);
      Ok(State(s.blocks, rebuilt))
    else Ok(State(s.blocks, d))
  }

  /** A fork at or above the stored blocks cannot be reached: the attempt throws and changes nothing. */
  function TryReorganize(p: NameParams, s: State, height: nat): Result<State, Error>
    requires p.treeInterval > 0
  {
    if height < |s.blocks| then Reorganize(p, s, height) else Ok(s)
  }

  function Next(p: NameParams, s: State, e: Event): Result<State, Error>
    requires p.treeInterval > 0 && Fits(p, s, e)
  {
    match e
    case Connect(ctx, block) => Ok(ConnectBlock(p, s, ctx, block))
    case ReorganizeTo(h) => TryReorganize(p, s, h)
    case Restart => Restarted(p, s)
  }

  // ---- Shape of straight-line databases ----

  lemma {:induction false} BoundaryStep(h: nat, interval: nat)
    requires interval > 0 && h > 0
    ensures h % interval == 0 ==> Boundary(h, interval) == h && h / interval == (h - 1) / interval + 1
    ensures h % interval != 0 ==> Boundary(h, interval) == Boundary(h - 1, interval) && h / interval == (h - 1) / interval
  {
    var q := h / interval;
    assert h == q * interval + h % interval;
    if h % interval == 0 {
      assert (q - 1) * interval == q * interval - interval;
      DivUnique(h - 1, interval, q - 1);
    } else {
      DivUnique(h - 1, interval, q);
    }
  }

  /** Commits so far: one per multiple, the last at the boundary, and the tree is that snapshot. */
  ghost predicate Shaped(p: NameParams, d: Store, tip: nat)
    requires p.treeInterval > 0
  {
    && d.committed == Boundary(tip, p.treeInterval)
    && d.snapshots.Keys == Multiples(tip / p.treeInterval, p.treeInterval)
    && d.committed in d.snapshots
    && d.snapshots[d.committed] == d.names.tree
    && (d.committed == tip ==> d.names.pending == map[])
  }

  lemma {:induction false} ReplayKeepsTree(p: NameParams, h: nat, txs: seq<Transaction>, n: nat, names: Names)
    requires n <= |txs| && ReplayTransactions(p, h, txs, n, names).Ok?
    ensures ReplayTransactions(p, h, txs, n, names).value.tree == names.tree
  {
    hide ReplayOutputs;
    if n > 0 {
      ReplayKeepsTree(p, h, txs, n - 1, names);
      var before := ReplayTransactions(p, h, txs, n - 1, names).value;
      ReplayOutputsKeepTree(p, h, txs[n - 1], |txs[n - 1].outputs|, before);
    }
  }

  lemma {:induction false} ReplayOutputsKeepTree(p: NameParams, h: nat, tx: Transaction, n: nat, names: Names)
    requires n <= |tx.outputs| && ReplayOutputs(p, h, tx, n, names).Ok?
    ensures ReplayOutputs(p, h, tx, n, names).value.tree == names.tree
  {
    hide ReplayChange, ReplayPrepare;
    if n > 0 {
      ReplayOutputsKeepTree(p, h, tx, n - 1, names);
    }
  }

  lemma {:induction false} CommitShaped(p: NameParams, d: Store, tip: nat)
    requires p.treeInterval > 0 && tip > 0 && Shaped(p, d.(names := Names(map[], d.names.tree)), tip - 1)
    ensures Shaped(p, CommitIfDue(p, tip, d), tip)
    ensures tip !in d.snapshots
  {
    hide Flushed, Multiples;
    BoundaryStep(tip, p.treeInterval);
    MultiplesBound((tip - 1) / p.treeInterval, p.treeInterval);
    DivBounds(tip - 1, p.treeInterval);
    if tip % p.treeInterval == 0 {
      MultiplesUnfold(tip / p.treeInterval, p.treeInterval);
    }
  }

  lemma {:induction false} MultiplesUnfold(n: nat, interval: nat)
    requires n > 0
    ensures Multiples(n, interval) == Multiples(n - 1, interval) + {n * interval}
  {
  }

  lemma {:induction false} StraightShaped(p: NameParams, genesis: Store, blocks: seq<Block>)
    requires p.treeInterval > 0 && IsGenesis(genesis) && |blocks| >= 1
    requires Straight(p, genesis, blocks).Ok?
    ensures Shaped(p, Straight(p, genesis, blocks).value, |blocks| - 1)
    decreases |blocks|
  {
    hide ReplayTransactions, CommitIfDue;
    var n, t := |blocks|, p.treeInterval;
    if n == 1 {
      DivUnique(0, t, 0);
    } else {
      StraightShaped(p, genesis, blocks[..n - 1]);
      var d := Straight(p, genesis, blocks[..n - 1]).value;
      ReplayKeepsTree(p, n - 1, blocks[n - 1], |blocks[n - 1]|, d.names);
      var names := ReplayTransactions(p, n - 1, blocks[n - 1], |blocks[n - 1]|, d.names).value;
      CommitShaped(p, SetNames(d, names), n - 1);
    }
  }

  // ---- Prefixes of a chain ----

  /** Every snapshot of a shorter chain is still there, unchanged. */
  lemma {:induction false} StraightPrefix(p: NameParams, genesis: Store, blocks: seq<Block>, k: nat)
    requires p.treeInterval > 0 && IsGenesis(genesis) && 1 <= k <= |blocks|
    requires Straight(p, genesis, blocks).Ok?
    ensures Straight(p, genesis, blocks[..k]).Ok?
    ensures forall h :: h in Straight(p, genesis, blocks[..k]).value.snapshots ==>
              && h in Straight(p, genesis, blocks).value.snapshots
              && Straight(p, genesis, blocks).value.snapshots[h] == Straight(p, genesis, blocks[..k]).value.snapshots[h]
    decreases |blocks|
  {
    hide ReplayTransactions, Flushed, IsGenesis, Shaped;
    var n := |blocks|;
    if k == n {
      assert blocks[..k] == blocks;
    } else {
      var shorter := blocks[..n - 1];
      StraightPrefix(p, genesis, shorter, k);
      assert shorter[..k] == blocks[..k];
      StraightFresh(p, genesis, blocks);
    }
  }

  /** A commit uses a height no snapshot has yet. */
  lemma {:induction false} StraightFresh(p: NameParams, genesis: Store, blocks: seq<Block>)
    requires p.treeInterval > 0 && IsGenesis(genesis) && |blocks| >= 2
    requires Straight(p, genesis, blocks).Ok?
    ensures |blocks| - 1 !in Straight(p, genesis, blocks[..|blocks| - 1]).value.snapshots
  {
    hide ReplayTransactions, CommitIfDue, IsGenesis;
    var n := |blocks|;
    StraightShaped(p, genesis, blocks[..n - 1]);
    CommitShaped(p, Straight(p, genesis, blocks[..n - 1]).value, n - 1);
  }

  /** Between commits only the pending map moves: replay from the boundary gives the same names. */
  lemma {:induction false} ReplayFromBoundary(p: NameParams, genesis: Store, blocks: seq<Block>, h: nat)
    requires p.treeInterval > 0 && h < |blocks|
    requires Straight(p, genesis, blocks[..h + 1]).Ok?
    ensures var b := Boundary(h, p.treeInterval);
      && Straight(p, genesis, blocks[..b + 1]).Ok?
      && var d := Straight(p, genesis, blocks[..b + 1]).value;
      && ReplayRange(p, blocks, b + 1, h + 1, d.names) == Ok(Straight(p, genesis, blocks[..h + 1]).value.names)
      && Straight(p, genesis, blocks[..h + 1]).value.committed == d.committed
      && Straight(p, genesis, blocks[..h + 1]).value.snapshots == d.snapshots
  {
    hide ReplayTransactions, Boundary;
    if h == 0 {
      BoundaryAtMost(h, p.treeInterval);
    } else {
      BoundaryStep(h, p.treeInterval);
      assert blocks[..h + 1][..h] == blocks[..h];
      if h % p.treeInterval != 0 {
        ReplayFromBoundary(p, genesis, blocks, h - 1);
        BoundaryAtMost(h - 1, p.treeInterval);
      }
    }
  }

  lemma {:induction false} BoundaryAtMost(h: nat, interval: nat)
    requires interval > 0
    ensures Boundary(h, interval) <= h
  {
    DivBounds(h, interval);
  }

  /** A rollback restores the database as it was when the boundary had just been committed. */
  lemma {:induction false} RollbackIsPrefix(p: NameParams, genesis: Store, blocks: seq<Block>, h: nat)
    requires p.treeInterval > 0 && IsGenesis(genesis) && h < |blocks|
    requires Straight(p, genesis, blocks).Ok?
    ensures Straight(p, genesis, blocks[..Boundary(h, p.treeInterval) + 1]).Ok?
    ensures Straight(p, genesis, blocks).value.Rollback(h, p.treeInterval)
         == Some(Straight(p, genesis, blocks[..Boundary(h, p.treeInterval) + 1]).value)
  {
    hide ReplayTransactions, Straight, IsGenesis;
    var t, tip := p.treeInterval, |blocks| - 1;
    var b, m, n := Boundary(h, t), h / t, tip / t;
    BoundaryAtMost(h, t);
    StraightShaped(p, genesis, blocks);
    StraightPrefix(p, genesis, blocks, b + 1);
    StraightShaped(p, genesis, blocks[..b + 1]);
    DivUnique(b, t, m);
    DivMonotone(h, tip, t);
    var d, e := Straight(p, genesis, blocks).value, Straight(p, genesis, blocks[..b + 1]).value;
    RollbackSnapshots(d.snapshots, e.snapshots, m, n, t, b);
  }

  lemma {:induction false} RollbackSnapshots(all: map<nat, NameMap>, kept: map<nat, NameMap>, m: nat, n: nat, t: nat, b: nat)
    requires t > 0 && m <= n && b == m * t
    requires all.Keys == Multiples(n, t) && kept.Keys == Multiples(m, t)
    requires forall h :: h in kept ==> h in all && all[h] == kept[h]
    ensures DropRun(all, b + t, t) == kept
  {
    hide Multiples, DropRun;
    MultiplesBound(n, t);
    assert (m + 1) * t == b + t;
    DropRunLeaves(all, m, m, n, t);
    DropRunKeys(all, all, b + t, t);
  }

  /** Reorganizing to height `h` leaves the database of the chain cut at `h`. */
  lemma {:induction false} ReorganizeIsStraight(p: NameParams, genesis: Store, s: State, h: nat)
    requires p.treeInterval > 0 && IsGenesis(genesis) && h < |s.blocks|
    requires Straight(p, genesis, s.blocks) == Ok(s.db)
    ensures Straight(p, genesis, s.blocks[..h + 1]).Ok?
    ensures Reorganize(p, s, h)
         == Ok(State(s.blocks[..h + 1], Straight(p, genesis, s.blocks[..h + 1]).value))
  {
    hide ReplayTransactions, Straight, IsGenesis, ReplayRange;
    var b := Boundary(h, p.treeInterval);
    BoundaryAtMost(h, p.treeInterval);
    StraightPrefix(p, genesis, s.blocks, h + 1);
    RollbackIsPrefix(p, genesis, s.blocks, h);
    ReplayFromBoundary(p, genesis, s.blocks, h);
    StraightShaped(p, genesis, s.blocks[..h + 1]);
  }

  /** On the database of a chain such a throw leaves everything as it was. */
  lemma {:induction false} ThrowKeeps(p: NameParams, genesis: Store, s: State, height: nat, now: Store)
    requires p.treeInterval > 0 && IsGenesis(genesis) && 1 <= |s.blocks| <= height
    requires Straight(p, genesis, s.blocks) == Ok(s.db) && LeftByThrow(p, s.blocks, height, s.db, now)
    ensures now == s.db
  {
    hide ReplayTransactions, Straight, IsGenesis, ReplayRange;
    var t, tip := p.treeInterval, |s.blocks| - 1;
    var b := Boundary(height, t);
    StraightShaped(p, genesis, s.blocks);
    if b in s.db.snapshots {
      SameBoundary(tip, height, t);
      assert s.blocks[..tip + 1] == s.blocks;
      RollbackIsPrefix(p, genesis, s.blocks, tip);
      ReplayFromBoundary(p, genesis, s.blocks, tip);
      BoundaryAtMost(tip, t);
    }
  }

  lemma {:induction false} SameBoundary(tip: nat, height: nat, t: nat)
    requires t > 0 && tip <= height && Boundary(height, t) in Multiples(tip / t, t)
    ensures Boundary(height, t) == Boundary(tip, t)
  {
    DivMonotone(tip, height, t);
    MultiplesMember(tip / t, height / t, t);
  }

  lemma {:induction false} RebuildIsStraight(p: NameParams, genesis: Store, blocks: seq<Block>, from: nat, to: nat)
    requires p.treeInterval > 0 && 1 <= from <= to <= |blocks|
    requires Straight(p, genesis, blocks[..to]).Ok?
    ensures Straight(p, genesis, blocks[..from]).Ok?
    ensures Rebuild(p, blocks, from, to, Straight(p, genesis, blocks[..from]).value) == Straight(p, genesis, blocks[..to])
  {
    hide ReplayTransactions, CommitIfDue;
    if from < to {
      assert blocks[..to][..to - 1] == blocks[..to - 1];
      RebuildIsStraight(p, genesis, blocks, from, to - 1);
    }
  }

  /** A restart loses the pending map and rebuilds exactly it. */
  lemma {:induction false} RestartIsStraight(p: NameParams, genesis: Store, s: State)
    requires p.treeInterval > 0 && IsGenesis(genesis) && |s.blocks| >= 1
    requires Straight(p, genesis, s.blocks) == Ok(s.db)
    ensures Restarted(p, s) == Ok(s)
  {
    hide ReplayTransactions, Straight, IsGenesis, Rebuild;
    var tip := |s.blocks| - 1;
    var b := Boundary(tip, p.treeInterval);
    assert s.blocks[..tip + 1] == s.blocks;
    BoundaryAtMost(tip, p.treeInterval);
    ReplayFromBoundary(p, genesis, s.blocks, tip);
    StraightShaped(p, genesis, s.blocks);
    StraightShaped(p, genesis, s.blocks[..b + 1]);
    DivUnique(b, p.treeInterval, tip / p.treeInterval);
    assert s.db.Reopen() == Straight(p, genesis, s.blocks[..b + 1]).value;
    RebuildIsStraight(p, genesis, s.blocks, b + 1, |s.blocks|);
  }

  // ---- Runs ----

  /** Every prefix of the chain left only storable names behind. */
  ghost predicate StorableThroughout(p: NameParams, genesis: Store, blocks: seq<Block>)
    requires p.treeInterval > 0
  {
    forall k :: 1 <= k <= |blocks| && Straight(p, genesis, blocks[..k]).Ok? ==>
      AllStorable(Straight(p, genesis, blocks[..k]).value.names)
  }

  /** The database is exactly what straight-line replay of the current chain gives. */
  ghost predicate Faithful(p: NameParams, genesis: Store, s: State)
    requires p.treeInterval > 0
  {
    && |s.blocks| >= 1
    && Straight(p, genesis, s.blocks) == Ok(s.db)
    && StorableThroughout(p, genesis, s.blocks)
  }

  lemma {:induction false} CommitStorable(p: NameParams, h: nat, d: Store)
    requires p.treeInterval > 0 && AllStorable(d.names)
    ensures AllStorable(CommitIfDue(p, h, d).names)
  {
    var after := CommitIfDue(p, h, d).names;
    forall key | after.Get(key).Some?
      ensures Storable(after.Get(key).value)
    {
      assert d.names.Get(key).Some?;
    }
  }

  /** One more block in the reference. */
  lemma {:induction false} StraightMore(p: NameParams, genesis: Store, blocks: seq<Block>, block: Block)
    requires p.treeInterval > 0 && |blocks| >= 1 && Straight(p, genesis, blocks).Ok?
    requires ReplayTransactions(p, |blocks|, block, |block|, Straight(p, genesis, blocks).value.names).Ok?
    ensures var d := Straight(p, genesis, blocks).value;
      Straight(p, genesis, blocks + [block])
        == Ok(CommitIfDue(p, |blocks|, SetNames(d, ReplayTransactions(p, |blocks|, block, |block|, d.names).value)))
  {
    hide ReplayTransactions, CommitIfDue;
    assert (blocks + [block])[..|blocks|] == blocks;
  }

  lemma {:induction false} StorableMore(p: NameParams, genesis: Store, blocks: seq<Block>, block: Block)
    requires p.treeInterval > 0 && |blocks| >= 1 && StorableThroughout(p, genesis, blocks)
    requires var longer := blocks + [block];
      Straight(p, genesis, longer).Ok? ==> AllStorable(Straight(p, genesis, longer).value.names)
    ensures StorableThroughout(p, genesis, blocks + [block])
  {
    hide AllStorable, Straight;
    var longer := blocks + [block];
    forall k | 1 <= k <= |longer| && Straight(p, genesis, longer[..k]).Ok?
      ensures AllStorable(Straight(p, genesis, longer[..k]).value.names)
    {
      if k <= |blocks| {
        assert longer[..k] == blocks[..k];
      } else {
        assert longer[..k] == longer;
      }
    }
  }

  lemma {:induction false} ConnectIsStraight(p: NameParams, genesis: Store, s: State, ctx: Context, block: Block)
    requires p.treeInterval > 0 && Faithful(p, genesis, s) && Fits(p, s, Connect(ctx, block))
    ensures Faithful(p, genesis, ConnectBlock(p, s, ctx, block))
  {
    hide ProcessTransactions, ReplayTransactions, AllStorable, CommitIfDue, Straight, StorableThroughout;
    var r := ProcessTransactions(ctx, block, |block|, s.db.names);
    if r.Ok? {
      FaithfulStorable(p, genesis, s);
      ReplayRepeatsValidation(ctx, block, |block|, s.db.names);
      StraightMore(p, genesis, s.blocks, block);
      CommitStorable(p, |s.blocks|, SetNames(s.db, r.value));
      StorableMore(p, genesis, s.blocks, block);
    }
  }

  lemma {:induction false} FaithfulStorable(p: NameParams, genesis: Store, s: State)
    requires p.treeInterval > 0 && Faithful(p, genesis, s)
    ensures AllStorable(s.db.names)
  {
    hide AllStorable, Straight;
    assert s.blocks[..|s.blocks|] == s.blocks;
  }

  lemma {:induction false} StorablePrefix(p: NameParams, genesis: Store, blocks: seq<Block>, n: nat)
    requires p.treeInterval > 0 && n <= |blocks| && StorableThroughout(p, genesis, blocks)
    ensures StorableThroughout(p, genesis, blocks[..n])
  {
    hide Straight, AllStorable;
    forall k | 1 <= k <= n && Straight(p, genesis, blocks[..n][..k]).Ok?
      ensures AllStorable(Straight(p, genesis, blocks[..n][..k]).value.names)
    {
      assert blocks[..n][..k] == blocks[..k];
    }
  }

  /** No event can fail, and each leaves the database faithful to the chain. */
  lemma {:induction false} NextFaithful(p: NameParams, genesis: Store, s: State, e: Event)
    requires p.treeInterval > 0 && IsGenesis(genesis) && Faithful(p, genesis, s) && Fits(p, s, e)
    ensures Next(p, s, e).Ok? && Faithful(p, genesis, Next(p, s, e).value)
  {
    hide IsGenesis, Straight, StorableThroughout, ConnectBlock, Reorganize, Restarted;
    match e
    case Connect(ctx, block) => ConnectIsStraight(p, genesis, s, ctx, block);
    case ReorganizeTo(h) =>
      if h < |s.blocks| {
        ReorganizeIsStraight(p, genesis, s, h);
        StorablePrefix(p, genesis, s.blocks, h + 1);
      }
    case Restart => RestartIsStraight(p, genesis, s);
  }

  /** The states an initial state can reach by a finite sequence of events. */
  ghost predicate Run(p: NameParams, s: State, events: seq<Event>, t: State)
    requires p.treeInterval > 0
    decreases |events|
  {
    if events == [] then s == t
    else
      Fits(p, s, events[0]) && Next(p, s, events[0]).Ok? && Run(p, Next(p, s, events[0]).value, events[1..], t)
  }

  /**
   * Any mix of accepted and refused blocks, reorganizations and restarts after genesis leaves
   * tree, pending map, committed height and snapshots exactly as straight-line replay of the
   * surviving chain would.
   */
  lemma {:induction false} RunsAreFaithful(p: NameParams, genesis: Store, s: State, events: seq<Event>, t: State)
    requires p.treeInterval > 0 && IsGenesis(genesis) && Faithful(p, genesis, s)
    requires Run(p, s, events, t)
    ensures Faithful(p, genesis, t)
    decreases |events|
  {
    hide IsGenesis, Faithful, Next;
    if events != [] {
      NextFaithful(p, genesis, s, events[0]);
      RunsAreFaithful(p, genesis, Next(p, s, events[0]).value, events[1..], t);
    }
  }

  lemma {:induction false} GenesisFaithful(p: NameParams, genesis: Store, block: Block)
    requires p.treeInterval > 0 && AllStorable(genesis.names)
    ensures Faithful(p, genesis, State([block], genesis))
  {
    hide AllStorable;
  }

  /** Two runs that end with the same chain end with the same database, however they got there. */
  lemma {:induction false} SameChainSameNames(p: NameParams, genesis: Store, s: State, e1: seq<Event>, t1: State, e2: seq<Event>, t2: State)
    requires p.treeInterval > 0 && IsGenesis(genesis) && Faithful(p, genesis, s)
    requires Run(p, s, e1, t1) && Run(p, s, e2, t2) && t1.blocks == t2.blocks
    ensures t1 == t2
  {
    hide IsGenesis, Run, Straight, StorableThroughout;
    RunsAreFaithful(p, genesis, s, e1, t1);
    RunsAreFaithful(p, genesis, s, e2, t2);
  }

  // ---- The database object doing these steps ----

  /** Connecting: validate, and commit at a multiple of the interval. */
  method ConnectInto(p: NameParams, ctx: Context, block: Block, height: nat, db: NameDB, rewritten: nat) returns (r: Outcome<Error>)
    requires p.treeInterval > 0 && db.Valid() && db.store.committed <= height
    modifies db
    ensures db.Valid()
    ensures r.Pass? <==> ProcessTransactions(ctx, block, |block|, old(db.View())).Ok?
    ensures r.Pass? ==> db.Meaning() == CommitIfDue(p, height,
      SetNames(old(db.Meaning()), ProcessTransactions(ctx, block, |block|, old(db.View())).value))
    ensures r.Throw? ==> db.Meaning() == old(db.Meaning())
  {
    hide ProcessTransactions, Disk.Sound, Disk.Contents, Disk.Trees;
    r := ConnectNames(ctx, block, db);
    if r.Pass? && height % p.treeInterval == 0 {
      db.Commit(height, rewritten);
    }
  }

  /**
   * The name part of disconnecting: roll back, then replay the shared blocks above the commit. A fork at
   * or above the stored blocks has no snapshot to go back to, or its replay meets a missing block; by
   * then all stored blocks above the commit have been replayed.
   */
  method DisconnectTo(p: NameParams, blocks: seq<Block>, height: nat, db: NameDB, ghost commits: nat) returns (r: Outcome<Error>)
    requires p.treeInterval > 0 && db.Valid() && db.store.Regular(commits, p.treeInterval)
    modifies db
    ensures db.Valid()
    ensures height < |blocks| || old(db.store.committed) < |blocks| ==>
      (r.Pass? <==> height < |blocks| && Reorganize(p, State(blocks, old(db.Meaning())), height).Ok?)
    ensures r.Pass? && height < |blocks| ==>
      Reorganize(p, State(blocks, old(db.Meaning())), height) == Ok(State(blocks[..height + 1], db.Meaning()))
    ensures |blocks| <= height ==> LeftByThrow(p, blocks, height, old(db.Meaning()), db.Meaning())
  {
    hide ReplayTransactions, Disk.Sound, Disk.Contents, Disk.Trees, Store.Rollback, Disk.Regular, Boundary;
    RollbackHeight(db.Meaning(), height, p.treeInterval);
    SnapshotsBelow(db);
    var ok := db.RollbackToHeight(height, p.treeInterval, commits);
    if !ok {
      return Throw(MissingSnapshot);
    }
    ghost var rolled := db.Meaning();
    if db.store.committed <= height {
      var h := db.store.committed + 1;
      while h <= height
        invariant rolled.committed + 1 <= h <= height + 1 && (h <= |blocks| || h == rolled.committed + 1)
        invariant db.Valid() && db.Meaning() == SetNames(rolled, db.View())
        invariant h <= |blocks| ==> ReplayRange(p, blocks, rolled.committed + 1, h, rolled.names) == Ok(db.View())
        invariant h > |blocks| ==> db.Meaning() == rolled
      {
        if h >= |blocks| {
          return Throw(MissingBlock);
        }
        r := ReplayCovenants(p, h, blocks[h], db);
        h := h + 1;
        if r.Throw? {
          RangeFailureSticks(p, blocks, rolled.committed + 1, h, Min(height + 1, |blocks|), rolled.names);
          return;
        }
      }
    }
    return Pass;
  }

  lemma {:induction false} SnapshotsBelow(db: NameDB)
    requires db.Valid()
    ensures forall h :: h in db.Meaning().snapshots ==> h <= db.store.committed
    ensures db.Meaning().committed == db.store.committed
  {
    hide Disk.Contents;
    assert db.Meaning().snapshots.Keys == db.store.snapshots.Keys;
  }

  lemma {:induction false} RollbackHeight(d: Store, height: nat, interval: nat)
    requires interval > 0
    ensures d.Rollback(height, interval).Some? ==>
      d.Rollback(height, interval).value.committed in d.snapshots && d.Rollback(height, interval).value.committed <= height
  {
    BoundaryAtMost(height, interval);
  }

  /** What a reorganization that throws for lack of a snapshot or of a block leaves. */
  ghost predicate LeftByThrow(p: NameParams, blocks: seq<Block>, height: nat, was: Store, now: Store)
    requires p.treeInterval > 0
  {
    match was.Rollback(height, p.treeInterval)
    case None => now == was
    case Some(d) =>
      d.committed < |blocks| && ReplayRange(p, blocks, d.committed + 1, |blocks|, d.names).Ok? ==>
        now == SetNames(d, ReplayRange(p, blocks, d.committed + 1, |blocks|, d.names).value)
  }

  lemma {:induction false} RangeFailureSticks(p: NameParams, blocks: seq<Block>, from: nat, i: nat, to: nat, names: Names)
    requires from <= i <= to <= |blocks| && ReplayRange(p, blocks, from, i, names).Err?
    ensures ReplayRange(p, blocks, from, to, names).Err?
  {
    if i < to {
      RangeFailureSticks(p, blocks, from, i, to - 1, names);
    }
  }

  lemma {:induction false} RebuildFailureSticks(p: NameParams, blocks: seq<Block>, from: nat, i: nat, to: nat, d: Store)
    requires p.treeInterval > 0 && from <= i <= to <= |blocks| && Rebuild(p, blocks, from, i, d).Err?
    ensures Rebuild(p, blocks, from, to, d).Err?
  {
    if i < to {
      RebuildFailureSticks(p, blocks, from, i, to - 1, d);
    }
  }

  /** After opening: replay every stored block above the last commit, committing when due. */
  method RebuildNameState(p: NameParams, blocks: seq<Block>, db: NameDB, rewritten: nat) returns (r: Outcome<Error>)
    requires p.treeInterval > 0 && db.Valid() && db.store.committed < |blocks|
    modifies db
    ensures db.Valid()
    ensures r.Pass? ==>
      Rebuild(p, blocks, old(db.store.committed) + 1, |blocks|, old(db.Meaning())) == Ok(db.Meaning())
    ensures r.Throw? ==> Rebuild(p, blocks, old(db.store.committed) + 1, |blocks|, old(db.Meaning())).Err?
  {
    hide ReplayTransactions, Disk.Sound, Disk.Contents, Disk.Trees;
    ghost var start := db.Meaning();
    var h := db.store.committed + 1;
    while h < |blocks|
      invariant start.committed + 1 <= h <= |blocks|
      invariant db.Valid() && db.store.committed < h
      invariant Rebuild(p, blocks, start.committed + 1, h, start) == Ok(db.Meaning())
    {
      r := ReplayCovenants(p, h, blocks[h], db);
      h := h + 1;
      if r.Throw? {
        RebuildFailureSticks(p, blocks, start.committed + 1, h, |blocks|, start);
        return;
      }
      if (h - 1) % p.treeInterval == 0 {
        db.Commit(h - 1, rewritten);
      }
    }
    return Pass;
  }
}
