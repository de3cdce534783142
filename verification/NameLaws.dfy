/**
 * The laws of single runs of accepted blocks, carried over to runs with refused blocks,
 * reorganizations and restarts: whatever happened before, the names stored are those of a run that
 * accepts just the blocks of the surviving chain.
 */
module NameLaws {
  import opened Base
  import opened NameState
  import opened NameDB
  import opened CovenantContext
  import opened CovenantReplay
  import opened CovenantProcessor
  import opened NameChain
  import opened NameLifecycle
  import Subdomains
  import Vickrey

  /** A state, and how each block after genesis was connected. */
  datatype Trail = Trail(state: State, history: seq<Connected>)

  /** An event; for a block also all outputs created on its chain up to and including it. */
  datatype Witnessed = Witnessed(event: Event, ledger: Ledger)

  function LedgerAfter(start: Ledger, history: seq<Connected>): Ledger {
    if history == [] then start else history[|history| - 1].ledger
  }

  /** A block is judged with the coins of its own chain, and no id recurs on it. */
  ghost predicate Informed(start: Ledger, trail: Trail, e: Witnessed) {
    match e.event
    case Connect(ctx, block) =>
      var ledger := LedgerAfter(start, trail.history);
      (forall op :: op in ledger ==> op in e.ledger && e.ledger[op] == ledger[op]) && Consistent(ctx, block, e.ledger)
    case _ => true
  }

  ghost predicate Possible(p: NameParams, start: Ledger, trail: Trail, e: Witnessed)
    requires p.treeInterval > 0
  {
    && Fits(p, trail.state, e.event) && Next(p, trail.state, e.event).Ok?
    && |trail.state.blocks| == |trail.history| + 1 && Informed(start, trail, e)
  }

  ghost function After(p: NameParams, start: Ledger, trail: Trail, e: Witnessed): Trail
    requires p.treeInterval > 0 && Possible(p, start, trail, e)
  {
    var next := Next(p, trail.state, e.event).value;
    match e.event
    case Connect(ctx, block) =>
      if ProcessTransactions(ctx, block, |block|, trail.state.db.names).Ok?
      then Trail(next, trail.history + [Connected(ctx, block, e.ledger)]) else Trail(next, trail.history)
    case ReorganizeTo(h) => Trail(next, if h < |trail.state.blocks| then trail.history[..h] else trail.history)
    case Restart => Trail(next, trail.history)
  }

  ghost predicate Leads(p: NameParams, start: Ledger, trail: Trail, events: seq<Witnessed>, end: Trail)
    requires p.treeInterval > 0
    decreases |events|
  {
    if events == [] then trail == end
    else Possible(p, start, trail, events[0]) && Leads(p, start, After(p, start, trail, events[0]), events[1..], end)
  }

  // ---- Runs of accepted blocks, from the end ----

  lemma {:induction false} ReachesMore(p: NameParams, s: Progressing, history: seq<Connected>, m: Progressing, b: Connected)
    requires p.treeInterval > 0 && Reaches(p, s, history, m) && Accepts(p, m, b)
    ensures Reaches(p, s, history + [b], Accept(p, m, b))
    decreases |history|
  {
    hide Accepts, Accept;
    var longer := history + [b];
    if history == [] {
      assert longer[0] == b && longer[1..] == [];
    } else {
      assert longer[0] == history[0] && longer[1..] == history[1..] + [b];
      ReachesMore(p, Accept(p, s, history[0]), history[1..], m, b);
    }
  }

  /** A run goes through a state after each of its prefixes. */
  lemma {:induction false} ReachesSplit(p: NameParams, s: Progressing, history: seq<Connected>, t: Progressing, k: nat)
    returns (m: Progressing)
    requires p.treeInterval > 0 && Reaches(p, s, history, t) && k <= |history|
    ensures Reaches(p, s, history[..k], m) && Reaches(p, m, history[k..], t)
    decreases |history|
  {
    hide *;
    if k == 0 {
      m := s;
      ReachesNothing(p, s);
      assert history[..k] == [] && history[k..] == history;
    } else {
      ReachesFirst(p, s, history, t);
      m := ReachesSplit(p, Accept(p, s, history[0]), history[1..], t, k - 1);
      FrontAndRest(history, k);
      ReachesFirst(p, s, history[..k], m);
    }
  }

  lemma {:induction false} ReachesNothing(p: NameParams, s: Progressing)
    requires p.treeInterval > 0
    ensures Reaches(p, s, [], s)
  {
  }

  lemma {:induction false} ReachesFirst(p: NameParams, s: Progressing, history: seq<Connected>, t: Progressing)
    requires p.treeInterval > 0 && history != []
    ensures Reaches(p, s, history, t) <==>
      Accepts(p, s, history[0]) && Reaches(p, Accept(p, s, history[0]), history[1..], t)
  {
    hide Accepts, Accept;
  }

  lemma {:induction false} FrontAndRest(history: seq<Connected>, k: nat)
    requires 0 < k <= |history|
    ensures history[..k][0] == history[0] && history[..k][1..] == history[1..][..k - 1]
    ensures history[1..][k - 1..] == history[k..]
  {
  }

  lemma {:induction false} ReachesLast(p: NameParams, s: Progressing, history: seq<Connected>, t: Progressing) returns (m: Progressing)
    requires p.treeInterval > 0 && Reaches(p, s, history, t) && history != []
    ensures Reaches(p, s, history[..|history| - 1], m)
    ensures Accepts(p, m, history[|history| - 1]) && t == Accept(p, m, history[|history| - 1])
  {
    hide Accepts, Accept;
    var last := |history| - 1;
    m := ReachesSplit(p, s, history, t, last);
    var rest := history[last..];
    assert rest[0] == history[last] && rest[1..] == [];
  }

  // ---- ... are the straight-line replay of their blocks ----

  /** The blocks after genesis are those of the history. */
  predicate Matches(blocks: seq<Block>, history: seq<Connected>) {
    |blocks| == |history| + 1 && forall k :: 0 <= k < |history| ==> blocks[k + 1] == history[k].block
  }

  lemma {:induction false} AcceptedIsReplayed(p: NameParams, m: Progressing, b: Connected, d: Store)
    requires p.treeInterval > 0 && Accepts(p, m, b) && d.names == m.names && AllStorable(m.names)
    ensures ReplayTransactions(p, m.now + 1, b.block, |b.block|, d.names).Ok?
    ensures var names := ReplayTransactions(p, m.now + 1, b.block, |b.block|, d.names).value;
      && CommitIfDue(p, m.now + 1, SetNames(d, names)).names == Accept(p, m, b).names
      && AllStorable(Accept(p, m, b).names)
  {
    hide ProcessTransactions, ReplayTransactions, AllStorable, Flushed, LoggedIn, Consistent;
    ReplayRepeatsValidation(b.ctx, b.block, |b.block|, m.names);
    CommitStorable(p, m.now + 1, SetNames(d, ProcessTransactions(b.ctx, b.block, |b.block|, m.names).value));
  }

  lemma {:induction false} ReachedNames(p: NameParams, genesis: Store, blocks: seq<Block>, s: Progressing, history: seq<Connected>,
      t: Progressing)
    requires p.treeInterval > 0 && s.names == genesis.names && s.now == 0 && AllStorable(s.names)
    requires Reaches(p, s, history, t) && Matches(blocks, history)
    ensures Straight(p, genesis, blocks).Ok? && Straight(p, genesis, blocks).value.names == t.names
    ensures t.now == |history| && t.ledger == LedgerAfter(s.ledger, history) && AllStorable(t.names)
    decreases |history|
  {
    hide AllStorable, Accepts, ReplayTransactions, CommitIfDue, Accept;
    if history != [] {
      var n := |history|;
      var m := ReachesLast(p, s, history, t);
      ReachedNames(p, genesis, blocks[..n], s, history[..n - 1], m);
      AcceptedIsReplayed(p, m, history[n - 1], Straight(p, genesis, blocks[..n]).value);
      AcceptFacts(p, m, history[n - 1]);
    } else {
      assert blocks == [blocks[0]];
    }
  }

  lemma {:induction false} AcceptFacts(p: NameParams, m: Progressing, b: Connected)
    requires p.treeInterval > 0 && Accepts(p, m, b)
    ensures Accept(p, m, b).now == m.now + 1 && Accept(p, m, b).ledger == b.ledger
  {
  }

  // ---- Trails ----

  /** The database is that of the chain, and the chain's own blocks form a run of accepted blocks. */
  ghost predicate Follows(p: NameParams, genesis: Store, s: Progressing, trail: Trail)
    requires p.treeInterval > 0
  {
    && Faithful(p, genesis, trail.state) && Matches(trail.state.blocks, trail.history)
    && exists t :: Reaches(p, s, trail.history, t)
  }

  lemma {:induction false} ConnectFollows(p: NameParams, genesis: Store, s: Progressing, trail: Trail, ctx: Context, block: Block,
      ledger: Ledger, t: Progressing)
    requires p.treeInterval > 0 && s.names == genesis.names && s.now == 0 && AllStorable(s.names)
    requires Faithful(p, genesis, trail.state) && Matches(trail.state.blocks, trail.history)
    requires Reaches(p, s, trail.history, t)
    requires Possible(p, s.ledger, trail, Witnessed(Connect(ctx, block), ledger))
    requires ProcessTransactions(ctx, block, |block|, trail.state.db.names).Ok?
    ensures Accepts(p, t, Connected(ctx, block, ledger))
    ensures Reaches(p, s, trail.history + [Connected(ctx, block, ledger)], Accept(p, t, Connected(ctx, block, ledger)))
  {
    hide AllStorable, Straight, StorableThroughout, Reaches, ProcessTransactions, Consistent, Next;
    ReachedNames(p, genesis, trail.state.blocks, s, trail.history, t);
    ReachesMore(p, s, trail.history, t, Connected(ctx, block, ledger));
  }

  lemma {:induction false} NextBlocks(p: NameParams, s: State, e: Event)
    requires p.treeInterval > 0 && Fits(p, s, e) && Next(p, s, e).Ok?
    ensures var next := Next(p, s, e).value.blocks;
      match e
      case Connect(ctx, block) =>
        next == if ProcessTransactions(ctx, block, |block|, s.db.names).Ok? then s.blocks + [block] else s.blocks
      case ReorganizeTo(h) => next == if h < |s.blocks| then s.blocks[..h + 1] else s.blocks
      case Restart => next == s.blocks
  {
    hide ProcessTransactions, ReplayRange, Rebuild, CommitIfDue, Store.Rollback;
  }

  lemma {:induction false} NextFollows(p: NameParams, genesis: Store, s: Progressing, trail: Trail, e: Witnessed)
    requires p.treeInterval > 0 && IsGenesis(genesis) && s.names == genesis.names && s.now == 0 && AllStorable(s.names)
    requires Follows(p, genesis, s, trail) && Possible(p, s.ledger, trail, e)
    ensures Follows(p, genesis, s, After(p, s.ledger, trail, e))
  {
    hide IsGenesis, AllStorable, Faithful, Next, Reaches, ProcessTransactions, Informed, Accepts;
    var t :| Reaches(p, s, trail.history, t);
    NextFaithful(p, genesis, trail.state, e.event);
    NextBlocks(p, trail.state, e.event);
    match e.event
    case Connect(ctx, block) =>
      if ProcessTransactions(ctx, block, |block|, trail.state.db.names).Ok? {
        ConnectFollows(p, genesis, s, trail, ctx, block, e.ledger, t);
      }
    case ReorganizeTo(h) =>
      if h < |trail.state.blocks| {
        var m := ReachesSplit(p, s, trail.history, t, h);
      }
    case Restart =>
  }

  lemma {:induction false} TrailFollows(p: NameParams, genesis: Store, s: Progressing, trail: Trail, events: seq<Witnessed>, end: Trail)
    requires p.treeInterval > 0 && IsGenesis(genesis) && s.names == genesis.names && s.now == 0 && AllStorable(s.names)
    requires Follows(p, genesis, s, trail) && Leads(p, s.ledger, trail, events, end)
    ensures Follows(p, genesis, s, end)
    decreases |events|
  {
    hide IsGenesis, AllStorable, Follows, Possible, After;
    if events != [] {
      NextFollows(p, genesis, s, trail, events[0]);
      TrailFollows(p, genesis, s, After(p, s.ledger, trail, events[0]), events[1..], end);
    }
  }

  lemma {:induction false} StartFollows(p: NameParams, genesis: Store, s: Progressing, block: Block)
    requires p.treeInterval > 0 && AllStorable(genesis.names) && s.names == genesis.names
    ensures Follows(p, genesis, s, Trail(State([block], genesis), []))
  {
    hide AllStorable, Faithful;
    GenesisFaithful(p, genesis, block);
    assert Reaches(p, s, [], s);
  }

  // ---- The laws ----

  /** From just after genesis, through any events, to `end`. */
  ghost predicate Lives(p: NameParams, genesis: Store, block: Block, s: Progressing, events: seq<Witnessed>, end: Trail) {
    && p.treeInterval > 0 && IsGenesis(genesis) && s.names == genesis.names && s.now == 0 && AllStorable(s.names)
    && Leads(p, s.ledger, Trail(State([block], genesis), []), events, end)
  }

  /** The stored names are those of a run that accepts the surviving blocks one after the other. */
  lemma {:induction false} SurvivorsAreAccepted(p: NameParams, genesis: Store, block: Block, s: Progressing, events: seq<Witnessed>,
      end: Trail)
    requires Lives(p, genesis, block, s, events, end)
    ensures Matches(end.state.blocks, end.history)
    ensures exists t :: Reaches(p, s, end.history, t) && t.names == end.state.db.names && t.now == |end.history|
  {
    hide IsGenesis, AllStorable, Leads, Reaches, Straight, StorableThroughout;
    StartFollows(p, genesis, s, block);
    TrailFollows(p, genesis, s, Trail(State([block], genesis), []), events, end);
    var t :| Reaches(p, s, end.history, t);
    ReachedNames(p, genesis, end.state.blocks, s, end.history, t);
  }

  /**
   * Through refused blocks, reorganizations and restarts every stored name stays alive, every
   * registration of the surviving chain settled, and every permission for subdomains in force.
   */
  lemma {:induction false} LawsSurvive(p: NameParams, genesis: Store, block: Block, s: Progressing, events: seq<Witnessed>, end: Trail)
    requires Lives(p, genesis, block, s, events, end)
    requires PositivePeriods(p) && Good(s.names, s.ledger, 0, s.log) && Subdomains.Rooted(s.names)
    ensures exists t :: Reaches(p, s, end.history, t) && Good(end.state.db.names, t.ledger, |end.history|, t.log)
    ensures Subdomains.Rooted(end.state.db.names) && Subdomains.PermitsKept(s.names, end.state.db.names)
  {
    hide IsGenesis, AllStorable, Leads, Reaches, Matches, Good, Subdomains.Rooted, PositivePeriods;
    SurvivorsAreAccepted(p, genesis, block, s, events, end);
    var t :| Reaches(p, s, end.history, t) && t.names == end.state.db.names && t.now == |end.history|;
    LifecycleInvariant(p, s, end.history, t);
    Subdomains.PermissionIsPermanent(p, s, end.history, t);
  }

  /**
   * An auction that is undecided after block `k` of the surviving chain ends with the winner and the
   * price of the reveals in the surviving blocks above it; reveals of undone blocks do not count.
   */
  lemma {:induction false} AuctionSurvives(p: NameParams, genesis: Store, block: Block, s: Progressing, events: seq<Witnessed>,
      end: Trail, k: nat, key: Hash)
    requires Lives(p, genesis, block, s, events, end) && k <= |end.history|
    requires k < |end.state.blocks| && Straight(p, genesis, end.state.blocks[..k + 1]).Ok?
    requires var names := Straight(p, genesis, end.state.blocks[..k + 1]).value.names;
      && Vickrey.UnderAuction(names, key, p, |end.history|)
      && Vickrey.AuctionOf(names.Get(key).value) == Vickrey.UNDECIDED
    ensures end.state.db.names.Get(key).Some?
    ensures var bids, ns := Vickrey.AllReveals(end.history[k..], key), end.state.db.names.Get(key).value;
      && Vickrey.IsRanked(bids, 1, ns.highest)
      && Vickrey.IsRanked(bids, 2, ns.value)
      && (forall i: nat :: Vickrey.IsEarliestBest(bids, i) ==> ns.owner == Some(bids[i].at))
      && (bids == [] <==> ns.owner == None)
  {
    hide IsGenesis, AllStorable, Leads, Reaches, Straight, Vickrey.IsRanked, Vickrey.AllReveals, Vickrey.UnderAuction,
      Vickrey.IsEarliestBest;
    SurvivorsAreAccepted(p, genesis, block, s, events, end);
    var t :| Reaches(p, s, end.history, t) && t.names == end.state.db.names && t.now == |end.history|;
    var m := ReachesSplit(p, s, end.history, t, k);
    ReachedNames(p, genesis, end.state.blocks[..k + 1], s, end.history[..k], m);
    Vickrey.AuctionDecided(p, m, end.history[k..], t, key);
  }
}
