/**
 * The auction law: what any number of REVEALs, spread over any number of transactions and blocks,
 * make of a name (Sources/Chain/CovenantProcessor.swift, lines 203 to 214; Sources/Covenants/
 * NameState.swift, lines 106 to 135).
 */
module Vickrey {
  import opened Base
  import opened Covenants
  import opened NameState
  import opened NameDB
  import opened CovenantContext
  import opened CovenantFees
  import opened CovenantRules
  import opened CovenantProcessor
  import opened NameLifecycle

  /** A revealed bid and the output that reveals it. */
  datatype Revealed = Revealed(value: nat, at: Outpoint)

  /** The part of a name state an auction decides. */
  datatype Auction = Auction(owner: Option<Outpoint>, highest: nat, value: nat)

  const UNDECIDED := Auction(None, 0, 0)

  function AuctionOf(ns: NameState): Auction {
    Auction(ns.owner, ns.highest, ns.value)
  }

  /** One reveal: a new highest bid moves the old one to second place. */
  function Raise(a: Auction, bid: Revealed): Auction {
    if a.owner == None || bid.value > a.highest then Auction(Some(bid.at), bid.value, a.highest)
    else if bid.value > a.value then a.(value := bid.value)
    else a
  }

  function RaiseAll(a: Auction, bids: seq<Revealed>): Auction {
    if bids == [] then a else Raise(RaiseAll(a, bids[..|bids| - 1]), bids[|bids| - 1])
  }

  // ---- The law, stated without the fold ----

  /** How many bids are at least `v`. */
  function AtLeast(bids: seq<Revealed>, v: int): nat {
    if bids == [] then 0
    else AtLeast(bids[..|bids| - 1], v) + if bids[|bids| - 1].value >= v then 1 else 0
  }

  /** `v` is the `rank`-th largest bid, counted with multiplicity; 0 when there are fewer bids. */
  predicate IsRanked(bids: seq<Revealed>, rank: nat, v: nat) {
    if |bids| < rank then v == 0 else AtLeast(bids, v) >= rank > AtLeast(bids, v + 1)
  }

  /** Bid `k` is the first among those of the largest value. */
  predicate IsEarliestBest(bids: seq<Revealed>, k: nat) {
    k < |bids| && BeatsAll(bids, k)
  }

  predicate BeatsAll(bids: seq<Revealed>, k: nat)
    requires k < |bids|
  {
    && (forall j :: 0 <= j < |bids| ==> bids[j].value <= bids[k].value)
    && (forall j :: 0 <= j < k ==> bids[j].value < bids[k].value)
  }

  lemma {:induction false} CountBounds(bids: seq<Revealed>, v: int, w: int)
    requires v <= w
    ensures AtLeast(bids, w) <= AtLeast(bids, v) <= |bids|
  {
    if bids != [] {
      CountBounds(bids[..|bids| - 1], v, w);
    }
  }

  lemma {:induction false} NoneAbove(bids: seq<Revealed>, top: nat)
    requires forall j :: 0 <= j < |bids| ==> bids[j].value <= top
    ensures AtLeast(bids, top + 1) == 0 && AtLeast(bids, 0) == |bids|
  {
    if bids != [] {
      NoneAbove(bids[..|bids| - 1], top);
    }
  }

  /** What the state of an auction says about the bids made in it. */
  ghost predicate Decided(bids: seq<Revealed>, a: Auction) {
    && IsRanked(bids, 1, a.highest)
    && IsRanked(bids, 2, a.value)
    && a.value <= a.highest
    && (bids == [] <==> a.owner == None)
    && (forall k: nat :: IsEarliestBest(bids, k) ==> a.owner == Some(bids[k].at))
    && (bids != [] ==> exists k: nat :: IsEarliestBest(bids, k) && bids[k].value == a.highest)
  }

  /** Both prices and the winner, after any sequence of reveals in a fresh auction. */
  lemma {:induction false} VickreyLaw(bids: seq<Revealed>)
    ensures Decided(bids, RaiseAll(UNDECIDED, bids))
  {
    hide Decided;
    if bids == [] {
      NothingDecided();
    } else {
      var before, bid := bids[..|bids| - 1], bids[|bids| - 1];
      VickreyLaw(before);
      assert bids == before + [bid];
      RaiseDecides(before, bid, RaiseAll(UNDECIDED, before));
    }
  }

  lemma {:induction false} NothingDecided()
    ensures Decided([], UNDECIDED)
  {
  }

  lemma {:induction false} RaiseDecides(before: seq<Revealed>, bid: Revealed, a: Auction)
    requires Decided(before, a) && (before == [] ==> a == UNDECIDED)
    ensures Decided(before + [bid], Raise(a, bid))
  {
    hide IsRanked, BeatsAll;
    if before == [] {
      FirstDecides(bid);
      assert before + [bid] == [bid];
    } else {
      var k: nat :| IsEarliestBest(before, k) && before[k].value == a.highest;
      var best := BestAfter(before, bid, k);
      NothingAboveBest(before, k);
      RanksAfter(before, bid, a);
    }
  }

  lemma {:induction false} FirstDecides(bid: Revealed)
    ensures Decided([bid], Raise(UNDECIDED, bid))
  {
    NoneAbove([bid], bid.value);
    assert [bid][..0] == [];
    assert AtLeast([bid], bid.value) == 1;
    assert IsEarliestBest([bid], 0);
  }

  lemma {:induction false} NothingAboveBest(bids: seq<Revealed>, k: nat)
    requires IsEarliestBest(bids, k)
    ensures AtLeast(bids, bids[k].value + 1) == 0 && AtLeast(bids, 0) == |bids|
  {
    NoneAbove(bids, bids[k].value);
  }

  /** After one more bid the earliest best one is that bid if it is larger, and the old one if not. */
  lemma {:induction false} BestAfter(before: seq<Revealed>, bid: Revealed, k: nat) returns (best: nat)
    requires IsEarliestBest(before, k)
    ensures best == if bid.value > before[k].value then |before| else k
    ensures IsEarliestBest(before + [bid], best)
    ensures forall m: nat :: IsEarliestBest(before + [bid], m) ==> m == best
  {
    best := if bid.value > before[k].value then |before| else k;
    var bids := before + [bid];
    assert IsEarliestBest(bids, best);
    forall m: nat | IsEarliestBest(bids, m)
      ensures m == best
    {
      assert bids[m].value <= bids[best].value && bids[best].value <= bids[m].value;
    }
  }

  lemma {:induction false} RanksAfter(before: seq<Revealed>, bid: Revealed, a: Auction)
    requires |before| > 0 && a.owner != None && a.value <= a.highest
    requires IsRanked(before, 1, a.highest) && IsRanked(before, 2, a.value)
    requires AtLeast(before, a.highest + 1) == 0 && AtLeast(before, 0) == |before|
    ensures IsRanked(before + [bid], 1, Raise(a, bid).highest)
    ensures IsRanked(before + [bid], 2, Raise(a, bid).value)
  {
    var bids := before + [bid];
    assert bids[..|bids| - 1] == before;
    var b := Raise(a, bid);
    CountBounds(before, a.highest + 1, b.highest + 1);
    if a.owner == None || bid.value > a.highest {
      CountBounds(before, a.highest + 1, bid.value);
      CountBounds(before, a.value, a.highest);
    } else if bid.value > a.value {
      CountBounds(before, bid.value, a.highest);
      CountBounds(before, a.value + 1, bid.value);
      CountBounds(before, bid.value + 1, a.highest + 1);
      CountBounds(before, a.value + 1, bid.value + 1);
    }
  }

  /** The two orders of a multiset of bids have the same counts. */
  lemma {:induction false} CountOfPermutation(a: seq<Revealed>, b: seq<Revealed>, v: int)
    requires multiset(a) == multiset(b)
    ensures AtLeast(a, v) == AtLeast(b, v)
    decreases |a|
  {
    if a == [] {
      assert |multiset(a)| == |multiset(b)|;
    } else {
      var i := FindLast(a, b);
      CountOfPermutation(a[..|a| - 1], b[..i] + b[i + 1..], v);
      CountWithout(b, i, v);
    }
  }

  /** Where the last element of `a` is in `b`; without it the two are still permutations. */
  lemma {:induction false} FindLast(a: seq<Revealed>, b: seq<Revealed>) returns (i: nat)
    requires a != [] && multiset(a) == multiset(b)
    ensures i < |b| && b[i] == a[|a| - 1]
    ensures multiset(a[..|a| - 1]) == multiset(b[..i] + b[i + 1..])
  {
    var front, x := a[..|a| - 1], a[|a| - 1];
    assert a == front + [x];
    assert x in multiset(b);
    i :| 0 <= i < |b| && b[i] == x;
    var rest := b[..i] + b[i + 1..];
    assert b == b[..i] + ([x] + b[i + 1..]);
    assert multiset(b) == multiset(rest) + multiset{x};
    assert multiset(a) == multiset(front) + multiset{x};
    assert multiset(front) == multiset(a) - multiset{x};
    assert multiset(rest) == multiset(b) - multiset{x};
  }

  lemma {:induction false} CountWithout(bids: seq<Revealed>, i: nat, v: int)
    requires i < |bids|
    ensures AtLeast(bids, v) == AtLeast(bids[..i] + bids[i + 1..], v) + if bids[i].value >= v then 1 else 0
    decreases |bids|
  {
    var front := bids[..|bids| - 1];
    if i == |bids| - 1 {
      assert bids[..i] + bids[i + 1..] == front;
    } else {
      CountWithout(front, i, v);
      var rest := bids[..i] + bids[i + 1..];
      assert rest[..|rest| - 1] == front[..i] + front[i + 1..];
    }
  }

  lemma {:induction false} RankUnique(bids: seq<Revealed>, rank: nat, v: nat, w: nat)
    requires rank > 0 && IsRanked(bids, rank, v) && IsRanked(bids, rank, w)
    ensures v == w
  {
    if v < w {
      CountBounds(bids, v + 1, w);
    } else if w < v {
      CountBounds(bids, w + 1, v);
    }
  }

  lemma {:induction false} RanksOfPermutation(a: seq<Revealed>, b: seq<Revealed>)
    requires multiset(a) == multiset(b)
    ensures forall rank: nat, v: nat :: IsRanked(a, rank, v) ==> IsRanked(b, rank, v)
  {
    assert |multiset(a)| == |multiset(b)|;
    forall rank: nat, v: nat | IsRanked(a, rank, v)
      ensures IsRanked(b, rank, v)
    {
      CountOfPermutation(a, b, v);
      CountOfPermutation(a, b, v + 1);
    }
  }

  /** Revealing the same bids in another order changes neither price. */
  lemma {:induction false} OrderIrrelevant(a: seq<Revealed>, b: seq<Revealed>)
    requires multiset(a) == multiset(b)
    ensures RaiseAll(UNDECIDED, a).highest == RaiseAll(UNDECIDED, b).highest
    ensures RaiseAll(UNDECIDED, a).value == RaiseAll(UNDECIDED, b).value
  {
    hide RaiseAll, IsRanked, IsEarliestBest, AtLeast;
    VickreyLaw(a);
    VickreyLaw(b);
    RanksOfPermutation(a, b);
    var won, paid := RaiseAll(UNDECIDED, a).highest, RaiseAll(UNDECIDED, a).value;
    RankUnique(b, 1, won, RaiseAll(UNDECIDED, b).highest);
    RankUnique(b, 2, paid, RaiseAll(UNDECIDED, b).value);
  }

  // ---- The law holds of processed blocks ----

  /** A name whose auction is under way: opened after genesis, not yet decided by registration. */
  predicate UnderAuction(db: Names, key: Hash, p: NameParams, h: nat) {
    db.Get(key).Some? &&
    var ns := db.Get(key).value;
    ns.height > 0 && !ns.registered && ns.revoked == 0 && h < ns.RevealEnd(p)
  }

  function RevealsAt(tx: Transaction, i: nat, key: Hash): seq<Revealed>
    requires i < |tx.outputs|
  {
    var c := tx.outputs[i].covenant;
    if c.kind == Reveal && NameHashOf(c) == Some(key)
    then [Revealed(tx.outputs[i].value, Outpoint(tx.hash, i))] else []
  }

  /** The reveals of `key` among the first `n` outputs, in order. */
  function RevealsIn(tx: Transaction, n: nat, key: Hash): seq<Revealed>
    requires n <= |tx.outputs|
  {
    if n == 0 then [] else RevealsIn(tx, n - 1, key) + RevealsAt(tx, n - 1, key)
  }

  function RevealsOf(txs: seq<Transaction>, n: nat, key: Hash): seq<Revealed>
    requires n <= |txs|
  {
    if n == 0 then [] else RevealsOf(txs, n - 1, key) + RevealsIn(txs[n - 1], |txs[n - 1].outputs|, key)
  }

  /** From `db` to `after` the auction of `key` took exactly these bids and stayed in its round. */
  predicate Advanced(db: Names, after: Names, key: Hash, bids: seq<Revealed>) {
    && db.Get(key).Some? && after.Get(key).Some?
    && AuctionOf(after.Get(key).value) == RaiseAll(AuctionOf(db.Get(key).value), bids)
    && after.Get(key).value.height == db.Get(key).value.height
    && !after.Get(key).value.registered && after.Get(key).value.revoked == 0
  }

  lemma {:induction false} RaiseMore(a: Auction, bids: seq<Revealed>, more: seq<Revealed>)
    ensures RaiseAll(a, bids + more) == RaiseAll(RaiseAll(a, bids), more)
  {
    if more == [] {
      assert bids + more == bids;
    } else {
      var front := more[..|more| - 1];
      RaiseMore(a, bids, front);
      assert (bids + more)[..|bids + more| - 1] == bids + front;
    }
  }

  lemma {:induction false} AdvanceMore(a: Names, b: Names, c: Names, key: Hash, bids: seq<Revealed>, more: seq<Revealed>)
    requires Advanced(a, b, key, bids) && Advanced(b, c, key, more)
    ensures Advanced(a, c, key, bids + more)
  {
    RaiseMore(AuctionOf(a.Get(key).value), bids, more);
  }

  /** What one operation on `key` does while its auction is under way. */
  lemma {:induction false} KindAdvances(ctx: Context, tx: Transaction, i: nat, key: Hash, ns: NameState, db: Names)
    requires i < |tx.outputs| && NameHashOf(tx.outputs[i].covenant) == Some(key)
    requires UnderAuction(db, key, ctx.rules.params, ctx.height) && db.Get(key) == Some(ns)
    requires ProcessKind(ctx, tx, i, key, ns, db).Ok?
    ensures Advanced(db, ProcessKind(ctx, tx, i, key, ns, db).value, key, RevealsAt(tx, i, key))
  {
    hide NameHashOf, ItemOfSize, CheckRound, CheckParent, CheckDelegation, MatchingCoin, SpendOwner;
    var a := AuctionOf(ns);
    assert RaiseAll(a, []) == a;
    if tx.outputs[i].covenant.kind == Reveal {
      var bid := Revealed(tx.outputs[i].value, Outpoint(tx.hash, i));
      assert [bid][..0] == [];
      assert RaiseAll(a, [bid]) == Raise(a, bid);
    }
    if tx.outputs[i].covenant.kind == Open {
      OpenKeepsAuction(ctx, tx, i, key, ns, db);
    }
  }

  lemma {:induction false} OpenKeepsAuction(ctx: Context, tx: Transaction, i: nat, key: Hash, ns: NameState, db: Names)
    requires i < |tx.outputs| && ProcessOpen(ctx, tx, i, key, ns, db).Ok?
    ensures ProcessOpen(ctx, tx, i, key, ns, db).value == ns.(parentHash := ProcessOpen(ctx, tx, i, key, ns, db).value.parentHash)
  {
    hide NameHashOf, ParentName, ParentHashOf, IsSubdomain;
  }

  /** Operations on other names leave `key` alone. */
  lemma {:induction false} OtherName(ctx: Context, tx: Transaction, i: nat, other: Hash, ns: NameState, db: Names, key: Hash)
    requires i < |tx.outputs| && key != other && ProcessKind(ctx, tx, i, other, ns, db).Ok?
    ensures ProcessKind(ctx, tx, i, other, ns, db).value.Get(key) == db.Get(key)
  {
    hide ProcessOpen, ProcessReveal, ProcessRegister, ProcessUpdate, ProcessRenew, ProcessTransfer, ProcessFinalize,
      ProcessRevoke, ProcessBid, ProcessRedeem;
  }

  lemma {:induction false} StepAdvances(ctx: Context, tx: Transaction, i: nat, s: Progress, key: Hash)
    requires i < |tx.outputs|
    requires UnderAuction(s.names, key, ctx.rules.params, ctx.height) && Step(ctx, tx, i, s).Ok?
    ensures Advanced(s.names, Step(ctx, tx, i, s).value.names, key, RevealsAt(tx, i, key))
  {
    hide ProcessKind, Charge, NameHashOf;
    var c := tx.outputs[i].covenant;
    assert RaiseAll(AuctionOf(s.names.Get(key).value), []) == AuctionOf(s.names.Get(key).value);
    if c.kind.IsName() {
      var other := NameHashOf(c).value;
      var ns := Prepare(ctx, c, other, s.names).value;
      if other == key {
        KindAdvances(ctx, tx, i, key, ns, s.names);
      } else {
        OtherName(ctx, tx, i, other, ns, s.names, key);
      }
    }
  }

  lemma {:induction false} StepsAdvance(ctx: Context, tx: Transaction, n: nat, names: Names, key: Hash)
    requires n <= |tx.outputs|
    requires UnderAuction(names, key, ctx.rules.params, ctx.height) && Steps(ctx, tx, n, names).Ok?
    ensures Advanced(names, Steps(ctx, tx, n, names).value.names, key, RevealsIn(tx, n, key))
  {
    hide Step, RevealsAt;
    if n > 0 {
      StepsAdvance(ctx, tx, n - 1, names, key);
      var s := Steps(ctx, tx, n - 1, names).value;
      StepAdvances(ctx, tx, n - 1, s, key);
      AdvanceMore(names, s.names, Steps(ctx, tx, n, names).value.names, key, RevealsIn(tx, n - 1, key),
                  RevealsAt(tx, n - 1, key));
    }
  }

  lemma {:induction false} BlockAdvances(ctx: Context, txs: seq<Transaction>, n: nat, names: Names, key: Hash)
    requires n <= |txs|
    requires UnderAuction(names, key, ctx.rules.params, ctx.height) && ProcessTransactions(ctx, txs, n, names).Ok?
    ensures Advanced(names, ProcessTransactions(ctx, txs, n, names).value, key, RevealsOf(txs, n, key))
  {
    hide Steps, RevealsIn, Covers, Available;
    if n > 0 {
      BlockAdvances(ctx, txs, n - 1, names, key);
      var before, tx := ProcessTransactions(ctx, txs, n - 1, names).value, txs[n - 1];
      StepsAdvance(ctx, tx, |tx.outputs|, before, key);
      AdvanceMore(names, before, ProcessTransactions(ctx, txs, n, names).value, key, RevealsOf(txs, n - 1, key),
                  RevealsIn(tx, |tx.outputs|, key));
    }
  }

  function AllReveals(blocks: seq<Connected>, key: Hash): seq<Revealed> {
    if blocks == [] then []
    else RevealsOf(blocks[0].block, |blocks[0].block|, key) + AllReveals(blocks[1..], key)
  }

  lemma {:induction false} CommitAdvances(p: NameParams, h: nat, names: Names, after: Names, key: Hash, bids: seq<Revealed>)
    requires p.treeInterval > 0 && Advanced(names, after, key, bids)
    ensures Advanced(names, AfterBlock(p, h, after), key, bids)
  {
  }

  lemma {:induction false} RunAdvances(p: NameParams, s: Progressing, blocks: seq<Connected>, t: Progressing, key: Hash)
    requires p.treeInterval > 0 && Reaches(p, s, blocks, t)
    requires UnderAuction(s.names, key, p, s.now + |blocks|)
    ensures Advanced(s.names, t.names, key, AllReveals(blocks, key))
    decreases |blocks|
  {
    hide Consistent, ProcessTransactions, LoggedIn, RevealsOf;
    if blocks != [] {
      var b, next := blocks[0], Accept(p, s, blocks[0]);
      BlockAdvances(b.ctx, b.block, |b.block|, s.names, key);
      CommitAdvances(p, b.ctx.height, s.names, ProcessTransactions(b.ctx, b.block, |b.block|, s.names).value, key,
                     RevealsOf(b.block, |b.block|, key));
      RunAdvances(p, next, blocks[1..], t, key);
      AdvanceMore(s.names, next.names, t.names, key, RevealsOf(b.block, |b.block|, key), AllReveals(blocks[1..], key));
    } else {
      assert RaiseAll(AuctionOf(s.names.Get(key).value), []) == AuctionOf(s.names.Get(key).value);
    }
  }

  /** An OPEN of a name that was never opened, or has expired, starts an undecided auction at this height. */
  lemma {:induction false} OpenStartsAuction(ctx: Context, tx: Transaction, i: nat, key: Hash, ns: NameState, db: Names)
    requires i < |tx.outputs| && tx.outputs[i].covenant.kind == Open
    requires db.Get(key) == None || db.Get(key).value.IsNull() || db.Get(key).value.IsExpired(ctx.height, ctx.rules.params)
    requires Prepare(ctx, tx.outputs[i].covenant, key, db) == Ok(ns) && ProcessOpen(ctx, tx, i, key, ns, db).Ok?
    ensures var started := ProcessOpen(ctx, tx, i, key, ns, db).value;
      && AuctionOf(started) == UNDECIDED && started.height == ctx.height
      && !started.registered && started.revoked == 0
  {
    OpenKeepsAuction(ctx, tx, i, key, ns, db);
    hide ProcessOpen;
  }

  /**
   * However an auction's reveals are spread over blocks, when it ends the winner is the earliest
   * best reveal and the price on record is the second best.
   */
  lemma {:induction false} AuctionDecided(p: NameParams, s: Progressing, blocks: seq<Connected>, t: Progressing, key: Hash)
    requires p.treeInterval > 0 && Reaches(p, s, blocks, t)
    requires UnderAuction(s.names, key, p, s.now + |blocks|)
    requires AuctionOf(s.names.Get(key).value) == UNDECIDED
    ensures t.names.Get(key).Some?
    ensures var bids, ns := AllReveals(blocks, key), t.names.Get(key).value;
      && IsRanked(bids, 1, ns.highest)
      && IsRanked(bids, 2, ns.value)
      && (forall k: nat :: IsEarliestBest(bids, k) ==> ns.owner == Some(bids[k].at))
      && (bids == [] <==> ns.owner == None)
  {
    hide Reaches, IsRanked, AllReveals, RaiseAll;
    RunAdvances(p, s, blocks, t, key);
    VickreyLaw(AllReveals(blocks, key));
  }
}
