/**
 * The difficulty rule of the header chain (Sources/Chain/ChainValidation.swift, lines 376 to 415;
 * Sources/Chain/Chain.swift, lines 533 to 599): what the next header's bits have to be depends on the
 * path to its parent alone, on and off the best chain.
 */
module Difficulty {
  import opened Base
  import opened Target256
  import opened Compact
  import opened R = Retarget
  import opened HeaderTree
  import opened HeaderChain
  import MedianTime

  /** What a network fixes about its difficulty. */
  datatype Rule = Rule(noRetargeting: bool, window: nat, pow: PowParams)

  /** The four words of a number. */
  function WordsOf(n: nat): (t: Target256)
    requires n < LIMIT
    ensures t.Value() == n
  {
    WordsFit(n);
    Target256(n / WORD / WORD / WORD, n / WORD / WORD % WORD, n / WORD % WORD, n % WORD)
  }

  lemma {:induction false} WordsFit(n: nat)
    requires n < LIMIT
    ensures 0 <= n / WORD / WORD / WORD < WORD
    ensures n == n % WORD + WORD * (n / WORD % WORD + WORD * (n / WORD / WORD % WORD + WORD * (n / WORD / WORD / WORD)))
  {
  }

  /** Cumulative work fits 256 bits and times fit a signed 64-bit integer, as the node's types have it. */
  predicate Sized(p: seq<Entry>) {
    forall k :: 0 <= k < |p| ==> p[k].work < LIMIT && p[k].header.time <= INT64_MAX
  }

  predicate AllSized(m: Index) {
    forall h :: h in m ==> m[h].work < LIMIT && m[h].header.time <= INT64_MAX
  }

  function InfoOf(e: Entry): BlockInfo
    requires e.work < LIMIT
  {
    BlockInfo(e.header.time, WordsOf(e.work))
  }

  /** The block that stands for the end of a path: of its last three, one of median time. */
  function SuitableOf(p: seq<Entry>): BlockInfo
    requires p != [] && Sized(p)
  {
    var n := |p|;
    if n < 3 then InfoOf(p[n - 1]) else MedianBlock(InfoOf(p[n - 1]), InfoOf(p[n - 2]), InfoOf(p[n - 3]))
  }

  /** The bits the header after a path has to carry. */
  function ExpectedBits(p: seq<Entry>, r: Rule): nat
    requires p != [] && Sized(p) && r.pow.Proper()
  {
    if r.noRetargeting || |p| < r.window + 3 then r.pow.powBits
    else
      var first, last := SuitableOf(p[..|p| - r.window]), SuitableOf(p);
      NewBits(WindowWork(first.chainwork.Value(), last.chainwork.Value(), r.pow.spacing), last.time - first.time, r.pow)
  }

  lemma {:induction false} PathSized(m: Index, genesis: Entry, e: Entry)
    requires IsTree(m, genesis) && Has(m, e) && AllSized(m)
    ensures Sized(Path(m, genesis, e))
    decreases e.height
  {
    if e.height > 0 {
      PathSized(m, genesis, m[e.header.prevBlock]);
    }
  }

  /** The last three entries of a path, through parents. */
  lemma {:induction false} LastThree(m: Index, genesis: Entry, e: Entry)
    requires IsTree(m, genesis) && Has(m, e) && e.height >= 2
    ensures e.header.prevBlock in m
    ensures var p, parent := Path(m, genesis, e), m[e.header.prevBlock];
      && parent.header.prevBlock in m
      && p[e.height - 1] == parent && p[e.height - 2] == m[parent.header.prevBlock]
  {
    Climb(m, genesis, e);
    var parent := m[e.header.prevBlock];
    Climb(m, genesis, parent);
    assert Path(m, genesis, e) == Path(m, genesis, parent) + [e];
    assert Path(m, genesis, parent) == Path(m, genesis, m[parent.header.prevBlock]) + [parent];
  }

  method GetSuitable(c: HeaderChain, e: Entry) returns (info: BlockInfo)
    requires c.Valid() && Has(c.byHash, e) && AllSized(c.byHash)
    ensures Sized(Path(c.byHash, c.genesis, e)) && info == SuitableOf(Path(c.byHash, c.genesis, e))
  {
    hide *;
    ValidIndex(c);
    PathSized(c.byHash, c.genesis, e);
    EndOfPath(c.byHash, c.genesis, e);
    if e.height < 2 {
      return InfoOf(e);
    }
    LastThree(c.byHash, c.genesis, e);
    var parent := c.byHash[e.header.prevBlock];
    var grandparent := c.byHash[parent.header.prevBlock];
    info := GetSuitableBlock(InfoOf(e), InfoOf(parent), InfoOf(grandparent));
  }

  lemma {:induction false} EndOfPath(m: Index, genesis: Entry, e: Entry)
    requires IsTree(m, genesis) && Has(m, e) && Sized(Path(m, genesis, e))
    ensures var p := Path(m, genesis, e);
      && (forall k :: 0 <= k < |p| ==> p[k].work < LIMIT)
      && SuitableOf(p) ==
         if e.height < 2 then InfoOf(e) else MedianBlock(InfoOf(e), InfoOf(p[e.height - 1]), InfoOf(p[e.height - 2]))
  {
    hide MedianBlock, InfoOf, Path;
  }

  /** Retargeting between the two ends of the window below `prev`, wherever `prev` is in the tree. */
  method RetargetFrom(c: HeaderChain, prev: Entry, r: Rule) returns (bits: nat)
    requires c.Valid() && Has(c.byHash, prev) && AllSized(c.byHash) && r.pow.Proper()
    requires !r.noRetargeting && prev.height + 1 >= r.window + 3
    ensures Sized(Path(c.byHash, c.genesis, prev)) && bits == ExpectedBits(Path(c.byHash, c.genesis, prev), r)
  {
    hide *;
    ValidIndex(c);
    PathSized(c.byHash, c.genesis, prev);
    WindowStart(c.byHash, c.genesis, prev, prev.height - r.window);
    var windowStart := c.GetAncestor(prev, prev.height - r.window);
    var first := GetSuitable(c, windowStart.value);
    var last := GetSuitable(c, prev);
    SuitableSized(Path(c.byHash, c.genesis, windowStart.value));
    SuitableSized(Path(c.byHash, c.genesis, prev));
    BitsBetween(Path(c.byHash, c.genesis, prev), r);
    bits := R.Retarget(first, last, r.pow);
  }

  lemma {:induction false} ValidIndex(c: HeaderChain)
    requires c.Valid()
    ensures IsTree(c.byHash, c.genesis) && Has(c.byHash, c.tip)
  {
  }

  lemma {:induction false} WindowStart(m: Index, genesis: Entry, e: Entry, h: nat)
    requires IsTree(m, genesis) && Has(m, e) && h <= e.height
    ensures var a := Path(m, genesis, e)[h];
      Has(m, a) && Path(m, genesis, a) == Path(m, genesis, e)[..h + 1] && |Path(m, genesis, e)| == e.height + 1
  {
    PathPrefix(m, genesis, e, h);
  }

  lemma {:induction false} SuitableSized(p: seq<Entry>)
    requires p != [] && Sized(p)
    ensures SuitableOf(p).time <= INT64_MAX
  {
  }

  lemma {:induction false} BitsBetween(p: seq<Entry>, r: Rule)
    requires Sized(p) && r.pow.Proper() && !r.noRetargeting && |p| >= r.window + 3
    ensures Sized(p[..|p| - r.window])
    ensures var first, last := SuitableOf(p[..|p| - r.window]), SuitableOf(p);
      ExpectedBits(p, r)
        == NewBits(WindowWork(first.chainwork.Value(), last.chainwork.Value(), r.pow.spacing), last.time - first.time, r.pow)
  {
    hide SuitableOf, WindowWork, NewBits;
  }

  /** Accepts a header on any entry exactly when it carries the bits that entry's path calls for. */
  method VerifyDifficulty(c: HeaderChain, header: Header, prev: Entry, r: Rule) returns (ok: bool)
    requires c.Valid() && Has(c.byHash, prev) && AllSized(c.byHash) && r.pow.Proper()
    ensures Sized(Path(c.byHash, c.genesis, prev))
    ensures ok <==> header.bits == ExpectedBits(Path(c.byHash, c.genesis, prev), r)
  {
    hide NewBits, WindowWork, SuitableOf;
    PathSized(c.byHash, c.genesis, prev);
    if r.noRetargeting || prev.height + 1 < r.window + 3 {
      return header.bits == r.pow.powBits;
    }
    var expected := RetargetFrom(c, prev, r);
    return header.bits == expected;
  }

  /** The bits for a header on the tip: exactly those that will be accepted there. */
  method GetNextBits(c: HeaderChain, r: Rule) returns (bits: nat)
    requires c.Valid() && AllSized(c.byHash) && r.pow.Proper()
    ensures Has(c.byHash, c.tip) && Sized(Path(c.byHash, c.genesis, c.tip))
    ensures bits == ExpectedBits(Path(c.byHash, c.genesis, c.tip), r)
  {
    hide NewBits, WindowWork, SuitableOf;
    PathSized(c.byHash, c.genesis, c.tip);
    if r.noRetargeting || c.tip.height + 1 < r.window + 3 {
      return r.pow.powBits;
    }
    bits := RetargetFrom(c, c.tip, r);
  }

  /** No header the rule accepts has a target above the limit. */
  lemma {:induction false} ExpectedWithinLimit(p: seq<Entry>, r: Rule)
    requires p != [] && Sized(p) && r.pow.Proper()
    ensures Decoded(ExpectedBits(p, r)) <= r.pow.powLimit.Value()
  {
    hide Decoded, SuitableOf, NewBits;
    if !(r.noRetargeting || |p| < r.window + 3) {
      var first, last := SuitableOf(p[..|p| - r.window]), SuitableOf(p);
      WithinLimit(WindowWork(first.chainwork.Value(), last.chainwork.Value(), r.pow.spacing), last.time - first.time, r.pow);
    }
  }

  /** The end of a path of at least three entries is taken at the median time of the last three. */
  lemma {:induction false} SuitableTime(p: seq<Entry>)
    requires |p| >= 3 && Sized(p)
    ensures SuitableOf(p).time
         == MedianTime.Compute([p[|p| - 1].header.time, p[|p| - 2].header.time, p[|p| - 3].header.time], 3)
  {
    var n := |p|;
    var a, b, c := p[n - 1].header.time, p[n - 2].header.time, p[n - 3].header.time;
    hide WordsOf;
    var low, high := Min(a, c), Max(a, c);
    if b < low {
      MedianOfThree(a, b, c, b, low, high);
    } else if b > high {
      MedianOfThree(a, b, c, low, high, b);
    } else {
      MedianOfThree(a, b, c, low, b, high);
    }
  }

  // ---- In every run ----

  /** The rule as the header chain asks for it. */
  function AsGiven(r: Rule): (Header, seq<Entry>) -> bool {
    (header: Header, p: seq<Entry>) => p != [] && Sized(p) && r.pow.Proper() && header.bits == ExpectedBits(p, r)
  }

  /** Whatever headers arrive and whatever is reset, no header of the tree has a target above the limit. */
  method RunWithinLimit(genesis: Entry, rules: Rules, r: Rule, events: seq<HeaderEvent>) returns (c: HeaderChain)
    requires rules.Proper() && genesis.height == 0 && r.pow.Proper() && rules.difficultyOk == AsGiven(r)
    ensures c.Valid() && fresh(c)
    ensures forall h :: h in c.byHash && c.byHash[h] != genesis ==>
      Decoded(c.byHash[h].header.bits) <= r.pow.powLimit.Value()
  {
    c := Run(genesis, rules, events);
    hide Path, Extends, Decoded, ExpectedBits, SuitableOf, Sized, HeaderChain.Valid;
    forall h | h in c.byHash && c.byHash[h] != genesis
      ensures Decoded(c.byHash[h].header.bits) <= r.pow.powLimit.Value()
    {
      ExpectedWithinLimit(Path(c.byHash, genesis, c.byHash[c.byHash[h].header.prevBlock]), r);
    }
  }
}
