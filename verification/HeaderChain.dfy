/**
 * The header index and the best chain (Sources/Chain/Chain.swift): adding headers, finding forks,
 * ancestors, reorganizing, resetting; and the cached deployment states
 * (Sources/Chain/ChainValidation.swift, lines 636 to 742).
 */
module HeaderChain {
  import opened Base
  import opened Bits
  import opened HeaderTree
  import opened Deployments
  import MedianTime

  datatype HeaderError = Orphan | Duplicate | BadProof | InsufficientWork | TimeTooNew | TimeTooOld | BadDifficulty

  /**
   * What the chain is given: the proof check with the hash it yields, the target check, the
   * difficulty rule, given the path to the parent, and the work of a target are arbitrary functions;
   * work is positive.
   */
  datatype Rules = Rules(
    proofHash: Header -> Option<Hash>,
    meetsTarget: (Header, Hash) -> bool,
    difficultyOk: (Header, seq<Entry>) -> bool,
    workOf: nat -> nat,
    maxFuture: nat,
    windows: Windows,
    deployments: map<nat, Deployment>)
  {
    ghost predicate Proper() {
      && windows.Proper()
      && forall header, hash :: meetsTarget(header, hash) ==> workOf(header.bits) > 0
    }
  }

  // ---- What the index says ----

  /** The height index of a path. */
  function Indexed(p: seq<Entry>): map<nat, Entry> {
    map h: nat | h < |p| :: p[h]
  }

  /** No entry extends `e`. */
  predicate NoChild(m: Index, genesis: Entry, e: Entry) {
    forall h :: h in m && m[h] != genesis ==> m[h].header.prevBlock != e.hash
  }

  /** `e` has at least as much work as any entry. */
  predicate MostWork(m: Index, e: Entry) {
    forall h :: h in m ==> m[h].work <= e.work
  }

  ghost predicate AllTimely(m: Index, genesis: Entry, span: nat)
    requires IsTree(m, genesis) && span > 0
  {
    forall h :: h in m ==> Timely(Path(m, genesis, m[h]), span)
  }

  /** The proof gives the entry's hash, the hash meets the target, and the work is the parent's and its own. */
  predicate Proved(e: Entry, parent: Entry, rules: Rules) {
    && rules.proofHash(e.header) == Some(e.hash) && rules.meetsTarget(e.header, e.hash)
    && e.work == parent.work + rules.workOf(e.header.bits)
  }

  /** Every header after genesis is proved, and the difficulty rule accepted it on the path to its parent. */
  ghost predicate AllDue(m: Index, genesis: Entry, rules: Rules)
    requires IsTree(m, genesis)
  {
    forall h :: h in m && m[h] != genesis ==>
      && Has(m, m[m[h].header.prevBlock]) && Proved(m[h], m[m[h].header.prevBlock], rules)
      && rules.difficultyOk(m[h].header, Path(m, genesis, m[m[h].header.prevBlock]))
  }

  type Cache = map<nat, map<Hash, ThresholdState>>

  /** Every cached state is the state of the boundary it is filed under. */
  ghost predicate CacheSound(cache: Cache, m: Index, genesis: Entry, rules: Rules)
    requires IsTree(m, genesis) && rules.windows.Proper()
  {
    forall bit, h :: bit in cache && h in cache[bit] ==> StateSound(m, genesis, rules, bit, h, cache[bit][h])
  }

  /** `h` is a window boundary in this deployment state. */
  ghost predicate StateSound(m: Index, genesis: Entry, rules: Rules, bit: nat, h: Hash, state: ThresholdState)
    requires IsTree(m, genesis) && rules.windows.Proper()
  {
    && bit in rules.deployments && h in m && Whole(m[h].height + 1, rules.windows.size)
    && state == NodeState(Path(m, genesis, m[h]), bit, rules.deployments[bit], rules.windows)
  }

  /** The last entry two paths have in common. */
  ghost predicate IsFork(p: seq<Entry>, q: seq<Entry>, f: Entry) {
    f.height < |p| && f.height < |q| && p[f.height] == f == q[f.height] && DifferAbove(p, q, f.height)
  }

  ghost predicate DifferAbove(p: seq<Entry>, q: seq<Entry>, height: nat) {
    forall h :: height < h < |p| && h < |q| ==> p[h] != q[h]
  }

  class HeaderChain {
    const genesis: Entry
    const rules: Rules
    var byHash: Index
    var byHeight: map<nat, Entry>
    var tip: Entry
    var stateCache: Cache

    /** The index is a tree of timely headers, `byHeight` the path to the tip, the tip a leaf. */
    ghost predicate Valid()
      reads this
    {
      && rules.Proper() && IsTree(byHash, genesis) && Has(byHash, tip)
      && AllTimely(byHash, genesis, rules.windows.span)
      && byHeight == Indexed(Path(byHash, genesis, tip))
      && NoChild(byHash, genesis, tip)
      && CacheSound(stateCache, byHash, genesis, rules)
    }

    constructor (genesis: Entry, rules: Rules)
      requires rules.Proper() && genesis.height == 0
      ensures Valid() && byHash == map[genesis.hash := genesis] && tip == genesis
      ensures this.genesis == genesis && this.rules == rules
      ensures MostWork(byHash, tip)
    {
      this.genesis, this.rules := genesis, rules;
      byHash, byHeight, tip := map[genesis.hash := genesis], map[0 := genesis], genesis;
      stateCache := map[];
    }

    /** The newest timestamps of the path to an entry, at most `count` of them. */
    method GetPreviousTimestamps(e: Entry, count: nat) returns (t: seq<nat>)
      requires IsTree(byHash, genesis) && Has(byHash, e)
      ensures t == NewestFirst(Path(byHash, genesis, e))[..Min(count, e.height + 1)]
    {
      hide Path, IsTree, NewestFirst, Extends;
      t := [];
      if count == 0 {
        return;
      }
      var current := e;
      ghost var all := NewestFirst(Path(byHash, genesis, e));
      while true
        invariant Has(byHash, current) && |t| < count && |t| + current.height == e.height
        invariant all == t + NewestFirst(Path(byHash, genesis, current))
        decreases current.height
      {
        NewestNext(byHash, genesis, current);
        Regroup(all, t, current.header.time, NewestFirst(Path(byHash, genesis, current)));
        t := t + [current.header.time];
        if current.height == 0 || |t| == count {
          return;
        }
        current := byHash[current.header.prevBlock];
      }
    }

    method MedianTimePast(e: Entry) returns (m: nat)
      requires IsTree(byHash, genesis) && Has(byHash, e) && rules.windows.span > 0
      ensures m == MedianPast(Path(byHash, genesis, e), rules.windows.span)
    {
      var t := GetPreviousTimestamps(e, rules.windows.span);
      m := MedianTime.Compute(t, rules.windows.span);
      MedianOfPrefix(NewestFirst(Path(byHash, genesis, e)), rules.windows.span);
    }

    /** Walks both entries back until they meet: the deepest common ancestor. */
    method FindFork(a: Entry, b: Entry) returns (fork: Option<Entry>)
      requires IsTree(byHash, genesis) && Has(byHash, a) && Has(byHash, b)
      ensures fork.Some? && IsFork(Path(byHash, genesis, a), Path(byHash, genesis, b), fork.value)
    {
      hide Path, IsTree, DifferAbove, Extends;
      ghost var p, q := Path(byHash, genesis, a), Path(byHash, genesis, b);
      var entryA, entryB := a, b;
      DifferAboveTop(p, q, a.height, b.height);
      while entryA.hash != entryB.hash
        invariant OnPath(byHash, p, entryA) && OnPath(byHash, q, entryB)
        invariant DifferAbove(p, q, if entryA.height > entryB.height then entryB.height else entryA.height)
        decreases entryA.height + entryB.height
      {
        Apart(byHash, genesis, p, q, entryA, entryB);
        if entryA.height > entryB.height {
          if entryA.header.prevBlock !in byHash {
            return None;
          }
          StepBack(byHash, genesis, a, entryA);
          entryA := byHash[entryA.header.prevBlock];
        } else {
          if entryB.header.prevBlock !in byHash {
            return None;
          }
          StepBack(byHash, genesis, b, entryB);
          entryB := byHash[entryB.header.prevBlock];
        }
      }
      return Some(entryA);
    }

    /** The ancestor at a height; the height index is a shortcut for entries of the best chain. */
    method GetAncestor(e: Entry, height: int) returns (ancestor: Option<Entry>)
      requires Valid() && Has(byHash, e)
      ensures ancestor == if 0 <= height <= e.height then Some(Path(byHash, genesis, e)[height]) else None
    {
      if height < 0 || height > e.height {
        return None;
      }
      if e.height in byHeight && byHeight[e.height].hash == e.hash && height in byHeight {
        PathPrefix(byHash, genesis, tip, e.height);
        return Some(byHeight[height]);
      }
      ghost var p := Path(byHash, genesis, e);
      var current := e;
      while current.height > height
        invariant OnPath(byHash, p, current) && current.height >= height
        decreases current.height
      {
        if current.header.prevBlock !in byHash {
          return None;
        }
        StepBack(byHash, genesis, e, current);
        current := byHash[current.header.prevBlock];
      }
      return Some(current);
    }

    /**
     * Makes `byHeight` the path to a new tip that does not descend from the present one. The range
     * of heights to remove is never empty.
     */
    method Reorganize(newTip: Entry) returns (ok: bool)
      requires IsTree(byHash, genesis) && Has(byHash, tip) && Has(byHash, newTip) && newTip != tip
      requires byHeight == Indexed(Path(byHash, genesis, tip)) && NoChild(byHash, genesis, tip)
      modifies `byHeight, `tip, `stateCache
      ensures ok && byHeight == Indexed(Path(byHash, genesis, newTip)) && stateCache == map[]
      ensures IsFork(old(Path(byHash, genesis, tip)), Path(byHash, genesis, newTip), tip)
    {
      hide Path, IsTree, IsFork, NoChild, Indexed, Kept, Patched;
      ghost var p, q := Path(byHash, genesis, tip), Path(byHash, genesis, newTip);
      var found := FindFork(tip, newTip);
      if found == None {
        return false;
      }
      var fork := found.value;
      ForkBelowTip(byHash, genesis, tip, newTip, fork);
      var entries: seq<Entry>, current := [], newTip;
      while current.height > fork.height
        invariant OnPath(byHash, q, current) && fork.height <= current.height
        invariant |entries| + current.height == newTip.height && unchanged(this)
        invariant forall i :: 0 <= i < |entries| ==> entries[i] == q[newTip.height - i]
        decreases current.height
      {
        entries := entries + [current];
        Climb(byHash, genesis, current);
        if current.header.prevBlock !in byHash {
          return false;
        }
        StepBack(byHash, genesis, newTip, current);
        current := byHash[current.header.prevBlock];
      }
      var h := fork.height + 1;
      KeptAll(p, h);
      while h <= tip.height
        invariant fork.height + 1 <= h <= tip.height + 1 && byHeight == Kept(p, fork.height + 1, h) && tip == old(tip)
      {
        KeptStep(p, fork.height + 1, h);
        byHeight := byHeight - {h};
        h := h + 1;
      }
      var i := 0;
      StartPatching(p, q, fork.height);
      while i < |entries|
        invariant 0 <= i <= |entries| && byHeight == Patched(p, fork.height, q, i) && tip == old(tip)
      {
        PatchStep(byHash, genesis, newTip, p, fork.height, i);
        byHeight := byHeight[entries[i].height := entries[i]];
        i := i + 1;
      }
      PatchedAll(p, q, fork, i);
      stateCache := map[];
      tip := fork;
      return true;
    }

    /** Some entry of the best chain at this height was made from the same fields. */
    predicate LooksKnown(header: Header, height: nat)
      reads this
    {
      height in byHeight &&
      var known := byHeight[height].header;
      && known.prevBlock == header.prevBlock && known.merkleRoot == header.merkleRoot
      && known.nonce == header.nonce && known.time == header.time && known.bits == header.bits
    }

    /** The entry a header becomes. */
    function EntryOf(header: Header, hash: Hash, prev: Entry): Entry {
      Entry(hash, header, prev.height + 1, prev.work + rules.workOf(header.bits))
    }

    /** What a header needs to be accepted. */
    ghost predicate Admissible(header: Header, now: nat)
      reads this
      requires Valid()
    {
      && header.prevBlock in byHash
      && var prev := byHash[header.prevBlock];
      && !LooksKnown(header, prev.height + 1)
      && rules.proofHash(header).Some?
      && var hash := rules.proofHash(header).value;
      && hash !in byHash && rules.meetsTarget(header, hash)
      && header.time <= now + rules.maxFuture
      && header.time > MedianPast(Path(byHash, genesis, prev), rules.windows.span)
      && rules.difficultyOk(header, Path(byHash, genesis, prev))
    }

    /** What each refusal says of a header. */
    ghost predicate Violates(error: HeaderError, header: Header, now: nat)
      reads this
      requires Valid()
    {
      var known, proof := header.prevBlock in byHash, rules.proofHash(header);
      match error
      case Orphan => !known
      case Duplicate =>
        || (proof.Some? && proof.value in byHash)
        || (known && byHash[header.prevBlock].height + 1 in byHeight
              && byHeight[byHash[header.prevBlock].height + 1].header.(version := header.version, rest := header.rest) == header)
      case BadProof => proof == None
      case InsufficientWork => proof.Some? && !rules.meetsTarget(header, proof.value)
      case TimeTooNew => now + rules.maxFuture < header.time
      case TimeTooOld => known && header.time <= MedianPast(Path(byHash, genesis, byHash[header.prevBlock]), rules.windows.span)
      case BadDifficulty => known && !rules.difficultyOk(header, Path(byHash, genesis, byHash[header.prevBlock]))
    }

    /** A header is admissible if and only if it has none of these faults. */
    lemma {:induction false} AdmissibleIff(header: Header, now: nat)
      requires Valid()
      ensures Admissible(header, now) <==> forall error :: !Violates(error, header, now)
    {
      hide Path, IsTree, AllTimely, CacheSound, NoChild, MedianPast, Indexed;
      if forall error :: !Violates(error, header, now) {
        assert !Violates(Orphan, header, now) && !Violates(Duplicate, header, now) && !Violates(BadProof, header, now);
        assert !Violates(InsufficientWork, header, now) && !Violates(TimeTooNew, header, now);
        assert !Violates(TimeTooOld, header, now) && !Violates(BadDifficulty, header, now);
      }
    }

    /** The checks that precede the index update, in order. */
    method CheckHeader(header: Header, now: nat) returns (r: Result<Entry, HeaderError>)
      requires Valid()
      ensures r.Ok? <==> Admissible(header, now)
      ensures r.Err? ==> Violates(r.error, header, now)
      ensures r.Ok? ==> r.value == EntryOf(header, rules.proofHash(header).value, byHash[header.prevBlock])
    {
      hide Path, IsTree, AllTimely, CacheSound, NoChild, MedianPast;
      if header.prevBlock !in byHash {
        return Err(Orphan);
      }
      var prev := byHash[header.prevBlock];
      if LooksKnown(header, prev.height + 1) {
        return Err(Duplicate);
      }
      var proved := rules.proofHash(header);
      if proved == None {
        return Err(BadProof);
      }
      var hash := proved.value;
      if hash in byHash {
        return Err(Duplicate);
      }
      if !rules.meetsTarget(header, hash) {
        return Err(InsufficientWork);
      }
      if header.time > now + rules.maxFuture {
        return Err(TimeTooNew);
      }
      InTree(byHash, genesis, header.prevBlock);
      var median := MedianTimePast(prev);
      if header.time <= median {
        return Err(TimeTooOld);
      }
      if !rules.difficultyOk(header, Path(byHash, genesis, prev)) {
        return Err(BadDifficulty);
      }
      return Ok(EntryOf(header, hash, prev));
    }

    /**
     * Adds an admissible header. The best chain moves to it exactly when it has more work than the
     * tip, however deep the two paths part.
     */
    method Add(header: Header, now: nat) returns (r: Result<Entry, HeaderError>)
      requires Valid()
      modifies `byHash, `byHeight, `tip, `stateCache
      ensures Valid()
      ensures r.Ok? <==> old(Admissible(header, now))
      ensures r.Ok? <==> forall error :: !old(Violates(error, header, now))
      ensures r.Err? ==> old(Violates(r.error, header, now)) && unchanged(this)
      ensures r.Ok? ==> var e := r.value;
        && e == EntryOf(header, rules.proofHash(header).value, old(byHash)[header.prevBlock])
        && byHash == old(byHash)[e.hash := e]
        && tip == if e.work > old(tip).work then e else old(tip)
      ensures old(MostWork(byHash, tip)) ==> MostWork(byHash, tip)
    {
      hide Path, IsTree, AllTimely, CacheSound, NoChild, Indexed, MedianPast, LooksKnown, Violates;
      AdmissibleIff(header, now);
      r := CheckHeader(header, now);
      if r.Err? {
        return;
      }
      var entry := r.value;
      ghost var before := byHash;
      InTree(byHash, genesis, header.prevBlock);
      Inserted(byHash, genesis, entry, rules, stateCache);
      KeepPath(before, genesis, entry, tip);
      byHash := byHash[entry.hash := entry];
      if entry.work > tip.work {
        if entry.header.prevBlock == tip.hash {
          ExtendIndex(before, genesis, entry, tip);
          tip := entry;
          byHeight := byHeight[entry.height := entry];
        } else {
          var ok := Reorganize(entry);
          CacheCleared(byHash, genesis, rules);
          tip := entry;
        }
      } else {
        NotTipChild(before, tip, entry);
      }
    }

    /** Drops everything above a stored height; what was at that height becomes the tip. */
    method ResetToStoredHeight(target: int)
      requires Valid()
      modifies `byHash, `byHeight, `tip, `stateCache
      ensures Valid()
      ensures !(0 <= target < old(tip).height) ==> unchanged(this)
      ensures 0 <= target < old(tip).height ==>
        && tip == Path(old(byHash), genesis, old(tip))[target]
        && byHash == (map h | h in old(byHash) && old(byHash)[h].height <= target :: old(byHash)[h])
    {
      hide Path, IsTree, AllTimely, CacheSound, NoChild, Indexed, Kept;
      if target < 0 || target >= tip.height {
        return;
      }
      ghost var before, p := byHash, Path(byHash, genesis, tip);
      InIndex(p, target);
      if target !in byHeight {
        return;
      }
      var entry := byHeight[target];
      var h := target + 1;
      KeptAll(p, h);
      while h <= tip.height
        invariant target + 1 <= h <= tip.height + 1 && byHeight == Kept(p, target + 1, h)
        invariant byHash == before && tip == old(tip)
      {
        KeptStep(p, target + 1, h);
        byHeight := byHeight - {h};
        h := h + 1;
      }
      Truncated(before, genesis, tip, target, rules);
      byHash := map h | h in byHash && byHash[h].height <= target :: byHash[h];
      stateCache := map[];
      tip := entry;
    }

    // ---- Deployment states ----

    function Cached(bit: nat, h: Hash): Option<ThresholdState>
      reads `stateCache
    {
      if bit in stateCache && h in stateCache[bit] then Some(stateCache[bit][h]) else None
    }

    /** Files a state; the cache stays sound if the state is right. */
    method Remember(bit: nat, e: Entry, state: ThresholdState)
      requires IsTree(byHash, genesis) && rules.windows.Proper()
      requires CacheSound(stateCache, byHash, genesis, rules)
      requires StateSound(byHash, genesis, rules, bit, e.hash, state)
      modifies `stateCache
      ensures CacheSound(stateCache, byHash, genesis, rules) && Cached(bit, e.hash) == Some(state)
    {
      var states := if bit in stateCache then stateCache[bit] else map[];
      stateCache := stateCache[bit := states[e.hash := state]];
    }

    /** How many of the last `n` blocks up to `e` signal `bit`, counted through parents. */
    method CountSignals(e: Entry, n: nat, bit: nat) returns (count: nat)
      requires IsTree(byHash, genesis) && Has(byHash, e)
      ensures count == Signals(Path(byHash, genesis, e), n, bit)
    {
      count := 0;
      var scan, i := Some(e), 0;
      while i < n && scan.Some?
        invariant 0 <= i <= n
        invariant scan.Some? ==> Has(byHash, scan.value)
        invariant Signals(Path(byHash, genesis, e), n, bit)
               == count + if scan.Some? then Signals(Path(byHash, genesis, scan.value), n - i, bit) else 0
        decreases n - i
      {
        var s := scan.value;
        SignalsStep(byHash, genesis, s, n - i, bit);
        if BitAt(s.header.version, bit) != 0 {
          count := count + 1;
        }
        scan := if s.height > 0 && s.header.prevBlock in byHash then Some(byHash[s.header.prevBlock]) else None;
        i := i + 1;
      }
    }

    /**
     * Walks back window by window until a state is cached or evidently DEFINED, and returns that
     * boundary with those still to be computed.
     */
    method FindKnown(boundary: Entry, bit: nat) returns (known: Entry, compute: seq<Entry>)
      requires Valid() && bit in rules.deployments && OnPath(byHash, Path(byHash, genesis, tip), boundary)
      requires Whole(boundary.height + 1, rules.windows.size)
      modifies `stateCache
      ensures Valid() && Cached(bit, known.hash).Some?
      ensures Pending(byHash, genesis, tip, rules, bit, boundary, known, compute)
    {
      hide Path, IsTree, AllTimely, CacheSound, NoChild, Indexed, MedianPast, StateSound, Pending, Whole;
      var d, w := rules.deployments[bit], rules.windows;
      known, compute := boundary, [];
      StartPending(byHash, genesis, tip, rules, bit, boundary);
      while true
        invariant Valid()
        invariant Pending(byHash, genesis, tip, rules, bit, boundary, known, compute)
        decreases known.height
      {
        if Cached(bit, known.hash).Some? {
          return;
        }
        DefinedIsRight(byHash, genesis, tip, rules, bit, boundary, known, compute);
        if known.height == 0 {
          Remember(bit, known, Defined);
          return;
        }
        var median := MedianTimePast(known);
        if median < d.startTime {
          Remember(bit, known, Defined);
          return;
        }
        if known.height < w.size {
          Remember(bit, known, Defined);
          return;
        }
        InIndex(Path(byHash, genesis, tip), known.height - w.size);
        WindowBack(byHash, genesis, tip, rules, bit, boundary, known, compute);
        compute := compute + [known];
        known := byHeight[known.height - w.size];
      }
    }

    /** One transition, made from the median time and, while STARTED, the signals of the window. */
    method NextState(was: ThresholdState, current: Entry, bit: nat) returns (state: ThresholdState)
      requires IsTree(byHash, genesis) && Has(byHash, current) && rules.windows.Proper() && bit in rules.deployments
      ensures state == Transition(was, Path(byHash, genesis, current), bit, rules.deployments[bit], rules.windows)
    {
      hide Path, IsTree, MedianPast, Signals;
      var d := rules.deployments[bit];
      var median := MedianTimePast(current);
      state := was;
      match was {
        case Defined =>
          if median >= d.timeout {
            state := Failed;
          } else if median >= d.startTime {
            state := Started;
          }
        case Started =>
          if median >= d.timeout {
            state := Failed;
          } else {
            var count := CountSignals(current, rules.windows.size, bit);
            if count >= rules.windows.threshold {
              state := LockedIn;
            }
          }
        case LockedIn =>
          state := Active;
        case Active =>
        case Failed =>
      }
    }

    /** The deployment state for the block after `prev`, as the node defines it, cached or not. */
    method GetDeploymentState(prev: Entry, bit: nat) returns (state: ThresholdState)
      requires Valid() && bit in rules.deployments
      modifies `stateCache
      ensures Valid()
      ensures state == StateAfter(Path(byHash, genesis, tip), prev.height, bit, rules)
    {
      hide Path, IsTree, AllTimely, CacheSound, NoChild, Indexed, StateSound, Pending, Whole, WholeWindows, StateAfter,
        Transition;
      var d, w := rules.deployments[bit], rules.windows;
      ghost var p := Path(byHash, genesis, tip);
      var boundaryHeight := WholeWindows(prev.height + 1, w.size) - 1;
      if boundaryHeight < 0 {
        NoBoundary(p, prev.height, bit, rules);
        return Defined;
      }
      InIndex(p, boundaryHeight);
      if boundaryHeight !in byHeight {
        NoBoundary(p, prev.height, bit, rules);
        return Defined;
      }
      var boundary := byHeight[boundaryHeight];
      BoundaryPath(byHash, genesis, tip, boundaryHeight);
      if Cached(bit, boundary.hash).Some? {
        CachedState(stateCache, byHash, genesis, rules, bit, boundary.hash);
        StateMeaning(byHash, genesis, tip, rules, bit, boundary, Cached(bit, boundary.hash).value, prev.height);
        return Cached(bit, boundary.hash).value;
      }
      var known, compute := FindKnown(boundary, bit);
      state := Cached(bit, known.hash).value;
      ghost var at := known;
      CachedState(stateCache, byHash, genesis, rules, bit, known.hash);
      while compute != []
        invariant Valid() && Pending(byHash, genesis, tip, rules, bit, boundary, at, compute)
        invariant StateSound(byHash, genesis, rules, bit, at.hash, state)
        decreases |compute|
      {
        var current := compute[|compute| - 1];
        StateAdvances(byHash, genesis, tip, rules, bit, boundary, at, compute, state);
        compute := compute[..|compute| - 1];
        state := NextState(state, current, bit);
        at := current;
        Remember(bit, current, state);
      }
      EndPending(byHash, genesis, tip, rules, bit, boundary, at);
      StateMeaning(byHash, genesis, tip, rules, bit, boundary, state, prev.height);
    }
  }

  // ---- Lemmas about the index ----

  /** `e` is the entry of the path at its height. */
  ghost predicate OnPath(m: Index, p: seq<Entry>, e: Entry) {
    Has(m, e) && e.height < |p| && p[e.height] == e
  }

  lemma {:induction false} NewestNext(m: Index, genesis: Entry, e: Entry)
    requires IsTree(m, genesis) && Has(m, e)
    ensures e.height == 0 ==> NewestFirst(Path(m, genesis, e)) == [e.header.time]
    ensures e.height > 0 ==> e.header.prevBlock in m && Has(m, m[e.header.prevBlock])
    ensures e.height > 0 ==> m[e.header.prevBlock].height + 1 == e.height
    ensures e.height > 0 ==>
      NewestFirst(Path(m, genesis, e)) == [e.header.time] + NewestFirst(Path(m, genesis, m[e.header.prevBlock]))
  {
    var p := Path(m, genesis, e);
    if e.height > 0 {
      assert p[..|p| - 1] == Path(m, genesis, m[e.header.prevBlock]);
    } else {
      assert p[..0] == [];
    }
  }

  lemma {:induction false} Regroup(all: seq<nat>, t: seq<nat>, x: nat, rest: seq<nat>)
    requires all == t + rest && rest != [] && rest[0] == x
    ensures all == t + [x] + rest[1..] && all[..|t| + 1] == t + [x]
  {
  }

  lemma {:induction false} DifferAboveTop(p: seq<Entry>, q: seq<Entry>, a: nat, b: nat)
    requires |p| == a + 1 && |q| == b + 1
    ensures DifferAbove(p, q, if a > b then b else a)
  {
  }

  /** Two different entries of two paths: the one to step back from is not genesis. */
  lemma {:induction false} Apart(m: Index, genesis: Entry, p: seq<Entry>, q: seq<Entry>, a: Entry, b: Entry)
    requires IsTree(m, genesis) && OnPath(m, p, a) && OnPath(m, q, b) && a.hash != b.hash
    requires DifferAbove(p, q, if a.height > b.height then b.height else a.height)
    ensures a.height > b.height ==> a.header.prevBlock in m
    ensures a.height <= b.height ==> b.height > 0 && b.header.prevBlock in m
    ensures a.height == b.height ==> DifferAbove(p, q, b.height - 1)
  {
  }

  lemma {:induction false} MedianOfPrefix(t: seq<nat>, span: nat)
    requires span > 0
    ensures MedianTime.Compute(t[..Min(span, |t|)], span) == MedianTime.Compute(t, span)
  {
    var cut := t[..Min(span, |t|)];
    assert cut[..|cut|] == cut;
  }

  lemma {:induction false} StepBack(m: Index, genesis: Entry, top: Entry, e: Entry)
    requires IsTree(m, genesis) && Has(m, top) && OnPath(m, Path(m, genesis, top), e)
    requires e.header.prevBlock in m
    ensures e.height > 0 ==> OnPath(m, Path(m, genesis, top), m[e.header.prevBlock]) && m[e.header.prevBlock].height + 1 == e.height
    ensures e.height == 0 ==> e == genesis
  {
    if e.height > 0 {
      PathPrefix(m, genesis, top, e.height);
      var parent := m[e.header.prevBlock];
      assert Path(m, genesis, e)[parent.height] == parent;
    }
  }

  lemma {:induction false} InTree(m: Index, genesis: Entry, h: Hash)
    requires IsTree(m, genesis) && h in m
    ensures Has(m, m[h])
  {
  }

  // ---- Reorganizing ----

  /** The height index of a path with a range of heights taken out. */
  function Kept(p: seq<Entry>, from: nat, to: nat): map<nat, Entry> {
    map k: nat | k < |p| && !(from <= k < to) :: p[k]
  }

  /** Up to `f` as in `p`, and the topmost `i` entries as in `q`. */
  function Patched(p: seq<Entry>, f: nat, q: seq<Entry>, i: nat): map<nat, Entry> {
    map k: nat | k < |q| && ((k <= f && k < |p|) || (k > f && k + i >= |q|)) :: if k <= f then p[k] else q[k]
  }

  lemma {:induction false} KeptAll(p: seq<Entry>, from: nat)
    ensures Kept(p, from, from) == Indexed(p)
  {
  }

  lemma {:induction false} KeptStep(p: seq<Entry>, from: nat, to: nat)
    requires from <= to
    ensures Kept(p, from, to + 1) == Kept(p, from, to) - {to}
  {
  }

  lemma {:induction false} StartPatching(p: seq<Entry>, q: seq<Entry>, f: nat)
    requires f < |p| && f < |q|
    ensures Patched(p, f, q, 0) == Kept(p, f + 1, |p|)
  {
  }

  lemma {:induction false} PatchStep(m: Index, genesis: Entry, e: Entry, p: seq<Entry>, f: nat, i: nat)
    requires IsTree(m, genesis) && Has(m, e) && f < |p| && f + i < e.height
    ensures var q := Path(m, genesis, e);
      q[e.height - i].height == e.height - i
      && Patched(p, f, q, i + 1) == Patched(p, f, q, i)[e.height - i := q[e.height - i]]
  {
    hide Path, IsTree;
    PathPrefix(m, genesis, e, e.height - i);
    PatchMore(p, f, Path(m, genesis, e), i);
  }

  lemma {:induction false} PatchMore(p: seq<Entry>, f: nat, q: seq<Entry>, i: nat)
    requires f < |p| && f + i + 1 < |q|
    ensures var k := |q| - 1 - i;
      Patched(p, f, q, i + 1) == Patched(p, f, q, i)[k := q[k]]
  {
  }

  lemma {:induction false} PatchedAll(p: seq<Entry>, q: seq<Entry>, f: Entry, i: nat)
    requires f.height < |p| && f.height < |q| && i + f.height + 1 == |q| && p[..f.height + 1] == q[..f.height + 1]
    ensures Patched(p, f.height, q, i) == Indexed(q)
  {
    forall k: nat | k <= f.height
      ensures p[k] == q[k]
    {
      assert p[k] == p[..f.height + 1][k] && q[k] == q[..f.height + 1][k];
    }
  }

  /** A tip without children is no ancestor of another entry: the fork is strictly below it. */
  lemma {:induction false} ForkBelowTip(m: Index, genesis: Entry, tip: Entry, e: Entry, fork: Entry)
    requires IsTree(m, genesis) && Has(m, tip) && Has(m, e) && e != tip && NoChild(m, genesis, tip)
    requires IsFork(Path(m, genesis, tip), Path(m, genesis, e), fork)
    ensures fork.height < tip.height && fork.height <= e.height && OnPath(m, Path(m, genesis, e), e)
    ensures var p, q, n := Path(m, genesis, tip), Path(m, genesis, e), fork.height + 1;
      n <= |p| && n <= |q| && p[..n] == q[..n]
  {
    hide IsTree, NoChild, DifferAbove, Path;
    PathPrefix(m, genesis, tip, fork.height);
    PathPrefix(m, genesis, e, fork.height);
    if fork.height == tip.height {
      NoDescendant(m, genesis, tip, e);
    }
  }

  lemma {:induction false} NoDescendant(m: Index, genesis: Entry, tip: Entry, e: Entry)
    requires IsTree(m, genesis) && Has(m, tip) && Has(m, e) && NoChild(m, genesis, tip)
    requires tip.height <= e.height && Path(m, genesis, e)[tip.height] == tip
    ensures e == tip
  {
    if tip.height < e.height {
      var h := tip.height + 1;
      PathLink(m, genesis, e, h);
      PathPrefix(m, genesis, e, h);
    }
  }

  lemma {:induction false} Climb(m: Index, genesis: Entry, e: Entry)
    requires IsTree(m, genesis) && Has(m, e) && e.height > 0
    ensures e.header.prevBlock in m
  {
  }

  // ---- Adding ----

  /** What inserting an admissible entry keeps. */
  lemma {:induction false} Inserted(m: Index, genesis: Entry, e: Entry, rules: Rules, cache: Cache)
    requires rules.windows.Proper() && IsTree(m, genesis) && AllTimely(m, genesis, rules.windows.span)
    requires CacheSound(cache, m, genesis, rules) && e.hash !in m && Extends(m, e)
    requires Has(m, m[e.header.prevBlock])
    requires e.header.time > MedianPast(Path(m, genesis, m[e.header.prevBlock]), rules.windows.span)
    ensures var n := m[e.hash := e];
      && IsTree(n, genesis) && Has(n, e) && AllTimely(n, genesis, rules.windows.span)
      && CacheSound(cache, n, genesis, rules) && NoChild(n, genesis, e)
  {
    hide IsTree, AllTimely, CacheSound, Extends, MedianPast, NoChild;
    InsertTree(m, genesis, e);
    InsertTimely(m, genesis, e, rules.windows.span);
    InsertCache(m, genesis, e, rules, cache);
  }

  lemma {:induction false} InsertCache(m: Index, genesis: Entry, e: Entry, rules: Rules, cache: Cache)
    requires rules.windows.Proper() && IsTree(m, genesis) && IsTree(m[e.hash := e], genesis)
    requires CacheSound(cache, m, genesis, rules) && e.hash !in m
    ensures CacheSound(cache, m[e.hash := e], genesis, rules)
  {
    hide StateSound;
    forall bit, h | bit in cache && h in cache[bit]
      ensures StateSound(m[e.hash := e], genesis, rules, bit, h, cache[bit][h])
    {
      StateStays(m, genesis, e, rules, bit, h, cache[bit][h]);
    }
  }

  lemma {:induction false} StateStays(m: Index, genesis: Entry, e: Entry, rules: Rules, bit: nat, h: Hash, state: ThresholdState)
    requires rules.windows.Proper() && IsTree(m, genesis) && IsTree(m[e.hash := e], genesis) && e.hash !in m
    requires StateSound(m, genesis, rules, bit, h, state)
    ensures StateSound(m[e.hash := e], genesis, rules, bit, h, state)
  {
    PathStable(m, m[e.hash := e], genesis, m[h]);
  }

  lemma {:induction false} InsertTree(m: Index, genesis: Entry, e: Entry)
    requires IsTree(m, genesis) && e.hash !in m && Extends(m, e)
    ensures var n := m[e.hash := e]; IsTree(n, genesis) && Has(n, e) && NoChild(n, genesis, e)
    ensures e != genesis
  {
  }

  lemma {:induction false} InsertTimely(m: Index, genesis: Entry, e: Entry, span: nat)
    requires span > 0 && IsTree(m, genesis) && AllTimely(m, genesis, span) && e.hash !in m && Extends(m, e)
    requires Has(m, m[e.header.prevBlock]) && e.header.time > MedianPast(Path(m, genesis, m[e.header.prevBlock]), span)
    requires IsTree(m[e.hash := e], genesis)
    ensures AllTimely(m[e.hash := e], genesis, span)
  {
    hide MedianPast;
    var n := m[e.hash := e];
    var parent := m[e.header.prevBlock];
    forall h | h in n
      ensures Timely(Path(n, genesis, n[h]), span)
    {
      if h == e.hash {
        PathStable(m, n, genesis, parent);
        TimelyMore(Path(m, genesis, parent), e, span);
      } else {
        PathStable(m, n, genesis, m[h]);
      }
    }
  }

  lemma {:induction false} TimelyMore(p: seq<Entry>, e: Entry, span: nat)
    requires span > 0 && Timely(p, span) && e.header.time > MedianPast(p, span)
    ensures Timely(p + [e], span)
  {
    hide MedianPast;
    var q := p + [e];
    forall i {:trigger q[..i]} | 0 < i < |q|
      ensures q[i].header.time > MedianPast(q[..i], span)
    {
      if i < |p| {
        assert q[..i] == p[..i];
      } else {
        assert q[..i] == p;
      }
    }
  }

  lemma {:induction false} KeepPath(m: Index, genesis: Entry, e: Entry, tip: Entry)
    requires IsTree(m, genesis) && IsTree(m[e.hash := e], genesis) && Has(m, tip) && e.hash !in m
    requires NoChild(m, genesis, tip)
    ensures var n := m[e.hash := e];
      && Has(n, tip) && Path(n, genesis, tip) == Path(m, genesis, tip)
      && (e.header.prevBlock != tip.hash ==> NoChild(n, genesis, tip))
  {
    PathStable(m, m[e.hash := e], genesis, tip);
  }

  lemma {:induction false} ExtendIndex(m: Index, genesis: Entry, e: Entry, tip: Entry)
    requires IsTree(m, genesis) && IsTree(m[e.hash := e], genesis) && Has(m, tip) && e.hash !in m
    requires e.header.prevBlock == tip.hash && e.height == tip.height + 1
    ensures Has(m[e.hash := e], e)
    ensures Indexed(Path(m[e.hash := e], genesis, e)) == Indexed(Path(m, genesis, tip))[e.height := e]
  {
    var n := m[e.hash := e];
    PathStable(m, n, genesis, tip);
    IndexMore(Path(m, genesis, tip), e);
  }

  lemma {:induction false} IndexMore(p: seq<Entry>, e: Entry)
    requires e.height == |p|
    ensures Indexed(p + [e]) == Indexed(p)[e.height := e]
  {
  }

  lemma {:induction false} CacheCleared(m: Index, genesis: Entry, rules: Rules)
    requires IsTree(m, genesis) && rules.windows.Proper()
    ensures CacheSound(map[], m, genesis, rules)
  {
  }

  lemma {:induction false} NotTipChild(m: Index, tip: Entry, e: Entry)
    requires Has(m, tip) && e.header.prevBlock in m && m[e.header.prevBlock].work < e.work <= tip.work
    ensures e.header.prevBlock != tip.hash
  {
  }

  // ---- Resetting ----

  lemma {:induction false} InIndex(p: seq<Entry>, h: nat)
    ensures h in Indexed(p) <==> h < |p|
    ensures h < |p| ==> Indexed(p)[h] == p[h]
  {
  }

  /** Cutting the tree at a height leaves a tree, in which the entry there is a leaf. */
  lemma {:induction false} Truncated(m: Index, genesis: Entry, tip: Entry, target: nat, rules: Rules)
    requires rules.windows.Proper() && IsTree(m, genesis) && Has(m, tip) && target < tip.height
    requires AllTimely(m, genesis, rules.windows.span)
    ensures var n, e, p := map h | h in m && m[h].height <= target :: m[h], Path(m, genesis, tip)[target], Path(m, genesis, tip);
      && IsTree(n, genesis) && Has(n, e) && AllTimely(n, genesis, rules.windows.span)
      && Kept(p, target + 1, |p|) == Indexed(Path(n, genesis, e))
      && NoChild(n, genesis, e) && CacheSound(map[], n, genesis, rules)
  {
    hide Timely;
    var n, e, p := map h | h in m && m[h].height <= target :: m[h], Path(m, genesis, tip)[target], Path(m, genesis, tip);
    PathPrefix(m, genesis, tip, target);
    CutTree(m, genesis, target, e);
    PathStable(m, n, genesis, e);
    forall h | h in n
      ensures Timely(Path(n, genesis, n[h]), rules.windows.span)
    {
      PathStable(m, n, genesis, n[h]);
    }
  }

  lemma {:induction false} CutTree(m: Index, genesis: Entry, target: nat, e: Entry)
    requires IsTree(m, genesis) && Has(m, e) && e.height == target
    ensures var n := map h | h in m && m[h].height <= target :: m[h];
      IsTree(n, genesis) && Has(n, e) && NoChild(n, genesis, e)
  {
  }

  // ---- Deployment states ----

  lemma {:induction false} SignalsStep(m: Index, genesis: Entry, e: Entry, n: nat, bit: nat)
    requires IsTree(m, genesis) && Has(m, e) && n > 0
    ensures e.height > 0 ==> e.header.prevBlock in m && Has(m, m[e.header.prevBlock])
    ensures Signals(Path(m, genesis, e), n, bit)
         == BitAt(e.header.version, bit)
            + if e.height > 0 then Signals(Path(m, genesis, m[e.header.prevBlock]), n - 1, bit) else 0
  {
    var p := Path(m, genesis, e);
    if e.height > 0 {
      assert p[..|p| - 1] == Path(m, genesis, m[e.header.prevBlock]);
    } else {
      assert p[..0] == [];
    }
  }

  /** The state of `e` has to be computed from the boundary one window before it. */
  ghost predicate MoreToDo(m: Index, genesis: Entry, rules: Rules, bit: nat, e: Entry)
    requires IsTree(m, genesis) && rules.windows.Proper() && bit in rules.deployments
  {
    && Has(m, e) && e.height > 0 && e.height >= rules.windows.size
    && Whole(e.height + 1, rules.windows.size)
    && MedianPast(Path(m, genesis, e), rules.windows.span) >= rules.deployments[bit].startTime
  }

  /** The boundary one window below `compute[i]`. */
  function Below(compute: seq<Entry>, known: Entry, i: nat): Entry {
    if i + 1 < |compute| then compute[i + 1] else known
  }

  predicate Spaced(compute: seq<Entry>, known: Entry, size: nat) {
    forall i :: 0 <= i < |compute| ==> compute[i].height == Below(compute, known, i).height + size
  }

  lemma {:induction false} SpacedMore(compute: seq<Entry>, e: Entry, before: Entry, size: nat)
    requires Spaced(compute, e, size) && before.height + size == e.height
    ensures Spaced(compute + [e], before, size)
  {
    var more := compute + [e];
    forall i | 0 <= i < |more|
      ensures more[i].height == Below(more, before, i).height + size
    {
      if i < |compute| {
        assert more[i] == compute[i];
        assert Below(more, before, i) == Below(compute, e, i);
      }
    }
  }

  lemma {:induction false} SpacedLess(compute: seq<Entry>, known: Entry, size: nat)
    requires compute != [] && Spaced(compute, known, size)
    ensures Spaced(compute[..|compute| - 1], compute[|compute| - 1], size)
    ensures compute[|compute| - 1].height == known.height + size
  {
    var last, fewer := compute[|compute| - 1], compute[..|compute| - 1];
    assert Below(compute, known, |compute| - 1) == known;
    forall i | 0 <= i < |fewer|
      ensures fewer[i].height == Below(fewer, last, i).height + size
    {
      assert fewer[i] == compute[i];
      assert Below(fewer, last, i) == Below(compute, known, i);
    }
  }

  /** `compute` lists boundaries of the best chain, one window apart, from `boundary` down to above `known`. */
  ghost predicate Pending(m: Index, genesis: Entry, tip: Entry, rules: Rules, bit: nat, boundary: Entry, known: Entry,
                          compute: seq<Entry>)
    requires IsTree(m, genesis) && Has(m, tip) && rules.windows.Proper() && bit in rules.deployments
  {
    && OnPath(m, Path(m, genesis, tip), known) && Whole(known.height + 1, rules.windows.size)
    && (forall e :: e in compute ==> OnPath(m, Path(m, genesis, tip), e) && MoreToDo(m, genesis, rules, bit, e))
    && Spaced(compute, known, rules.windows.size)
    && (if compute == [] then known == boundary else compute[0] == boundary)
  }

  /** The state after height `h` on a best chain `p`: decided at the last window boundary not above `h`. */
  function StateAfter(p: seq<Entry>, h: nat, bit: nat, rules: Rules): ThresholdState
    requires rules.windows.Proper() && bit in rules.deployments
  {
    var n := WholeWindows(h + 1, rules.windows.size);
    if n == 0 || n > |p| then Defined else NodeState(p[..n], bit, rules.deployments[bit], rules.windows)
  }

  lemma {:induction false} NoBoundary(p: seq<Entry>, h: nat, bit: nat, rules: Rules)
    requires rules.windows.Proper() && bit in rules.deployments
    requires var n := WholeWindows(h + 1, rules.windows.size); n == 0 || n > |p|
    ensures StateAfter(p, h, bit, rules) == Defined
  {
  }

  lemma {:induction false} BoundaryPath(m: Index, genesis: Entry, tip: Entry, h: nat)
    requires IsTree(m, genesis) && Has(m, tip) && h <= tip.height
    ensures var p := Path(m, genesis, tip);
      OnPath(m, p, p[h]) && Path(m, genesis, p[h]) == p[..h + 1] && p[h].height == h
  {
    hide Path;
    PathPrefix(m, genesis, tip, h);
  }

  lemma {:induction false} CachedState(cache: Cache, m: Index, genesis: Entry, rules: Rules, bit: nat, h: Hash)
    requires IsTree(m, genesis) && rules.windows.Proper() && CacheSound(cache, m, genesis, rules)
    requires bit in cache && h in cache[bit]
    ensures StateSound(m, genesis, rules, bit, h, cache[bit][h])
  {
    hide StateSound, IsTree;
  }

  /** A sound state of the last boundary not above `h` is the state asked for. */
  lemma {:induction false} StateMeaning(m: Index, genesis: Entry, tip: Entry, rules: Rules, bit: nat, e: Entry, state: ThresholdState, h: nat)
    requires IsTree(m, genesis) && Has(m, tip) && rules.windows.Proper() && bit in rules.deployments
    requires OnPath(m, Path(m, genesis, tip), e) && e.height + 1 == WholeWindows(h + 1, rules.windows.size)
    requires StateSound(m, genesis, rules, bit, e.hash, state)
    ensures state == StateAfter(Path(m, genesis, tip), h, bit, rules)
  {
    hide Path, NodeState, IsTree, WholeWindows, Whole;
    BoundaryPath(m, genesis, tip, e.height);
  }

  lemma {:induction false} StartPending(m: Index, genesis: Entry, tip: Entry, rules: Rules, bit: nat, boundary: Entry)
    requires IsTree(m, genesis) && Has(m, tip) && rules.windows.Proper() && bit in rules.deployments
    requires OnPath(m, Path(m, genesis, tip), boundary) && Whole(boundary.height + 1, rules.windows.size)
    ensures Pending(m, genesis, tip, rules, bit, boundary, boundary, [])
  {
  }

  lemma {:induction false} EndPending(m: Index, genesis: Entry, tip: Entry, rules: Rules, bit: nat, boundary: Entry, at: Entry)
    requires IsTree(m, genesis) && Has(m, tip) && rules.windows.Proper() && bit in rules.deployments
    requires Pending(m, genesis, tip, rules, bit, boundary, at, [])
    ensures at == boundary
  {
  }

  /** The three exits: genesis, before the start time, in the first window. */
  lemma {:induction false} DefinedIsRight(m: Index, genesis: Entry, tip: Entry, rules: Rules, bit: nat, boundary: Entry, e: Entry,
                       compute: seq<Entry>)
    requires IsTree(m, genesis) && Has(m, tip) && rules.windows.Proper() && bit in rules.deployments
    requires Pending(m, genesis, tip, rules, bit, boundary, e, compute)
    ensures Has(m, e)
    ensures
      e.height == 0 || e.height < rules.windows.size
      || MedianPast(Path(m, genesis, e), rules.windows.span) < rules.deployments[bit].startTime
      ==> StateSound(m, genesis, rules, bit, e.hash, Defined)
  {
    hide Path, MedianPast, IsTree, Whole, NodeState, Pending;
    PendingKnown(m, genesis, tip, rules, bit, boundary, e, compute);
    EarlyDefined(Path(m, genesis, e), bit, rules.deployments[bit], rules.windows);
  }

  lemma {:induction false} PendingKnown(m: Index, genesis: Entry, tip: Entry, rules: Rules, bit: nat, boundary: Entry, e: Entry,
                     compute: seq<Entry>)
    requires IsTree(m, genesis) && Has(m, tip) && rules.windows.Proper() && bit in rules.deployments
    requires Pending(m, genesis, tip, rules, bit, boundary, e, compute)
    ensures OnPath(m, Path(m, genesis, tip), e) && Whole(e.height + 1, rules.windows.size)
  {
  }

  lemma {:induction false} EarlyDefined(p: seq<Entry>, bit: nat, d: Deployment, w: Windows)
    requires w.Proper() && Whole(|p|, w.size) && p != []
    ensures |p| == 1 || |p| <= w.size || MedianPast(p, w.span) < d.startTime ==> NodeState(p, bit, d, w) == Defined
  {
  }

  /** Stepping back one window adds the present boundary to those to be computed. */
  lemma {:induction false} WindowBack(m: Index, genesis: Entry, tip: Entry, rules: Rules, bit: nat, boundary: Entry, e: Entry,
                   compute: seq<Entry>)
    requires IsTree(m, genesis) && Has(m, tip) && rules.windows.Proper() && bit in rules.deployments
    requires Pending(m, genesis, tip, rules, bit, boundary, e, compute)
    requires e.height > 0 && e.height >= rules.windows.size
    requires MedianPast(Path(m, genesis, e), rules.windows.span) >= rules.deployments[bit].startTime
    ensures e.height - rules.windows.size < |Path(m, genesis, tip)|
    ensures var before := Path(m, genesis, tip)[e.height - rules.windows.size];
      before.height < e.height && Pending(m, genesis, tip, rules, bit, boundary, before, compute + [e])
  {
    hide Path, MedianPast, IsTree, Whole, Pending;
    PendingKnown(m, genesis, tip, rules, bit, boundary, e, compute);
    LengthOfWindows(e.height + 1, rules.windows.size);
    BoundaryPath(m, genesis, tip, e.height - rules.windows.size);
    PendingMore(m, genesis, tip, rules, bit, boundary, e, compute, Path(m, genesis, tip)[e.height - rules.windows.size]);
  }

  lemma {:induction false} PendingMore(m: Index, genesis: Entry, tip: Entry, rules: Rules, bit: nat, boundary: Entry, e: Entry,
                    compute: seq<Entry>, before: Entry)
    requires IsTree(m, genesis) && Has(m, tip) && rules.windows.Proper() && bit in rules.deployments
    requires Pending(m, genesis, tip, rules, bit, boundary, e, compute) && MoreToDo(m, genesis, rules, bit, e)
    requires OnPath(m, Path(m, genesis, tip), before) && Whole(before.height + 1, rules.windows.size)
    requires before.height + rules.windows.size == e.height
    ensures Pending(m, genesis, tip, rules, bit, boundary, before, compute + [e])
  {
    hide Path, IsTree, Whole, MoreToDo, Spaced;
    assert OnPath(m, Path(m, genesis, tip), e);
    hide OnPath;
    SpacedMore(compute, e, before, rules.windows.size);
  }

  /** One transition takes the state below `compute` to the state of its last boundary. */
  lemma {:induction false} StateAdvances(m: Index, genesis: Entry, tip: Entry, rules: Rules, bit: nat, boundary: Entry, at: Entry,
                      compute: seq<Entry>, state: ThresholdState)
    requires IsTree(m, genesis) && Has(m, tip) && rules.windows.Proper() && bit in rules.deployments && compute != []
    requires Pending(m, genesis, tip, rules, bit, boundary, at, compute)
    requires StateSound(m, genesis, rules, bit, at.hash, state)
    ensures var last := compute[|compute| - 1];
      && Pending(m, genesis, tip, rules, bit, boundary, last, compute[..|compute| - 1]) && Has(m, last)
      && StateSound(m, genesis, rules, bit, last.hash,
                    Transition(state, Path(m, genesis, last), bit, rules.deployments[bit], rules.windows))
  {
    hide Path, MedianPast, Transition, NodeState, IsTree, Whole, Pending;
    var last := compute[|compute| - 1];
    PendingLast(m, genesis, tip, rules, bit, boundary, at, compute);
    BoundaryPath(m, genesis, tip, last.height);
    BoundaryPath(m, genesis, tip, at.height);
    var p := Path(m, genesis, last);
    assert Path(m, genesis, at) == p[..|p| - rules.windows.size];
    NextIsTransition(p, bit, rules.deployments[bit], rules.windows);
    PendingLess(m, genesis, tip, rules, bit, boundary, at, compute);
  }

  lemma {:induction false} NextIsTransition(p: seq<Entry>, bit: nat, d: Deployment, w: Windows)
    requires w.Proper() && Whole(|p|, w.size) && |p| > w.size && |p| > 1 && MedianPast(p, w.span) >= d.startTime
    ensures Whole(|p| - w.size, w.size)
    ensures NodeState(p, bit, d, w) == Transition(NodeState(p[..|p| - w.size], bit, d, w), p, bit, d, w)
  {
    hide MedianPast, Transition, Whole;
    LengthOfWindows(|p|, w.size);
  }

  lemma {:induction false} PendingLast(m: Index, genesis: Entry, tip: Entry, rules: Rules, bit: nat, boundary: Entry, at: Entry, compute: seq<Entry>)
    requires IsTree(m, genesis) && Has(m, tip) && rules.windows.Proper() && bit in rules.deployments && compute != []
    requires Pending(m, genesis, tip, rules, bit, boundary, at, compute)
    ensures var last := compute[|compute| - 1];
      && OnPath(m, Path(m, genesis, tip), last) && OnPath(m, Path(m, genesis, tip), at)
      && MoreToDo(m, genesis, rules, bit, last) && last.height == at.height + rules.windows.size
  {
    hide Path, IsTree, Whole, MoreToDo, Spaced;
    SpacedLess(compute, at, rules.windows.size);
  }

  lemma {:induction false} PendingLess(m: Index, genesis: Entry, tip: Entry, rules: Rules, bit: nat, boundary: Entry, at: Entry, compute: seq<Entry>)
    requires IsTree(m, genesis) && Has(m, tip) && rules.windows.Proper() && bit in rules.deployments && compute != []
    requires Pending(m, genesis, tip, rules, bit, boundary, at, compute)
    ensures Pending(m, genesis, tip, rules, bit, boundary, compute[|compute| - 1], compute[..|compute| - 1])
  {
    hide Path, IsTree, Whole, Spaced;
    assert MoreToDo(m, genesis, rules, bit, compute[|compute| - 1]);
    assert Whole(compute[|compute| - 1].height + 1, rules.windows.size);
    hide MoreToDo, OnPath;
    SpacedLess(compute, at, rules.windows.size);
  }

  /** For every best chain the node can have, its states are those of BIP 9 exactly for late starters. */
  lemma {:induction false} BestChainFollowsBip9(c: HeaderChain, bit: nat)
    requires c.Valid() && bit in c.rules.deployments && c.tip.height + 1 >= c.rules.windows.size
    requires c.rules.deployments[bit].startTime <= c.rules.deployments[bit].timeout
    ensures var p, d, w := Path(c.byHash, c.genesis, c.tip), c.rules.deployments[bit], c.rules.windows;
      MeetsBip9(p, bit, d, w) <==> MedianPast(p[..w.size], w.span) < d.startTime
  {
    hide Path, IsTree, CacheSound, NoChild, MedianPast, MeetsBip9, Timely;
    NodeMeetsBip9(Path(c.byHash, c.genesis, c.tip), bit, c.rules.deployments[bit], c.rules.windows);
  }

  // ---- Runs ----

  datatype HeaderEvent = Arrives(header: Header, now: nat) | Reset(target: int) | AsksState(prev: Entry, bit: nat)

  predicate NoResets(events: seq<HeaderEvent>) {
    forall e :: e in events ==> !e.Reset?
  }

  lemma {:induction false} GenesisDue(genesis: Entry, rules: Rules)
    requires genesis.height == 0
    ensures IsTree(map[genesis.hash := genesis], genesis) && AllDue(map[genesis.hash := genesis], genesis, rules)
  {
  }

  lemma {:induction false} InsertDue(m: Index, genesis: Entry, e: Entry, rules: Rules)
    requires IsTree(m, genesis) && AllDue(m, genesis, rules) && IsTree(m[e.hash := e], genesis) && e.hash !in m
    requires e.header.prevBlock in m && Has(m, m[e.header.prevBlock])
    requires rules.difficultyOk(e.header, Path(m, genesis, m[e.header.prevBlock])) && Proved(e, m[e.header.prevBlock], rules)
    ensures AllDue(m[e.hash := e], genesis, rules)
  {
    hide Path, Proved;
    var n := m[e.hash := e];
    forall h | h in n && n[h] != genesis
      ensures Has(n, n[n[h].header.prevBlock]) && Proved(n[h], n[n[h].header.prevBlock], rules)
      ensures rules.difficultyOk(n[h].header, Path(n, genesis, n[n[h].header.prevBlock]))
    {
      PathStable(m, n, genesis, m[n[h].header.prevBlock]);
    }
  }

  /** The work of the headers of a path after the first. */
  function WorkAlong(p: seq<Entry>, rules: Rules): nat {
    if |p| <= 1 then 0 else WorkAlong(p[..|p| - 1], rules) + rules.workOf(p[|p| - 1].header.bits)
  }

  lemma {:induction false} WorkAlongMore(p: seq<Entry>, e: Entry, rules: Rules)
    requires p != []
    ensures WorkAlong(p + [e], rules) == WorkAlong(p, rules) + rules.workOf(e.header.bits)
  {
    assert (p + [e])[..|p|] == p;
  }

  lemma {:induction false} DueAt(m: Index, genesis: Entry, e: Entry, rules: Rules)
    requires IsTree(m, genesis) && AllDue(m, genesis, rules) && Has(m, e)
    ensures e.height == 0 ==> e == genesis && Path(m, genesis, e) == [genesis]
    ensures e.height > 0 ==>
      && e.header.prevBlock in m && Has(m, m[e.header.prevBlock]) && m[e.header.prevBlock].height < e.height
      && e.work == m[e.header.prevBlock].work + rules.workOf(e.header.bits)
      && Path(m, genesis, e) == Path(m, genesis, m[e.header.prevBlock]) + [e]
  {
    assert m[e.hash] == e;
  }

  lemma {:induction false} PathNotEmpty(m: Index, genesis: Entry, e: Entry)
    requires IsTree(m, genesis) && Has(m, e)
    ensures Path(m, genesis, e) != []
  {
  }

  /** The work of an entry is that of genesis and of all headers on its path. */
  lemma {:induction false} WorkIsSum(m: Index, genesis: Entry, e: Entry, rules: Rules)
    requires IsTree(m, genesis) && AllDue(m, genesis, rules) && Has(m, e)
    ensures e.work == genesis.work + WorkAlong(Path(m, genesis, e), rules)
    decreases e.height
  {
    DueAt(m, genesis, e, rules);
    hide IsTree, AllDue, Path, Has;
    if e.height > 0 {
      var parent := m[e.header.prevBlock];
      WorkIsSum(m, genesis, parent, rules);
      PathNotEmpty(m, genesis, parent);
      WorkAlongMore(Path(m, genesis, parent), e, rules);
    }
  }

  lemma {:induction false} CutDue(m: Index, n: Index, genesis: Entry, target: nat, rules: Rules)
    requires IsTree(m, genesis) && AllDue(m, genesis, rules) && IsTree(n, genesis)
    requires n == map h | h in m && m[h].height <= target :: m[h]
    ensures AllDue(n, genesis, rules)
  {
    hide Path, Proved;
    forall h | h in n && n[h] != genesis
      ensures Has(n, n[n[h].header.prevBlock]) && Proved(n[h], n[n[h].header.prevBlock], rules)
      ensures rules.difficultyOk(n[h].header, Path(n, genesis, n[n[h].header.prevBlock]))
    {
      PathStable(m, n, genesis, n[n[h].header.prevBlock]);
    }
  }

  /** Over any run the index stays sound; without resets the tip has the most work. */
  method Run(genesis: Entry, rules: Rules, events: seq<HeaderEvent>) returns (c: HeaderChain)
    requires rules.Proper() && genesis.height == 0
    ensures c.Valid() && fresh(c) && c.rules == rules && c.genesis == genesis
    ensures AllDue(c.byHash, genesis, rules)
    ensures NoResets(events) ==> MostWork(c.byHash, c.tip)
  {
    hide Path, IsTree, CacheSound, NoChild, MostWork, AllTimely, AllDue, Indexed, NoResets, MedianPast, HeaderChain.LooksKnown;
    c := new HeaderChain(genesis, rules);
    GenesisDue(genesis, rules);
    var i := 0;
    while i < |events|
      invariant 0 <= i <= |events| && c.Valid() && fresh(c) && AllDue(c.byHash, genesis, rules)
      invariant NoResets(events[..i]) ==> MostWork(c.byHash, c.tip)
    {
      match events[i] {
        case Arrives(header, now) =>
          ghost var before := c.byHash;
          var r := c.Add(header, now);
          if r.Ok? {
            InTree(before, genesis, header.prevBlock);
            InsertDue(before, genesis, r.value, rules);
          }
        case Reset(target) =>
          ghost var before, height := c.byHash, c.tip.height;
          c.ResetToStoredHeight(target);
          if 0 <= target < height {
            CutDue(before, c.byHash, genesis, target, rules);
          }
        case AsksState(prev, bit) =>
          if bit in c.rules.deployments {
            var _ := c.GetDeploymentState(prev, bit);
          }
      }
      NoResetsMore(events, i);
      i := i + 1;
    }
    assert events[..i] == events;
  }

  lemma {:induction false} NoResetsMore(events: seq<HeaderEvent>, i: nat)
    requires i < |events|
    ensures NoResets(events[..i + 1]) <==> NoResets(events[..i]) && !events[i].Reset?
  {
    assert events[..i + 1] == events[..i] + [events[i]];
  }
}
