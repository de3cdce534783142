/**
 * The memory-hard hash and its sampled proof (Sources/ExtCrypto/BalloonHash.swift,
 * Sources/ExtCrypto/BalloonProof.swift). The inner hash is any function to 32 bytes.
 */
module Balloon {
  import opened Base

  const SAMPLES := 32

  function U64(n: nat): Bytes {
    LittleEndianBytes(n, 8)
  }

  // ---- Inputs of the inner hash ----

  function FirstSlot(h: Hasher, password: Bytes, salt: Bytes): Bytes {
    h(U64(0) + password + salt)
  }

  function NextSlot(h: Hasher, counter: nat, prev: Bytes): Bytes {
    h(U64(counter) + prev)
  }

  function Mix(h: Hasher, counter: nat, a: Bytes, b: Bytes): Bytes {
    h(U64(counter) + a + b)
  }

  /** The pseudorandom neighbour of slot `i`. */
  function Neighbor(h: Hasher, counter: nat, round: nat, i: nat, j: nat, slots: nat): (idx: nat)
    requires Hashes32(h) && slots > 0
    ensures idx < slots
  {
    LittleEndian(h(U64(counter) + U64(round) + U64(i) + U64(j))[..8]) % slots
  }

  // ---- The algorithm on whole buffers ----

  /** The buffer and the counter that numbers every call of the inner hash. */
  datatype Pad = Pad(slots: seq<Bytes>, counter: nat)

  function ExpandTo(h: Hasher, password: Bytes, salt: Bytes, n: nat): (p: Pad)
    requires n > 0
    ensures |p.slots| == n && p.counter == n
  {
    if n == 1 then Pad([FirstSlot(h, password, salt)], 1)
    else
      var p := ExpandTo(h, password, salt, n - 1);
      Pad(p.slots + [NextSlot(h, p.counter, p.slots[n - 2])], n)
  }

  function Previous(i: nat, n: nat): nat
    requires i < n
  {
    if i == 0 then n - 1 else i - 1
  }

  /** The first `j` neighbours of slot `i` mixed in, after its predecessor. */
  function MixSlot(h: Hasher, p: Pad, round: nat, i: nat, j: nat): (q: Pad)
    requires Hashes32(h) && i < |p.slots|
    ensures |q.slots| == |p.slots| && q.counter == p.counter + 1 + j
  {
    if j == 0 then
      Pad(p.slots[i := Mix(h, p.counter, p.slots[i], p.slots[Previous(i, |p.slots|)])], p.counter + 1)
    else
      var q := MixSlot(h, p, round, i, j - 1);
      var idx := Neighbor(h, q.counter, round, i, j - 1, |q.slots|);
      Pad(q.slots[i := Mix(h, q.counter, q.slots[i], q.slots[idx])], q.counter + 1)
  }

  /** The first `n` slots of a round. */
  function MixRound(h: Hasher, p: Pad, round: nat, n: nat, delta: nat): (q: Pad)
    requires Hashes32(h) && n <= |p.slots|
    ensures |q.slots| == |p.slots|
  {
    if n == 0 then p else MixSlot(h, MixRound(h, p, round, n - 1, delta), round, n - 1, delta)
  }

  function MixRounds(h: Hasher, p: Pad, rounds: nat, delta: nat): (q: Pad)
    requires Hashes32(h)
    ensures |q.slots| == |p.slots|
  {
    if rounds == 0 then p
    else
      var q := MixRounds(h, p, rounds - 1, delta);
      MixRound(h, q, rounds - 1, |q.slots|, delta)
  }

  function BalloonOf(h: Hasher, password: Bytes, salt: Bytes, slots: nat, rounds: nat, delta: nat): Bytes
    requires Hashes32(h) && slots > 0
  {
    MixRounds(h, ExpandTo(h, password, salt, slots), rounds, delta).slots[slots - 1]
  }

  // ---- In place ----

  method Expand(h: Hasher, password: Bytes, salt: Bytes, buf: array<Bytes>) returns (counter: nat)
    requires buf.Length > 0
    modifies buf
    ensures Pad(buf[..], counter) == ExpandTo(h, password, salt, buf.Length)
  {
    counter := 0;
    buf[0] := FirstSlot(h, password, salt);
    counter := counter + 1;
    var i := 1;
    while i < buf.Length
      invariant 1 <= i <= buf.Length && Pad(buf[..i], counter) == ExpandTo(h, password, salt, i)
    {
      assert buf[i - 1] == buf[..i][i - 1];
      buf[i] := NextSlot(h, counter, buf[i - 1]);
      counter := counter + 1;
      i := i + 1;
      assert buf[..i] == buf[..i - 1] + [buf[i - 1]];
    }
    assert buf[..i] == buf[..];
  }

  /** Each slot is overwritten once by its predecessor and then by each of its neighbours. */
  method MixBuffer(h: Hasher, buf: array<Bytes>, start: nat, rounds: nat, delta: nat)
    requires Hashes32(h) && buf.Length > 0
    modifies buf
    ensures buf[..] == MixRounds(h, Pad(old(buf[..]), start), rounds, delta).slots
  {
    hide MixSlot, Mix, Neighbor;
    ghost var p := Pad(buf[..], start);
    var counter, round := start, 0;
    while round < rounds
      invariant 0 <= round <= rounds && Pad(buf[..], counter) == MixRounds(h, p, round, delta)
    {
      ghost var q := Pad(buf[..], counter);
      var i := 0;
      while i < buf.Length
        invariant 0 <= i <= buf.Length && Pad(buf[..], counter) == MixRound(h, q, round, i, delta)
      {
        counter := MixOne(h, buf, counter, round, i, delta);
        i := i + 1;
      }
      round := round + 1;
    }
  }

  lemma {:induction false} MixSlotFirst(h: Hasher, p: Pad, round: nat, i: nat)
    requires Hashes32(h) && i < |p.slots|
    ensures MixSlot(h, p, round, i, 0)
         == Pad(p.slots[i := Mix(h, p.counter, p.slots[i], p.slots[Previous(i, |p.slots|)])], p.counter + 1)
  {
  }

  lemma {:induction false} MixSlotMore(h: Hasher, p: Pad, round: nat, i: nat, j: nat)
    requires Hashes32(h) && i < |p.slots|
    ensures var q := MixSlot(h, p, round, i, j);
      var idx := Neighbor(h, q.counter, round, i, j, |q.slots|);
      MixSlot(h, p, round, i, j + 1) == Pad(q.slots[i := Mix(h, q.counter, q.slots[i], q.slots[idx])], q.counter + 1)
  {
    hide Mix, Neighbor;
  }

  method MixOne(h: Hasher, buf: array<Bytes>, start: nat, round: nat, i: nat, delta: nat) returns (counter: nat)
    requires Hashes32(h) && i < buf.Length
    modifies buf
    ensures Pad(buf[..], counter) == MixSlot(h, Pad(old(buf[..]), start), round, i, delta)
  {
    hide Mix, Neighbor, Hashes32;
    hide MixSlot;
    ghost var p := Pad(buf[..], start);
    counter := start;
    var prevIdx := if i == 0 then buf.Length - 1 else i - 1;
    buf[i] := Mix(h, counter, buf[i], buf[prevIdx]);
    counter := counter + 1;
    MixSlotFirst(h, p, round, i);
    assert buf[..] == p.slots[i := Mix(h, start, p.slots[i], p.slots[prevIdx])];
    var j := 0;
    while j < delta
      invariant 0 <= j <= delta && Pad(buf[..], counter) == MixSlot(h, p, round, i, j)
    {
      ghost var q := Pad(buf[..], counter);
      var idx := Neighbor(h, counter, round, i, j, buf.Length);
      MixSlotMore(h, p, round, i, j);
      buf[i] := Mix(h, counter, buf[i], buf[idx]);
      assert buf[..] == q.slots[i := Mix(h, counter, q.slots[i], q.slots[idx])];
      counter := counter + 1;
      j := j + 1;
    }
  }

  /** The hash: expand, mix, extract. The first input has to fit one block of the inner hash. */
  method Hash(h: Hasher, password: Bytes, salt: Bytes, slots: nat, rounds: nat, delta: nat) returns (r: Bytes)
    requires Hashes32(h) && slots > 0 && 8 + |password| + |salt| <= 128
    ensures r == BalloonOf(h, password, salt, slots, rounds, delta)
  {
    hide ExpandTo, MixRounds;
    var buf := new Bytes[slots](_ => []);
    var counter := Expand(h, password, salt, buf);
    MixBuffer(h, buf, counter, rounds, delta);
    r := buf[slots - 1];
    assert r == buf[..][slots - 1];
  }

  // ---- One round, one neighbour, slot by slot ----

  function Expanded(h: Hasher, password: Bytes, salt: Bytes, i: nat): Bytes {
    if i == 0 then FirstSlot(h, password, salt) else NextSlot(h, i, Expanded(h, password, salt, i - 1))
  }

  /** What the mix of slot `i` needs: the instance being hashed. */
  datatype Instance = Instance(h: Hasher, password: Bytes, salt: Bytes, slots: nat) {
    ghost predicate Proper() {
      Hashes32(h) && slots > 0
    }

    function Fresh(i: nat): Bytes {
      Expanded(h, password, salt, i)
    }

    function RandomIndex(i: nat): (idx: nat)
      requires Proper()
      ensures idx < slots
    {
      Neighbor(h, slots + 2 * i + 1, 0, i, 0, slots)
    }

    /** The predecessor as slot `i` finds it: mixed already, except around the start. */
    function Before(i: nat): Bytes
      requires Proper()
      decreases i, 0
    {
      if i == 0 then Fresh(slots - 1) else Mixed(i - 1)
    }

    function Primary(i: nat): Bytes
      requires Proper()
      decreases i, 1
    {
      Mix(h, slots + 2 * i, Fresh(i), Before(i))
    }

    /** The neighbour as slot `i` finds it: mixed below `i`, fresh above, half mixed at `i`. */
    function Neighbour(i: nat): Bytes
      requires Proper()
      decreases i, 2
    {
      var idx := RandomIndex(i);
      if idx < i then Mixed(idx) else if idx == i then Primary(i) else Fresh(idx)
    }

    function Mixed(i: nat): Bytes
      requires Proper()
      decreases i, 3
    {
      Mix(h, slots + 2 * i + 1, Primary(i), Neighbour(i))
    }
  }

  lemma {:induction false} ExpandToMeaning(h: Hasher, password: Bytes, salt: Bytes, n: nat)
    requires n > 0
    ensures forall k :: 0 <= k < n ==> ExpandTo(h, password, salt, n).slots[k] == Expanded(h, password, salt, k)
  {
    if n > 1 {
      ExpandToMeaning(h, password, salt, n - 1);
    }
  }

  /**
   * The mix in place: when slot `i` is due, the slots before it are mixed, those from it on fresh,
   * and the counter stands at slots + 2 i.
   */
  lemma {:induction false} MixInvariant(x: Instance, n: nat)
    requires x.Proper() && n <= x.slots
    ensures var p := MixRound(x.h, ExpandTo(x.h, x.password, x.salt, x.slots), 0, n, 1);
      && p.counter == x.slots + 2 * n
      && forall k :: 0 <= k < x.slots ==> p.slots[k] == if k < n then x.Mixed(k) else x.Fresh(k)
  {
    hide Mix, Neighbor, MixSlot, Expanded, ExpandTo;
    if n == 0 {
      ExpandToMeaning(x.h, x.password, x.salt, x.slots);
    } else {
      MixInvariant(x, n - 1);
      MixedSlot(x, MixRound(x.h, ExpandTo(x.h, x.password, x.salt, x.slots), 0, n - 1, 1), n - 1);
    }
  }

  lemma {:induction false} MixedSlot(x: Instance, p: Pad, i: nat)
    requires x.Proper() && i < x.slots && |p.slots| == x.slots && p.counter == x.slots + 2 * i
    requires forall k :: 0 <= k < x.slots ==> p.slots[k] == if k < i then x.Mixed(k) else x.Fresh(k)
    ensures MixSlot(x.h, p, 0, i, 1) == Pad(p.slots[i := x.Mixed(i)], x.slots + 2 * i + 2)
  {
    hide *;
    var q := PrimarySlot(x, p, i);
    NeighbourFound(x, p, i);
    MixedIs(x, i);
    MixSlotMore(x.h, p, 0, i, 0);
    assert q.slots[i] == x.Primary(i);
    assert q.slots[i := x.Mixed(i)] == p.slots[i := x.Mixed(i)];
  }

  lemma {:induction false} MixedIs(x: Instance, i: nat)
    requires x.Proper()
    ensures x.Proper() && x.slots > 0 && Hashes32(x.h)
    ensures x.RandomIndex(i) == Neighbor(x.h, x.slots + 2 * i + 1, 0, i, 0, x.slots)
    ensures x.Mixed(i) == Mix(x.h, x.slots + 2 * i + 1, x.Primary(i), x.Neighbour(i))
  {
    hide Mix, Neighbor;
  }

  lemma {:induction false} NeighbourFound(x: Instance, p: Pad, i: nat)
    requires x.Proper() && i < x.slots && |p.slots| == x.slots
    requires forall k :: 0 <= k < x.slots ==> p.slots[k] == if k < i then x.Mixed(k) else x.Fresh(k)
    ensures p.slots[i := x.Primary(i)][x.RandomIndex(i)] == x.Neighbour(i)
  {
    hide Mix, Neighbor, Expanded;
    var idx := x.RandomIndex(i);
    if idx != i {
      assert p.slots[i := x.Primary(i)][idx] == p.slots[idx];
    }
  }

  lemma {:induction false} PrimarySlot(x: Instance, p: Pad, i: nat) returns (q: Pad)
    requires x.Proper() && i < x.slots && |p.slots| == x.slots && p.counter == x.slots + 2 * i
    requires forall k :: 0 <= k < x.slots ==> p.slots[k] == if k < i then x.Mixed(k) else x.Fresh(k)
    ensures q == MixSlot(x.h, p, 0, i, 0) == Pad(p.slots[i := x.Primary(i)], x.slots + 2 * i + 1)
  {
    hide Mix, Neighbor, Expanded;
    q := MixSlot(x.h, p, 0, i, 0);
    assert p.slots[i] == x.Fresh(i);
    assert p.slots[Previous(i, x.slots)] == x.Before(i);
  }

  /** At one round and one neighbour the hash is the last mixed slot. */
  lemma {:induction false} HashIsLastSlot(x: Instance)
    requires x.Proper()
    ensures BalloonOf(x.h, x.password, x.salt, x.slots, 1, 1) == x.Mixed(x.slots - 1)
  {
    MixInvariant(x, x.slots);
    var p := ExpandTo(x.h, x.password, x.salt, x.slots);
    assert MixRounds(x.h, p, 0, 1) == p;
  }

  // ---- Challenges ----

  /** The indices drawn so far and those already used. */
  datatype Draw = Draw(indices: seq<nat>, used: set<nat>)

  /** Reads the `k`-th 32-bit word of a seed and keeps its index unless it is used up. */
  function DrawWord(d: Draw, seed: Bytes, k: nat, slots: nat): (e: Draw)
    requires slots > 0 && k < 8 && |seed| == 32
  {
    if |d.indices| >= SAMPLES then d
    else
      var idx := LittleEndian(seed[4 * k..4 * k + 4]) % slots;
      if slots <= SAMPLES || idx !in d.used then Draw(d.indices + [idx], d.used + {idx}) else d
  }

  /** The first `k` words of a seed. */
  function DrawSeed(d: Draw, seed: Bytes, k: nat, slots: nat): Draw
    requires slots > 0 && k <= 8 && |seed| == 32
  {
    if k == 0 then d else DrawWord(DrawSeed(d, seed, k - 1, slots), seed, k - 1, slots)
  }

  /** Draws from at most `fuel` further seeds; nothing if that does not suffice. */
  function DrawAll(h: Hasher, d: Draw, seed: Bytes, slots: nat, fuel: nat): Option<seq<nat>>
    requires Hashes32(h) && slots > 0
    decreases fuel
  {
    if |d.indices| >= SAMPLES then Some(d.indices)
    else if fuel == 0 then None
    else DrawAll(h, DrawSeed(d, h(seed), 8, slots), h(seed), slots, fuel - 1)
  }

  function StartDraw(slots: nat): Draw
    requires slots > 0
  {
    Draw([slots - 1], {slots - 1})
  }

  /** The challenged slots: the output slot first, then pseudorandom ones. */
  function ChallengeIndices(h: Hasher, output: Bytes, slots: nat, fuel: nat): Option<seq<nat>>
    requires Hashes32(h) && slots > 0
  {
    DrawAll(h, StartDraw(slots), output, slots, fuel)
  }

  method DrawChallenges(h: Hasher, output: Bytes, slots: nat, fuel: nat) returns (r: Option<seq<nat>>)
    requires Hashes32(h) && slots > 0
    ensures r == ChallengeIndices(h, output, slots, fuel)
  {
    var indices: seq<nat>, used: set<nat> := [slots - 1], {slots - 1};
    var seed, left := output, fuel;
    while |indices| < SAMPLES
      invariant DrawAll(h, Draw(indices, used), seed, slots, left) == ChallengeIndices(h, output, slots, fuel)
      decreases left
    {
      if left == 0 {
        return None;
      }
      seed, left := h(seed), left - 1;
      ghost var d := Draw(indices, used);
      var k := 0;
      while k < 8
        invariant 0 <= k <= 8 && Draw(indices, used) == DrawSeed(d, seed, k, slots)
      {
        if |indices| < SAMPLES {
          var idx := LittleEndian(seed[4 * k..4 * k + 4]) % slots;
          if slots <= SAMPLES || idx !in used {
            indices, used := indices + [idx], used + {idx};
          }
        }
        k := k + 1;
      }
    }
    return Some(indices);
  }

  ghost predicate GoodDraw(d: Draw, slots: nat) {
    && 0 < |d.indices| <= SAMPLES && d.indices[0] == slots - 1
    && (forall k :: 0 <= k < |d.indices| ==> d.indices[k] < slots && d.indices[k] in d.used)
    && (slots > SAMPLES ==> forall j, k :: 0 <= j < k < |d.indices| ==> d.indices[j] != d.indices[k])
  }

  lemma {:induction false} DrawKeeps(d: Draw, seed: Bytes, k: nat, slots: nat)
    requires slots > 0 && k <= 8 && |seed| == 32 && GoodDraw(d, slots)
    ensures GoodDraw(DrawSeed(d, seed, k, slots), slots)
    ensures slots <= SAMPLES ==> |DrawSeed(d, seed, k, slots).indices| == Min(SAMPLES, |d.indices| + k)
  {
    hide LittleEndian;
    if k > 0 {
      DrawKeeps(d, seed, k - 1, slots);
    }
  }

  /**
   * The challenges are 32 slots, the output slot first, all different when there are more slots
   * than challenges.
   */
  lemma {:induction false} ChallengesGood(h: Hasher, d: Draw, seed: Bytes, slots: nat, fuel: nat)
    requires Hashes32(h) && slots > 0 && GoodDraw(d, slots)
    ensures var r := DrawAll(h, d, seed, slots, fuel);
      r.Some? ==>
        && |r.value| == SAMPLES && r.value[0] == slots - 1
        && (forall k :: 0 <= k < SAMPLES ==> r.value[k] < slots)
        && (slots > SAMPLES ==> forall j, k :: 0 <= j < k < SAMPLES ==> r.value[j] != r.value[k])
    decreases fuel
  {
    hide DrawSeed;
    if |d.indices| < SAMPLES && fuel > 0 {
      DrawKeeps(d, h(seed), 8, slots);
      ChallengesGood(h, DrawSeed(d, h(seed), 8, slots), h(seed), slots, fuel - 1);
    }
  }

  /** Up to 32 slots four seeds always suffice. */
  lemma {:induction false} FewSlotsSuffice(h: Hasher, d: Draw, seed: Bytes, slots: nat, fuel: nat)
    requires Hashes32(h) && 0 < slots <= SAMPLES && GoodDraw(d, slots) && |d.indices| + 8 * fuel >= SAMPLES
    ensures DrawAll(h, d, seed, slots, fuel).Some?
    decreases fuel
  {
    hide DrawSeed;
    if |d.indices| < SAMPLES {
      DrawKeeps(d, h(seed), 8, slots);
      FewSlotsSuffice(h, DrawSeed(d, h(seed), 8, slots), h(seed), slots, fuel - 1);
    }
  }

  /** More fuel never changes the challenges. */
  lemma {:induction false} FuelIrrelevant(h: Hasher, d: Draw, seed: Bytes, slots: nat, fuel: nat, more: nat)
    requires Hashes32(h) && slots > 0 && fuel <= more && DrawAll(h, d, seed, slots, fuel).Some?
    ensures DrawAll(h, d, seed, slots, more) == DrawAll(h, d, seed, slots, fuel)
    decreases fuel
  {
    hide DrawSeed;
    if |d.indices| < SAMPLES {
      FuelIrrelevant(h, DrawSeed(d, h(seed), 8, slots), h(seed), slots, fuel - 1, more - 1);
    }
  }

  // ---- Proofs ----

  datatype Sample = Sample(
    index: nat,
    expandValue: Bytes,
    expandPrev: Bytes,
    mixedValue: Bytes,
    depPrev: Bytes,
    randomIdx: nat,
    depRandom: Bytes)

  /** The honest sample of slot `i`. */
  function SampleAt(x: Instance, i: nat): Sample
    requires x.Proper()
  {
    Sample(i, x.Fresh(i), if i == 0 then Zeros(32) else x.Fresh(i - 1), x.Mixed(i), x.Before(i), x.RandomIndex(i),
           if x.RandomIndex(i) == i then Zeros(32) else x.Neighbour(i))
  }

  function SamplesAt(x: Instance, indices: seq<nat>, n: nat): (s: seq<Sample>)
    requires x.Proper() && n <= |indices|
    ensures |s| == n && forall k :: 0 <= k < n ==> s[k] == SampleAt(x, indices[k])
  {
    hide SampleAt, Instance.Proper;
    if n == 0 then [] else SamplesAt(x, indices, n - 1) + [SampleAt(x, indices[n - 1])]
  }

  /** The result of a proving run: the hash and its samples. */
  datatype Proved = Proved(hash: Bytes, samples: seq<Sample>)

  /** One sample, read off the mixed buffer and the copy made before the mix. */
  method Extract(x: Instance, expanded: array<Bytes>, mixed: array<Bytes>, i: nat) returns (s: Sample)
    requires x.Proper() && expanded.Length == mixed.Length == x.slots && i < x.slots
    requires forall k :: 0 <= k < x.slots ==> expanded[k] == x.Fresh(k) && mixed[k] == x.Mixed(k)
    ensures s == SampleAt(x, i)
  {
    hide Expanded, Mix, Neighbor;
    var expandPrev := if i == 0 then Zeros(32) else expanded[i - 1];
    var depPrev := if i == 0 then expanded[x.slots - 1] else mixed[i - 1];
    var randomIdx := Neighbor(x.h, x.slots + i * 2 + 1, 0, i, 0, x.slots);
    var depRandom :=
      if randomIdx == i then Zeros(32) else if randomIdx < i then mixed[randomIdx] else expanded[randomIdx];
    s := Sample(i, expanded[i], expandPrev, mixed[i], depPrev, randomIdx, depRandom);
  }

  /** Hashes at one round and one neighbour and samples the challenged slots. */
  method HashWithProof(h: Hasher, password: Bytes, salt: Bytes, slots: nat, rounds: nat, delta: nat, fuel: nat)
    returns (r: Option<Proved>)
    requires Hashes32(h) && slots > 0 && 8 + |password| + |salt| <= 128
    requires rounds == 1 && delta == 1
    ensures var x := Instance(h, password, salt, slots);
      match ChallengeIndices(h, BalloonOf(h, password, salt, slots, 1, 1), slots, fuel)
      case None => r == None
      case Some(indices) =>
        r == Some(Proved(BalloonOf(h, password, salt, slots, 1, 1), SamplesAt(x, indices, |indices|)))
  {
    hide ExpandTo, MixRounds, SampleAt, DrawAll, Expanded, Mix, Neighbor, GoodDraw;
    ghost var x := Instance(h, password, salt, slots);
    var buf := new Bytes[slots](_ => []);
    var counter := Expand(h, password, salt, buf);
    ExpandToMeaning(h, password, salt, slots);
    ghost var freshSlots := buf[..];
    var expandBuf := new Bytes[slots](i requires 0 <= i < buf.Length reads buf => buf[i]);
    assert expandBuf[..] == freshSlots;
    MixBuffer(h, buf, counter, rounds, delta);
    AllMixed(x);
    var hash := buf[slots - 1];
    assert hash == buf[..][slots - 1];
    var drawn := DrawChallenges(h, hash, slots, fuel);
    if drawn == None {
      return None;
    }
    var indices := drawn.value;
    StartIsGood(slots);
    ChallengesGood(h, StartDraw(slots), hash, slots, fuel);
    Elements(expandBuf);
    Elements(buf);
    assert forall k :: 0 <= k < slots ==> expandBuf[k] == x.Fresh(k) && buf[k] == x.Mixed(k);
    var samples: seq<Sample>, n := [], 0;
    while n < |indices|
      invariant 0 <= n <= |indices| && samples == SamplesAt(x, indices, n)
      invariant forall k :: 0 <= k < slots ==> expandBuf[k] == x.Fresh(k) && buf[k] == x.Mixed(k)
    {
      var s := Extract(Instance(h, password, salt, slots), expandBuf, buf, indices[n]);
      samples := samples + [s];
      n := n + 1;
    }
    return Some(Proved(hash, samples));
  }

  lemma {:induction false} Elements(a: array<Bytes>)
    ensures forall k :: 0 <= k < a.Length ==> a[k] == a[..][k]
  {
  }

  lemma {:induction false} StartIsGood(slots: nat)
    requires slots > 0
    ensures GoodDraw(StartDraw(slots), slots)
  {
  }

  lemma {:induction false} AllMixed(x: Instance)
    requires x.Proper()
    ensures var p := MixRounds(x.h, ExpandTo(x.h, x.password, x.salt, x.slots), 1, 1);
      forall k :: 0 <= k < x.slots ==> p.slots[k] == x.Mixed(k)
  {
    hide MixRound, Mix, Expanded, ExpandTo;
    MixInvariant(x, x.slots);
    OneRound(x.h, ExpandTo(x.h, x.password, x.salt, x.slots));
  }

  lemma {:induction false} OneRound(h: Hasher, p: Pad)
    requires Hashes32(h)
    ensures MixRounds(h, p, 1, 1) == MixRound(h, p, 0, |p.slots|, 1)
  {
    hide MixRound;
    assert MixRounds(h, p, 0, 1) == p;
  }

  // ---- Verification ----

  /** What a single sample has to satisfy. */
  predicate SampleHolds(x: Instance, s: Sample, challenge: nat, output: Bytes)
    requires Hashes32(x.h) && x.slots > 0
  {
    var i := s.index;
    var primary := Mix(x.h, x.slots + 2 * i, s.expandValue, s.depPrev);
    var depRandom := if s.randomIdx == i then primary else s.depRandom;
    && i == challenge
    && s.expandValue == (if i == 0 then FirstSlot(x.h, x.password, x.salt) else NextSlot(x.h, i, s.expandPrev))
    && s.randomIdx == Neighbor(x.h, x.slots + 2 * i + 1, 0, i, 0, x.slots)
    && s.mixedValue == Mix(x.h, x.slots + 2 * i + 1, primary, depRandom)
    && (i == x.slots - 1 ==> s.mixedValue == output)
  }

  function InsertByIndex(s: Sample, t: seq<Sample>): seq<Sample> {
    if t == [] then [s]
    else if s.index <= t[0].index then [s] + t
    else [t[0]] + InsertByIndex(s, t[1..])
  }

  function SortedByIndex(t: seq<Sample>): seq<Sample> {
    if t == [] then [] else InsertByIndex(t[0], SortedByIndex(t[1..]))
  }

  /** Samples of adjacent slots tell the same story about the slot between them. */
  predicate Consistent(t: seq<Sample>) {
    forall k {:trigger t[k]} :: 0 <= k < |t| - 1 && t[k].index + 1 == t[k + 1].index && t[k + 1].index > 0 ==>
      t[k].expandValue == t[k + 1].expandPrev
  }

  /** What verification accepts, given the challenges. */
  predicate Accepts(x: Instance, samples: seq<Sample>, output: Bytes, challenges: seq<nat>)
    requires Hashes32(x.h) && x.slots > 0
  {
    && |samples| == SAMPLES && |challenges| == SAMPLES
    && (forall k :: 0 <= k < SAMPLES ==> SampleHolds(x, samples[k], challenges[k], output))
    && Consistent(SortedByIndex(samples))
  }

  method Verify(x: Instance, samples: seq<Sample>, output: Bytes, rounds: nat, delta: nat, fuel: nat)
    returns (r: Option<bool>)
    requires Hashes32(x.h) && x.slots > 0
    ensures rounds != 1 || delta != 1 || |samples| != SAMPLES ==> r == Some(false)
    ensures rounds == 1 && delta == 1 && |samples| == SAMPLES ==>
      match ChallengeIndices(x.h, output, x.slots, fuel)
      case None => r == None
      case Some(challenges) => r == Some(Accepts(x, samples, output, challenges))
  {
    hide SampleHolds, SortedByIndex, DrawAll;
    if rounds != 1 || delta != 1 {
      return Some(false);
    }
    if |samples| != SAMPLES {
      return Some(false);
    }
    var drawn := DrawChallenges(x.h, output, x.slots, fuel);
    if drawn == None {
      return None;
    }
    var challenges := drawn.value;
    StartIsGood(x.slots);
    ChallengesGood(x.h, StartDraw(x.slots), output, x.slots, fuel);
    var si := 0;
    while si < |challenges|
      invariant 0 <= si <= SAMPLES
      invariant forall k :: 0 <= k < si ==> SampleHolds(x, samples[k], challenges[k], output)
    {
      var holds := CheckSample(x, samples[si], challenges[si], output);
      if !holds {
        return Some(false);
      }
      si := si + 1;
    }
    var sorted := SortedByIndex(samples);
    var k := 0;
    while k < |sorted| - 1
      invariant 0 <= k && (k <= |sorted| - 1 || k == 0)
      invariant forall j {:trigger sorted[j]} :: 0 <= j < k && sorted[j].index + 1 == sorted[j + 1].index && sorted[j + 1].index > 0 ==>
        sorted[j].expandValue == sorted[j + 1].expandPrev
    {
      var cur, nxt := sorted[k], sorted[k + 1];
      if cur.index + 1 == nxt.index && nxt.index > 0 {
        if cur.expandValue != nxt.expandPrev {
          return Some(false);
        }
      }
      k := k + 1;
    }
    return Some(true);
  }

  method CheckSample(x: Instance, s: Sample, challenge: nat, output: Bytes) returns (holds: bool)
    requires Hashes32(x.h) && x.slots > 0
    ensures holds == SampleHolds(x, s, challenge, output)
  {
    hide Mix, Neighbor, FirstSlot, NextSlot;
    if s.index != challenge {
      return false;
    }
    var i := s.index;
    if i == 0 {
      if s.expandValue != FirstSlot(x.h, x.password, x.salt) {
        return false;
      }
    } else {
      if s.expandValue != NextSlot(x.h, i, s.expandPrev) {
        return false;
      }
    }
    var primaryCounter := x.slots + i * 2;
    var primaryResult := Mix(x.h, primaryCounter, s.expandValue, s.depPrev);
    var deltaCounter := x.slots + i * 2 + 1;
    if s.randomIdx != Neighbor(x.h, deltaCounter, 0, i, 0, x.slots) {
      return false;
    }
    var depRandom := if s.randomIdx == s.index then primaryResult else s.depRandom;
    if s.mixedValue != Mix(x.h, deltaCounter, primaryResult, depRandom) {
      return false;
    }
    if i == x.slots - 1 {
      if s.mixedValue != output {
        return false;
      }
    }
    return true;
  }

  // ---- Completeness ----

  lemma {:induction false} HonestSampleHolds(x: Instance, i: nat)
    requires x.Proper() && i < x.slots
    ensures SampleHolds(x, SampleAt(x, i), i, x.Mixed(x.slots - 1))
  {
    hide Mix, Neighbor, FirstSlot, NextSlot;
    MixedIs(x, i);
    assert x.Fresh(i) == if i == 0 then FirstSlot(x.h, x.password, x.salt) else NextSlot(x.h, i, x.Fresh(i - 1));
    assert x.Primary(i) == Mix(x.h, x.slots + 2 * i, x.Fresh(i), x.Before(i));
    assert x.RandomIndex(i) == i ==> x.Neighbour(i) == x.Primary(i);
  }

  lemma {:induction false} InsertMembers(s: Sample, t: seq<Sample>)
    ensures forall e :: e in InsertByIndex(s, t) ==> e == s || e in t
  {
    if t != [] && s.index > t[0].index {
      InsertMembers(s, t[1..]);
    }
  }

  lemma {:induction false} SortedMembers(t: seq<Sample>)
    ensures forall e :: e in SortedByIndex(t) ==> e in t
  {
    if t != [] {
      SortedMembers(t[1..]);
      InsertMembers(t[0], SortedByIndex(t[1..]));
    }
  }

  /** The samples of an honest run are accepted, whatever slots were challenged. */
  lemma {:induction false} HonestAccepted(x: Instance, indices: seq<nat>)
    requires x.Proper() && |indices| == SAMPLES && forall k :: 0 <= k < SAMPLES ==> indices[k] < x.slots
    ensures Accepts(x, SamplesAt(x, indices, SAMPLES), x.Mixed(x.slots - 1), indices)
  {
    var samples := SamplesAt(x, indices, SAMPLES);
    hide SampleHolds, SampleAt, SamplesAt;
    forall k | 0 <= k < SAMPLES
      ensures SampleHolds(x, samples[k], indices[k], x.Mixed(x.slots - 1))
    {
      HonestSampleHolds(x, indices[k]);
    }
    HonestConsistent(x, samples);
  }

  lemma {:induction false} SamplesMeet(x: Instance, i: nat, j: nat)
    requires x.Proper()
    ensures var s, t := SampleAt(x, i), SampleAt(x, j);
      s.index + 1 == t.index && t.index > 0 ==> s.expandValue == t.expandPrev
  {
    hide Mix, Neighbor, Expanded;
  }

  lemma {:induction false} HonestConsistent(x: Instance, samples: seq<Sample>)
    requires x.Proper() && forall k :: 0 <= k < |samples| ==> exists i: nat :: samples[k] == SampleAt(x, i)
    ensures Consistent(SortedByIndex(samples))
  {
    hide Mix, Neighbor, Expanded, SortedByIndex, SampleAt, Instance.Proper;
    SortedMembers(samples);
    var t := SortedByIndex(samples);
    forall k {:trigger t[k]} | 0 <= k < |t| - 1 && t[k].index + 1 == t[k + 1].index && t[k + 1].index > 0
      ensures t[k].expandValue == t[k + 1].expandPrev
    {
      assert t[k] in samples && t[k + 1] in samples;
      var i: nat :| t[k] == SampleAt(x, i);
      var j: nat :| t[k + 1] == SampleAt(x, j);
      SamplesMeet(x, i, j);
    }
  }

  /**
   * Completeness: for every password, salt and number of slots, once the challenges are drawn the
   * proof is accepted, and the hash it proves is the plain hash at one round and one neighbour.
   */
  lemma {:induction false} ProofAccepted(x: Instance, fuel: nat)
    requires x.Proper()
    ensures var hash := BalloonOf(x.h, x.password, x.salt, x.slots, 1, 1);
      match ChallengeIndices(x.h, hash, x.slots, fuel)
      case None => x.slots > SAMPLES || fuel < 4
      case Some(indices) => |indices| == SAMPLES && Accepts(x, SamplesAt(x, indices, SAMPLES), hash, indices)
  {
    hide DrawAll, Accepts, BalloonOf, SamplesAt;
    HashIsLastSlot(x);
    StartIsGood(x.slots);
    var hash := BalloonOf(x.h, x.password, x.salt, x.slots, 1, 1);
    ChallengesGood(x.h, StartDraw(x.slots), hash, x.slots, fuel);
    if x.slots <= SAMPLES && fuel >= 4 {
      FewSlotsSuffice(x.h, StartDraw(x.slots), hash, x.slots, fuel);
    }
    if ChallengeIndices(x.h, hash, x.slots, fuel).Some? {
      HonestAccepted(x, ChallengeIndices(x.h, hash, x.slots, fuel).value);
    }
  }

  /** Whatever is accepted contains the output slot, recomputed to the claimed hash. */
  lemma {:induction false} AcceptedBindsHash(x: Instance, samples: seq<Sample>, output: Bytes, fuel: nat)
    requires x.Proper() && ChallengeIndices(x.h, output, x.slots, fuel).Some?
    requires Accepts(x, samples, output, ChallengeIndices(x.h, output, x.slots, fuel).value)
    ensures samples[0].index == x.slots - 1 && samples[0].mixedValue == output
  {
    hide DrawAll, Mix, Neighbor;
    StartIsGood(x.slots);
    ChallengesGood(x.h, StartDraw(x.slots), output, x.slots, fuel);
  }
}
