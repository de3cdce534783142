/**
 * Which strings a balloon hash gives to its inner hash, and what it does with the answers
 * (Sources/ExtCrypto/BalloonHash.swift, lines 55 to 112 and 187; Sources/ExtCrypto/BalloonProof.swift).
 */
module BalloonStrings {
  import opened Base
  import opened Balloon
  import Endian

  const WORD64 := 0x1_0000_0000_0000_0000
  const WORD32 := 0x1_0000_0000

  // ---- The neighbour, by hashers chosen to show it ----

  /** The eight bytes of `v`, lowest first, and zeros up to 32. */
  function Answer(v: nat): (b: Bytes)
    ensures |b| == 32
  {
    ZerosLength(24);
    U64(v) + Zeros(24)
  }

  lemma {:induction false} AnswerRead(v: nat)
    requires v < WORD64
    ensures LittleEndian(Answer(v)[..8]) == v
  {
    hide LittleEndianBytes, LittleEndian, Zeros, Endian.Power256;
    Endian.Widths();
    Endian.RoundTrip(v, 8);
    assert Answer(v)[..8] == LittleEndianBytes(v, 8);
  }

  /** The neighbour is the number in the first eight bytes of the inner hash, modulo the slots. */
  lemma {:induction false} NeighbourIsAnswer(h: Hasher, v: nat, counter: nat, round: nat, i: nat, j: nat, slots: nat)
    requires v < WORD64 && slots > 0 && Hashes32(h) && forall x :: |x| == 32 ==> h(x) == Answer(v)
    ensures Neighbor(h, counter, round, i, j, slots) == v % slots
  {
    hide LittleEndianBytes, LittleEndian, Answer;
    AnswerRead(v);
  }

  lemma {:induction false} AnswersAreWide(h: Hasher, v: nat)
    requires forall x :: h(x) == Answer(v)
    ensures Hashes32(h)
  {
    hide Answer;
  }

  /** So every slot can be the neighbour of every other. */
  lemma {:induction false} EverySlotReached(target: nat, counter: nat, round: nat, i: nat, j: nat, slots: nat) returns (h: Hasher)
    requires target < slots && slots < WORD64
    ensures Hashes32(h) && Neighbor(h, counter, round, i, j, slots) == target
  {
    hide *;
    h := x => Answer(target);
    AnswersAreWide(h, target);
    NeighbourIsAnswer(h, target, counter, round, i, j, slots);
    Below(target, slots);
  }

  lemma {:induction false} Below(a: nat, b: nat)
    requires a < b
    ensures a % b == a
  {
  }

  /** Answers a string of 32 bytes with its `k`-th word. */
  function Echo(k: nat): (h: Hasher)
    requires k < 4
    ensures Hashes32(h)
  {
    ZerosLength(24);
    ZerosLength(32);
    (x: Bytes) => if |x| == 32 then x[8 * k..8 * k + 8] + Zeros(24) else Zeros(32)
  }

  lemma {:induction false} EchoRead(k: nat, a: nat, b: nat, c: nat, d: nat)
    requires k < 4 && a < WORD64 && b < WORD64 && c < WORD64 && d < WORD64
    ensures LittleEndian(Echo(k)(U64(a) + U64(b) + U64(c) + U64(d))[..8])
         == if k == 0 then a else if k == 1 then b else if k == 2 then c else d
  {
    hide LittleEndianBytes, LittleEndian, Zeros, Endian.Power256;
    Endian.Widths();
    var x, n := U64(a) + U64(b) + U64(c) + U64(d), if k == 0 then a else if k == 1 then b else if k == 2 then c else d;
    assert x[8 * k..8 * k + 8] == U64(n);
    assert Echo(k)(x)[..8] == U64(n);
    Endian.RoundTrip(n, 8);
  }

  /** The string hashed for a neighbour is counter, round, slot and number of the neighbour. */
  lemma {:induction false} NeighbourString(counter: nat, round: nat, i: nat, j: nat, slots: nat)
    requires slots > 0 && counter < WORD64 && round < WORD64 && i < WORD64 && j < WORD64
    ensures Neighbor(Echo(0), counter, round, i, j, slots) == counter % slots
    ensures Neighbor(Echo(1), counter, round, i, j, slots) == round % slots
    ensures Neighbor(Echo(2), counter, round, i, j, slots) == i % slots
    ensures Neighbor(Echo(3), counter, round, i, j, slots) == j % slots
  {
    hide LittleEndianBytes, LittleEndian, Echo, Hashes32;
    EchoRead(0, counter, round, i, j);
    EchoRead(1, counter, round, i, j);
    EchoRead(2, counter, round, i, j);
    EchoRead(3, counter, round, i, j);
  }

  /** The whole hash of two slots without neighbours: slot one after slot zero, and then mixed with it. */
  lemma {:induction false} TwoSlots(h: Hasher, password: Bytes, salt: Bytes)
    requires Hashes32(h)
    ensures var first := h(U64(0) + password + salt);
      var second := h(U64(1) + first);
      BalloonOf(h, password, salt, 2, 1, 0) == h(U64(3) + second + h(U64(2) + first + second))
  {
    hide LittleEndianBytes;
    var first := h(U64(0) + password + salt);
    var second := h(U64(1) + first);
    var p := ExpandTo(h, password, salt, 2);
    assert ExpandTo(h, password, salt, 1) == Pad([first], 1);
    assert p == Pad([first, second], 2);
    var q := MixSlot(h, p, 0, 0, 0);
    assert q == Pad([h(U64(2) + first + second), second], 3);
    assert MixRound(h, p, 0, 1, 0) == q;
    assert MixRounds(h, p, 0, 0) == p;
  }

  // ---- The challenges ----

  /** The `k`-th challenge of a seed is its `k`-th word modulo the slots, unless that is used up. */
  lemma {:induction false} WordDrawn(d: Draw, seed: Bytes, k: nat, v: nat, slots: nat)
    requires slots > 0 && k < 8 && |seed| == 32 && |d.indices| < SAMPLES
    requires v < WORD32 && seed[4 * k..4 * k + 4] == LittleEndianBytes(v, 4)
    ensures DrawWord(d, seed, k, slots).indices
         == if slots > SAMPLES && v % slots in d.used then d.indices else d.indices + [v % slots]
    ensures DrawWord(d, seed, k, slots).used == d.used + {v % slots}
  {
    hide LittleEndianBytes, LittleEndian, Endian.Power256;
    Endian.Widths();
    Endian.RoundTrip(v, 4);
  }

  // ---- All strings of one run ----

  function ExpandStrings(h: Hasher, password: Bytes, salt: Bytes, n: nat): seq<Bytes>
    requires n > 0
  {
    if n == 1 then [U64(0) + password + salt]
    else ExpandStrings(h, password, salt, n - 1) + [U64(n - 1) + ExpandTo(h, password, salt, n - 1).slots[n - 2]]
  }

  /** Those of slot `i` with its first `j` neighbours. */
  function SlotStrings(h: Hasher, p: Pad, round: nat, i: nat, j: nat): seq<Bytes>
    requires Hashes32(h) && i < |p.slots|
  {
    if j == 0 then [U64(p.counter) + p.slots[i] + p.slots[Previous(i, |p.slots|)]]
    else
      var q := MixSlot(h, p, round, i, j - 1);
      var asked := U64(q.counter) + U64(round) + U64(i) + U64(j - 1);
      var idx := LittleEndian(h(asked)[..8]) % |q.slots|;
      SlotStrings(h, p, round, i, j - 1) + [asked, U64(q.counter) + q.slots[i] + q.slots[idx]]
  }

  function RoundStrings(h: Hasher, p: Pad, round: nat, n: nat, delta: nat): seq<Bytes>
    requires Hashes32(h) && n <= |p.slots|
  {
    if n == 0 then []
    else RoundStrings(h, p, round, n - 1, delta) + SlotStrings(h, MixRound(h, p, round, n - 1, delta), round, n - 1, delta)
  }

  function MixStrings(h: Hasher, p: Pad, rounds: nat, delta: nat): seq<Bytes>
    requires Hashes32(h)
  {
    if rounds == 0 then []
    else
      var q := MixRounds(h, p, rounds - 1, delta);
      MixStrings(h, p, rounds - 1, delta) + RoundStrings(h, q, rounds - 1, |q.slots|, delta)
  }

  function RunStrings(h: Hasher, password: Bytes, salt: Bytes, slots: nat, rounds: nat, delta: nat): seq<Bytes>
    requires Hashes32(h) && slots > 0
  {
    ExpandStrings(h, password, salt, slots) + MixStrings(h, ExpandTo(h, password, salt, slots), rounds, delta)
  }

  // ---- They are all the hash depends on ----

  ghost predicate Agree(g: Hasher, h: Hasher, strings: seq<Bytes>) {
    forall x :: x in strings ==> g(x) == h(x)
  }

  lemma {:induction false} ExpandDepends(g: Hasher, h: Hasher, password: Bytes, salt: Bytes, n: nat)
    requires n > 0 && Agree(g, h, ExpandStrings(h, password, salt, n))
    ensures ExpandTo(g, password, salt, n) == ExpandTo(h, password, salt, n)
  {
    hide LittleEndianBytes;
    var strings := ExpandStrings(h, password, salt, n);
    assert strings[n - 1] in strings by { ExpandCount(h, password, salt, n); }
    if n > 1 {
      ExpandDepends(g, h, password, salt, n - 1);
      ExpandCount(h, password, salt, n - 1);
    } else {
      assert strings[0] in strings;
    }
  }

  lemma {:induction false} ExpandCount(h: Hasher, password: Bytes, salt: Bytes, n: nat)
    requires n > 0
    ensures |ExpandStrings(h, password, salt, n)| == n
  {
    hide LittleEndianBytes;
    if n > 1 {
      ExpandCount(h, password, salt, n - 1);
    }
  }

  lemma {:induction false} FrontAgrees(g: Hasher, h: Hasher, front: seq<Bytes>, back: seq<Bytes>)
    requires Agree(g, h, front + back)
    ensures Agree(g, h, front) && Agree(g, h, back)
  {
    forall x | x in front
      ensures g(x) == h(x)
    {
      assert x in front + back;
    }
    forall x | x in back
      ensures g(x) == h(x)
    {
      assert x in front + back;
    }
  }

  lemma {:induction false} NeighbourDepends(g: Hasher, h: Hasher, q: Pad, round: nat, i: nat, j: nat)
    requires Hashes32(g) && Hashes32(h) && i < |q.slots|
    requires var asked := U64(q.counter) + U64(round) + U64(i) + U64(j);
      var idx := LittleEndian(h(asked)[..8]) % |q.slots|;
      Agree(g, h, [asked, U64(q.counter) + q.slots[i] + q.slots[idx]])
    ensures var idx := Neighbor(h, q.counter, round, i, j, |q.slots|);
      && Neighbor(g, q.counter, round, i, j, |q.slots|) == idx
      && Mix(g, q.counter, q.slots[i], q.slots[idx]) == Mix(h, q.counter, q.slots[i], q.slots[idx])
  {
    hide LittleEndianBytes, LittleEndian;
  }

  lemma {:induction false} FirstDepends(g: Hasher, h: Hasher, p: Pad, round: nat, i: nat)
    requires Hashes32(g) && Hashes32(h) && i < |p.slots| && Agree(g, h, SlotStrings(h, p, round, i, 0))
    ensures MixSlot(g, p, round, i, 0) == MixSlot(h, p, round, i, 0)
  {
    hide LittleEndianBytes, Hashes32, Previous;
    assert SlotStrings(h, p, round, i, 0)[0] in SlotStrings(h, p, round, i, 0);
  }

  lemma {:induction false} SlotStringsMore(h: Hasher, p: Pad, round: nat, i: nat, j: nat)
    requires Hashes32(h) && i < |p.slots|
    ensures var q := MixSlot(h, p, round, i, j);
      var asked := U64(q.counter) + U64(round) + U64(i) + U64(j);
      var idx := LittleEndian(h(asked)[..8]) % |q.slots|;
      SlotStrings(h, p, round, i, j + 1) == SlotStrings(h, p, round, i, j) + [asked, U64(q.counter) + q.slots[i] + q.slots[idx]]
  {
    hide LittleEndianBytes, LittleEndian, MixSlot;
  }

  lemma {:induction false} SlotDepends(g: Hasher, h: Hasher, p: Pad, round: nat, i: nat, j: nat)
    requires Hashes32(g) && Hashes32(h) && i < |p.slots| && Agree(g, h, SlotStrings(h, p, round, i, j))
    ensures MixSlot(g, p, round, i, j) == MixSlot(h, p, round, i, j)
  {
    hide MixSlot, SlotStrings, Neighbor, Mix, Agree, U64, LittleEndian;
    if j == 0 {
      FirstDepends(g, h, p, round, i);
    } else {
      var q := MixSlot(h, p, round, i, j - 1);
      var asked := U64(q.counter) + U64(round) + U64(i) + U64(j - 1);
      var idx := LittleEndian(h(asked)[..8]) % |q.slots|;
      SlotStringsMore(h, p, round, i, j - 1);
      FrontAgrees(g, h, SlotStrings(h, p, round, i, j - 1), [asked, U64(q.counter) + q.slots[i] + q.slots[idx]]);
      SlotDepends(g, h, p, round, i, j - 1);
      NeighbourDepends(g, h, q, round, i, j - 1);
      MixSlotMore(g, p, round, i, j - 1);
      MixSlotMore(h, p, round, i, j - 1);
    }
  }

  lemma {:induction false} RoundDepends(g: Hasher, h: Hasher, p: Pad, round: nat, n: nat, delta: nat)
    requires Hashes32(g) && Hashes32(h) && n <= |p.slots| && Agree(g, h, RoundStrings(h, p, round, n, delta))
    ensures MixRound(g, p, round, n, delta) == MixRound(h, p, round, n, delta)
  {
    hide MixSlot, SlotStrings, Hashes32;
    if n > 0 {
      RoundDepends(g, h, p, round, n - 1, delta);
      SlotDepends(g, h, MixRound(h, p, round, n - 1, delta), round, n - 1, delta);
    }
  }

  lemma {:induction false} MixDepends(g: Hasher, h: Hasher, p: Pad, rounds: nat, delta: nat)
    requires Hashes32(g) && Hashes32(h) && Agree(g, h, MixStrings(h, p, rounds, delta))
    ensures MixRounds(g, p, rounds, delta) == MixRounds(h, p, rounds, delta)
  {
    hide MixRound, RoundStrings, Hashes32;
    if rounds > 0 {
      MixDepends(g, h, p, rounds - 1, delta);
      var q := MixRounds(h, p, rounds - 1, delta);
      RoundDepends(g, h, q, rounds - 1, |q.slots|, delta);
    }
  }

  /** Two inner hashes that agree on the strings of a run give the same balloon hash. */
  lemma {:induction false} HashDepends(g: Hasher, h: Hasher, password: Bytes, salt: Bytes, slots: nat, rounds: nat, delta: nat)
    requires Hashes32(g) && Hashes32(h) && slots > 0
    requires Agree(g, h, RunStrings(h, password, salt, slots, rounds, delta))
    ensures BalloonOf(g, password, salt, slots, rounds, delta) == BalloonOf(h, password, salt, slots, rounds, delta)
  {
    hide ExpandTo, MixRounds, ExpandStrings, MixStrings, Hashes32;
    ExpandDepends(g, h, password, salt, slots);
    MixDepends(g, h, ExpandTo(h, password, salt, slots), rounds, delta);
  }

  // ---- No string is hashed twice ----

  /** The counter a string starts with. */
  function CounterOf(x: Bytes): nat
    requires |x| >= 8
  {
    LittleEndian(x[..8])
  }

  /** `x` comes before `y`: a lower counter, or the same one with a neighbour's 32 bytes before the mix. */
  predicate Earlier(x: Bytes, y: Bytes)
    requires |x| >= 8 && |y| >= 8
  {
    CounterOf(x) < CounterOf(y) || (CounterOf(x) == CounterOf(y) && |x| == 32 && |y| == 72)
  }

  /** In order, with counters from `low` up to but not including `high`. */
  ghost predicate Ordered(strings: seq<Bytes>, low: nat, high: nat) {
    && low <= high
    && (forall k :: 0 <= k < |strings| ==> |strings[k]| >= 8 && low <= CounterOf(strings[k]) < high)
    && (forall j, k :: 0 <= j < k < |strings| ==> Earlier(strings[j], strings[k]))
  }

  lemma {:induction false} OrderedJoin(a: seq<Bytes>, b: seq<Bytes>, low: nat, mid: nat, high: nat)
    requires Ordered(a, low, mid) && Ordered(b, mid, high)
    ensures Ordered(a + b, low, high)
  {
    hide CounterOf;
  }

  lemma {:induction false} CounterRead(n: nat, rest: Bytes)
    requires n < WORD64
    ensures CounterOf(U64(n) + rest) == n
  {
    hide LittleEndianBytes, LittleEndian, Endian.Power256;
    Endian.Widths();
    Endian.RoundTrip(n, 8);
    assert (U64(n) + rest)[..8] == U64(n);
  }

  lemma {:induction false} OneOrdered(n: nat, rest: Bytes)
    requires n < WORD64
    ensures Ordered([U64(n) + rest], n, n + 1)
  {
    hide CounterOf, LittleEndianBytes;
    CounterRead(n, rest);
  }

  ghost predicate Wide(p: Pad) {
    forall k :: 0 <= k < |p.slots| ==> |p.slots[k]| == 32
  }

  lemma {:induction false} ExpandOrdered(h: Hasher, password: Bytes, salt: Bytes, n: nat)
    requires Hashes32(h) && 0 < n <= WORD64
    ensures Ordered(ExpandStrings(h, password, salt, n), 0, n) && Wide(ExpandTo(h, password, salt, n))
  {
    hide Ordered, LittleEndianBytes;
    if n == 1 {
      assert U64(0) + password + salt == U64(0) + (password + salt);
      OneOrdered(0, password + salt);
    } else {
      ExpandOrdered(h, password, salt, n - 1);
      var last := ExpandTo(h, password, salt, n - 1).slots[n - 2];
      OneOrdered(n - 1, last);
      OrderedJoin(ExpandStrings(h, password, salt, n - 1), [U64(n - 1) + last], 0, n - 1, n);
    }
  }

  lemma {:induction false} PairOrdered(n: nat, asked: Bytes, mixed: Bytes)
    requires n < WORD64 && |asked| == 24 && |mixed| == 64
    ensures Ordered([U64(n) + asked, U64(n) + mixed], n, n + 1)
  {
    hide CounterOf, LittleEndianBytes;
    CounterRead(n, asked);
    CounterRead(n, mixed);
  }

  lemma {:induction false} SlotWide(h: Hasher, p: Pad, round: nat, i: nat, j: nat)
    requires Hashes32(h) && i < |p.slots| && Wide(p)
    ensures Wide(MixSlot(h, p, round, i, j))
  {
    hide LittleEndianBytes, LittleEndian, Neighbor;
    if j > 0 {
      SlotWide(h, p, round, i, j - 1);
    }
  }

  lemma {:induction false} FirstOrdered(h: Hasher, p: Pad, round: nat, i: nat)
    requires Hashes32(h) && i < |p.slots| && p.counter < WORD64
    ensures Ordered(SlotStrings(h, p, round, i, 0), p.counter, p.counter + 1)
  {
    hide Ordered, LittleEndianBytes, LittleEndian, Hashes32;
    var mixed := p.slots[i] + p.slots[Previous(i, |p.slots|)];
    assert U64(p.counter) + p.slots[i] + p.slots[Previous(i, |p.slots|)] == U64(p.counter) + mixed;
    OneOrdered(p.counter, mixed);
  }

  lemma {:induction false} NeighbourOrdered(q: Pad, round: nat, i: nat, j: nat, idx: nat)
    requires i < |q.slots| && idx < |q.slots| && Wide(q) && q.counter < WORD64
    ensures Ordered([U64(q.counter) + U64(round) + U64(i) + U64(j), U64(q.counter) + q.slots[i] + q.slots[idx]],
                    q.counter, q.counter + 1)
  {
    hide Ordered, LittleEndianBytes;
    var asked, mixed := U64(round) + U64(i) + U64(j), q.slots[i] + q.slots[idx];
    assert U64(q.counter) + U64(round) + U64(i) + U64(j) == U64(q.counter) + asked;
    assert U64(q.counter) + q.slots[i] + q.slots[idx] == U64(q.counter) + mixed;
    PairOrdered(q.counter, asked, mixed);
  }

  lemma {:induction false} SlotOrdered(h: Hasher, p: Pad, round: nat, i: nat, j: nat)
    requires Hashes32(h) && i < |p.slots| && Wide(p) && p.counter + 1 + j <= WORD64
    ensures Ordered(SlotStrings(h, p, round, i, j), p.counter, p.counter + 1 + j) && Wide(MixSlot(h, p, round, i, j))
  {
    hide Ordered, U64, LittleEndian, Wide, SlotStrings, MixSlot;
    SlotWide(h, p, round, i, j);
    if j == 0 {
      FirstOrdered(h, p, round, i);
    } else {
      SlotOrdered(h, p, round, i, j - 1);
      var q := MixSlot(h, p, round, i, j - 1);
      var asked := U64(q.counter) + U64(round) + U64(i) + U64(j - 1);
      var idx := LittleEndian(h(asked)[..8]) % |q.slots|;
      SlotStringsMore(h, p, round, i, j - 1);
      NeighbourOrdered(q, round, i, j - 1, idx);
      OrderedJoin(SlotStrings(h, p, round, i, j - 1), [asked, U64(q.counter) + q.slots[i] + q.slots[idx]],
                  p.counter, q.counter, q.counter + 1);
    }
  }

  lemma {:induction false} RoundOrdered(h: Hasher, p: Pad, round: nat, n: nat, delta: nat)
    requires Hashes32(h) && n <= |p.slots| && Wide(p) && p.counter + n * (1 + delta) <= WORD64
    ensures MixRound(h, p, round, n, delta).counter == p.counter + n * (1 + delta)
    ensures Ordered(RoundStrings(h, p, round, n, delta), p.counter, p.counter + n * (1 + delta))
    ensures Wide(MixRound(h, p, round, n, delta))
  {
    hide Wide, SlotStrings, MixSlot, Hashes32, CounterOf;
    if n > 0 {
      assert n * (1 + delta) == (n - 1) * (1 + delta) + 1 + delta;
      RoundOrdered(h, p, round, n - 1, delta);
      hide Ordered;
      var q := MixRound(h, p, round, n - 1, delta);
      SlotOrdered(h, q, round, n - 1, delta);
      OrderedJoin(RoundStrings(h, p, round, n - 1, delta), SlotStrings(h, q, round, n - 1, delta),
                  p.counter, q.counter, q.counter + 1 + delta);
    }
  }

  lemma {:induction false} MixOrdered(h: Hasher, p: Pad, rounds: nat, delta: nat)
    requires Hashes32(h) && Wide(p) && p.counter + rounds * (|p.slots| * (1 + delta)) <= WORD64
    ensures MixRounds(h, p, rounds, delta).counter == p.counter + rounds * (|p.slots| * (1 + delta))
    ensures Ordered(MixStrings(h, p, rounds, delta), p.counter, p.counter + rounds * (|p.slots| * (1 + delta)))
    ensures Wide(MixRounds(h, p, rounds, delta))
  {
    hide Wide, RoundStrings, MixRound, Hashes32, CounterOf;
    if rounds > 0 {
      var each := |p.slots| * (1 + delta);
      assert rounds * each == (rounds - 1) * each + each;
      MixOrdered(h, p, rounds - 1, delta);
      hide Ordered;
      var q := MixRounds(h, p, rounds - 1, delta);
      RoundOrdered(h, q, rounds - 1, |q.slots|, delta);
      OrderedJoin(MixStrings(h, p, rounds - 1, delta), RoundStrings(h, q, rounds - 1, |q.slots|, delta),
                  p.counter, q.counter, q.counter + each);
    }
  }

  /** While the counter fits its 64 bits, the strings hashed in one run are pairwise different. */
  lemma {:induction false} StringsDistinct(h: Hasher, password: Bytes, salt: Bytes, slots: nat, rounds: nat, delta: nat)
    requires Hashes32(h) && slots > 0 && slots + rounds * (slots * (1 + delta)) <= WORD64
    ensures var strings := RunStrings(h, password, salt, slots, rounds, delta);
      forall j, k :: 0 <= j < k < |strings| ==> strings[j] != strings[k]
  {
    hide ExpandStrings, MixStrings, ExpandTo, MixRounds, CounterOf, Hashes32;
    Positive(rounds, slots * (1 + delta));
    ExpandOrdered(h, password, salt, slots);
    var p := ExpandTo(h, password, salt, slots);
    MixOrdered(h, p, rounds, delta);
    OrderedJoin(ExpandStrings(h, password, salt, slots), MixStrings(h, p, rounds, delta), 0, slots,
                slots + rounds * (slots * (1 + delta)));
  }

  lemma {:induction false} Positive(a: nat, b: nat)
    ensures a * b >= 0
  {
  }
}
