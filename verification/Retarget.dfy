/** The difficulty retarget (Sources/Consensus/DifficultyRetarget.swift). */
module Retarget {
  import opened Arith
  import opened Base
  import opened Bits
  import opened Target256
  import opened Compact
  import MedianTime

  const INT64_MAX := 0x7FFF_FFFF_FFFF_FFFF

  datatype BlockInfo = BlockInfo(time: nat, chainwork: Target256)

  datatype PowParams = PowParams(spacing: Word, minTimespan: nat, maxTimespan: nat, powLimit: Target256, powBits: Bits32) {
    /** Every network: a positive window of time, and the limit in both its forms. */
    predicate Proper() {
      0 < minTimespan <= maxTimespan <= INT64_MAX && Decoded(powBits) == powLimit.Value()
    }
  }

  function Clamped(elapsed: int, p: PowParams): int {
    Min(Max(elapsed, p.minTimespan), p.maxTimespan)
  }

  /** The compact target for a hashrate: 2^256 / hashrate - 1 within the limit, else the limit. */
  function BitsFor(hashrate: nat, p: PowParams): nat
    requires hashrate < LIMIT
  {
    if hashrate == 0 then p.powBits
    else
      TargetAgrees(hashrate);
      if LIMIT / hashrate - 1 > p.powLimit.Value() then p.powBits else Encoded(LIMIT / hashrate - 1)
  }

  /** The new target from the work of the window and the time it took. */
  function NewBits(work: nat, elapsed: int, p: PowParams): nat
    requires p.Proper() && work < LIMIT
  {
    QuotientWithin(work, Clamped(elapsed, p));
    BitsFor(work / Clamped(elapsed, p), p)
  }

  /** Work over the window times the spacing, both as 256-bit words compute them. */
  function WindowWork(first: nat, last: nat, spacing: nat): nat {
    (if last >= first then last - first else last + LIMIT - first) * spacing % LIMIT
  }

  /**
   * `bits` is what `work` hashes in `span` seconds ask for: the target 2^256 / hashrate - 1, encoded,
   * so below it by less than one part in 2^15; or the limit, if that target is above it.
   */
  predicate AsksFor(bits: nat, work: nat, span: nat, p: PowParams)
    requires span > 0 && work < LIMIT
  {
    QuotientWithin(work, span);
    var hashrate := work / span;
    if hashrate == 0 || LIMIT / hashrate - 1 > p.powLimit.Value() then bits == p.powBits
    else
      var target := LIMIT / hashrate - 1;
      && Decoded(bits) == Rounded(target)
      && Decoded(bits) <= target && (target > 0 ==> (target - Decoded(bits)) * 0x8000 < target)
  }

  /** What is asked for is the work over the time it took, or over the bound on that time it passed. */
  ghost predicate AsksForWindow(bits: nat, work: nat, elapsed: int, p: PowParams)
    requires p.Proper() && work < LIMIT
  {
    && (p.minTimespan <= elapsed <= p.maxTimespan ==> AsksFor(bits, work, elapsed, p))
    && (elapsed < p.minTimespan ==> AsksFor(bits, work, p.minTimespan, p))
    && (elapsed > p.maxTimespan ==> AsksFor(bits, work, p.maxTimespan, p))
  }

  method Retarget(first: BlockInfo, last: BlockInfo, p: PowParams) returns (bits: nat)
    requires p.Proper() && first.time <= INT64_MAX && last.time <= INT64_MAX
    ensures bits == NewBits(WindowWork(first.chainwork.Value(), last.chainwork.Value(), p.spacing), last.time - first.time, p)
    ensures var work := (last.chainwork.Value() - first.chainwork.Value()) * p.spacing;
      0 <= work < LIMIT ==> AsksForWindow(bits, work, last.time - first.time, p)
  {
    hide WindowWork, Encoded, Decoded, DividedByResult, AsksForWindow, Target256.Less, Target256.IsZero;
    WindowAsks(first.chainwork.Value(), last.chainwork.Value(), last.time - first.time, p);
    var workDiff := Subtract(last.chainwork, first.chainwork);
    var work := Multiplied(workDiff, p.spacing);
    WorkAgrees(first.chainwork.Value(), last.chainwork.Value(), p.spacing);
    var timespan := last.time - first.time;
    timespan := Max(timespan, p.minTimespan);
    timespan := Min(timespan, p.maxTimespan);
    ExactUpToTopBit(work, timespan);
    var hashrate, _ := DividedBy(work, timespan);
    ZeroMeaning(hashrate);
    if hashrate.IsZero() {
      return p.powBits;
    }
    var inverse := InversePow2(hashrate);
    TargetAgrees(hashrate.Value());
    SmallValues();
    var target := Subtract(inverse, ONE);
    LessMeaning(p.powLimit, target);
    if p.powLimit.Less(target) {
      return p.powBits;
    }
    bits := ToCompact(target);
  }

  lemma {:induction false} WindowAsks(first: nat, last: nat, elapsed: int, p: PowParams)
    requires p.Proper() && first < LIMIT && last < LIMIT
    ensures var work := (last - first) * p.spacing;
      0 <= work < LIMIT ==> AsksForWindow(NewBits(WindowWork(first, last, p.spacing), elapsed, p), work, elapsed, p)
  {
    hide NewBits, AsksForWindow, Decoded;
    var work := (last - first) * p.spacing;
    if 0 <= work < LIMIT {
      PlainWork(first, last, p.spacing);
      NewBitsAsk(work, elapsed, p);
    }
  }

  lemma {:induction false} PlainWork(first: nat, last: nat, spacing: nat)
    requires first < LIMIT && last < LIMIT && 0 <= (last - first) * spacing < LIMIT
    ensures WindowWork(first, last, spacing) == (last - first) * spacing
  {
    if last < first {
      MulMonotone(last - first, -1, spacing);
      assert spacing == 0;
      ModUnique(0, 0, 0);
    } else {
      ModUnique((last - first) * spacing, 0, (last - first) * spacing);
    }
  }

  lemma {:induction false} NewBitsAsk(work: nat, elapsed: int, p: PowParams)
    requires p.Proper() && work < LIMIT
    ensures AsksForWindow(NewBits(work, elapsed, p), work, elapsed, p)
  {
    hide Encoded, Decoded;
    var span := ClampedPositive(elapsed, p);
    BitsAsk(work, span, p);
    hide AsksFor, BitsFor;
  }

  lemma {:induction false} BitsAsk(work: nat, span: nat, p: PowParams)
    requires p.Proper() && work < LIMIT && span > 0
    ensures 0 <= work / span < LIMIT && AsksFor(BitsFor(work / span, p), work, span, p)
  {
    hide Encoded, Decoded;
    QuotientWithin(work, span);
    var hashrate := work / span;
    if hashrate != 0 && LIMIT / hashrate - 1 <= p.powLimit.Value() {
      RoundTrip(LIMIT / hashrate - 1);
      RoundedClose(LIMIT / hashrate - 1);
    }
  }

  lemma {:induction false} WorkAgrees(first: nat, last: nat, spacing: nat)
    requires first < LIMIT && last < LIMIT
    ensures WindowWork(first, last, spacing) == (last + LIMIT - first) % LIMIT * spacing % LIMIT
  {
    if last >= first {
      ModUnique(last + LIMIT - first, 1, last - first);
    } else {
      ModUnique(last + LIMIT - first, 0, last + LIMIT - first);
    }
  }

  /** With an inverse of zero the subtraction wraps to the largest target. */
  lemma {:induction false} TargetAgrees(hashrate: nat)
    requires 0 < hashrate < LIMIT
    ensures LIMIT / hashrate >= 1
    ensures ((if hashrate == 1 then 0 else LIMIT / hashrate) + LIMIT - 1) % LIMIT == LIMIT / hashrate - 1
  {
    QuotientAtLeast(LIMIT, hashrate, 1);
    InverseQuotient(hashrate);
    if hashrate == 1 {
      DivModUnique(LIMIT, 1, LIMIT, 0);
      ModUnique(LIMIT - 1, 0, LIMIT - 1);
    } else {
      ModUnique(LIMIT / hashrate + LIMIT - 1, 1, LIMIT / hashrate - 1);
    }
  }

  // ---- What the retarget guarantees ----

  /** The decoded target is never easier than the limit. */
  lemma {:induction false} WithinLimit(work: nat, elapsed: int, p: PowParams)
    requires p.Proper() && work < LIMIT
    ensures Decoded(NewBits(work, elapsed, p)) <= p.powLimit.Value()
  {
    hide Encoded, Decoded, Clamped;
    var span := ClampedPositive(elapsed, p);
    var hashrate := work / span;
    QuotientWithin(work, span);
    if hashrate != 0 && LIMIT / hashrate - 1 <= p.powLimit.Value() {
      RoundTrip(LIMIT / hashrate - 1);
      RoundedClose(LIMIT / hashrate - 1);
    }
  }

  lemma {:induction false} ClampedPositive(elapsed: int, p: PowParams) returns (span: nat)
    requires p.Proper()
    ensures span == Clamped(elapsed, p) && span > 0
  {
    hide Decoded;
    span := Clamped(elapsed, p);
  }

  lemma {:induction false} QuotientWithin(work: nat, span: nat)
    requires span > 0 && work < LIMIT
    ensures 0 <= work / span < LIMIT
    ensures work / span > 0 ==> 1 <= LIMIT / (work / span) <= LIMIT
  {
    DivBounds(work, span);
    MulMonotone(1, span, work / span);
    var h := work / span;
    if h > 0 {
      QuotientAtLeast(LIMIT, h, 1);
      DivBounds(LIMIT, h);
      MulMonotone(1, h, LIMIT / h);
    }
  }

  lemma {:induction false} FewerHashesEasier(a: nat, b: nat)
    requires 0 < a <= b <= LIMIT
    ensures LIMIT / b <= LIMIT / a
  {
    DivBounds(LIMIT, b);
    MulMonotone(a, b, LIMIT / b);
    QuotientAtLeast(LIMIT, a, LIMIT / b);
  }

  /** A lower measured hashrate never gives a harder target. */
  lemma {:induction false} MonotoneInHashrate(a: nat, b: nat, p: PowParams)
    requires p.Proper() && a <= b < LIMIT
    ensures Decoded(BitsFor(b, p)) <= Decoded(BitsFor(a, p))
  {
    hide Encoded, Decoded;
    if b > 0 {
      TargetAgrees(b);
      QuotientWithin(b, 1);
      DivModUnique(b, 1, b, 0);
      if LIMIT / b - 1 <= p.powLimit.Value() {
        RoundTrip(LIMIT / b - 1);
        RoundedClose(LIMIT / b - 1);
      }
    }
    if a > 0 {
      TargetAgrees(a);
      QuotientWithin(a, 1);
      DivModUnique(a, 1, a, 0);
      FewerHashesEasier(a, b);
      if LIMIT / a - 1 <= p.powLimit.Value() {
        RoundTrip(LIMIT / a - 1);
        RoundedMonotone(LIMIT / b - 1, LIMIT / a - 1);
      }
    }
  }

  /** The longer the window took, the easier the target, never harder. */
  lemma {:induction false} MonotoneInTime(work: nat, elapsed: int, longer: int, p: PowParams)
    requires p.Proper() && work < LIMIT && elapsed <= longer
    ensures Decoded(NewBits(work, elapsed, p)) <= Decoded(NewBits(work, longer, p))
  {
    hide Encoded, Decoded;
    var s := ClampedPositive(elapsed, p);
    var t := ClampedPositive(longer, p);
    assert s <= t;
    DivBounds(work, t);
    MulMonotone(s, t, work / t);
    QuotientAtLeast(work, s, work / t);
    QuotientWithin(work, s);
    MonotoneInHashrate(work / t, work / s, p);
  }

  /** More work in the same time never makes the target easier. */
  lemma {:induction false} MonotoneInWork(work: nat, more: nat, elapsed: int, p: PowParams)
    requires p.Proper() && work <= more < LIMIT
    ensures Decoded(NewBits(more, elapsed, p)) <= Decoded(NewBits(work, elapsed, p))
  {
    hide Encoded, Decoded, Clamped;
    var s := ClampedPositive(elapsed, p);
    DivMonotone(work, more, s);
    QuotientWithin(more, s);
    MonotoneInHashrate(work / s, more / s, p);
  }

  /** Inside the limit the encoded target is within one part in 2^15 of 2^256 / hashrate - 1. */
  lemma {:induction false} CloseToHashrate(work: nat, elapsed: int, p: PowParams)
    requires p.Proper() && work < LIMIT
    ensures var hashrate := work / Clamped(elapsed, p);
      hashrate > 0 && 0 < LIMIT / hashrate - 1 <= p.powLimit.Value() ==>
        var target, decoded := LIMIT / hashrate - 1, Decoded(NewBits(work, elapsed, p));
        decoded <= target && (target - decoded) * 0x8000 < target
  {
    hide Encoded, Decoded, Clamped;
    var span := ClampedPositive(elapsed, p);
    var hashrate := work / span;
    QuotientWithin(work, span);
    if hashrate > 0 && 0 < LIMIT / hashrate - 1 <= p.powLimit.Value() {
      RoundTrip(LIMIT / hashrate - 1);
      RoundedClose(LIMIT / hashrate - 1);
    }
  }

  // ---- Suitable blocks and work ----

  /** Which block of median time is meant when times are equal: the parent if it is one. */
  function MedianBlock(block: BlockInfo, parent: BlockInfo, grandparent: BlockInfo): BlockInfo {
    var low, high := if grandparent.time > block.time then block else grandparent,
                     if grandparent.time > block.time then grandparent else block;
    if parent.time < low.time then low else if parent.time > high.time then high else parent
  }

  /** Three swaps leave a block of median time in the middle. */
  method GetSuitableBlock(block: BlockInfo, parent: BlockInfo, grandparent: BlockInfo) returns (r: BlockInfo)
    ensures r == MedianBlock(block, parent, grandparent)
    ensures r in [block, parent, grandparent]
    ensures r.time == MedianTime.Compute([block.time, parent.time, grandparent.time], 3)
  {
    var x, y, z := grandparent, parent, block;
    if x.time > z.time {
      x, z := z, x;
    }
    if x.time > y.time {
      x, y := y, x;
    }
    if y.time > z.time {
      y, z := z, y;
    }
    MedianOfThree(block.time, parent.time, grandparent.time, x.time, y.time, z.time);
    return y;
  }

  lemma {:induction false} MedianOfThree(a: nat, b: nat, c: nat, x: nat, y: nat, z: nat)
    requires x <= y <= z && Rearranged(a, b, c, x, y, z)
    ensures MedianTime.Compute([a, b, c], 3) == y
  {
    var t: seq<nat> := [a, b, c];
    assert t[..3] == t;
    MedianTime.RankByCount(t, 1, y);
    MedianTime.RankByCount(t, 1, y + 1);
    CountThree(a, b, c, y);
    CountThree(a, b, c, y + 1);
  }

  predicate Rearranged(a: nat, b: nat, c: nat, x: nat, y: nat, z: nat) {
    || (x == a && ((y == b && z == c) || (y == c && z == b)))
    || (x == b && ((y == a && z == c) || (y == c && z == a)))
    || (x == c && ((y == a && z == b) || (y == b && z == a)))
  }

  function Under(x: nat, m: nat): nat {
    if x < m then 1 else 0
  }

  lemma {:induction false} CountThree(a: nat, b: nat, c: nat, m: nat)
    ensures MedianTime.CountBelow([a, b, c], m) == Under(a, m) + Under(b, m) + Under(c, m)
  {
    var t: seq<nat> := [a, b, c];
    assert t[1..] == [b, c];
    var u: seq<nat> := [b, c];
    assert u[1..] == [c];
    var v: seq<nat> := [c];
    assert v[1..] == [];
    assert MedianTime.CountBelow(v, m) == Under(c, m);
    assert MedianTime.CountBelow(u, m) == Under(b, m) + MedianTime.CountBelow(v, m);
  }

  /** The expected number of hashes for a compact target. */
  function WorkOf(bits: nat): nat {
    if Decoded(bits) == 0 then 0 else LIMIT / (Decoded(bits) + 1)
  }

  method TargetToWork(bits: Bits32) returns (work: Target256)
    ensures work.Value() == WorkOf(bits)
  {
    hide Decoded;
    var target := FromCompact(bits);
    ZeroMeaning(target);
    SmallValues();
    if target.IsZero() {
      return ZERO;
    }
    DecodedBound(bits);
    ModUnique(target.Value() + 1, 0, target.Value() + 1);
    var next := Add(target, ONE);
    ZeroMeaning(next);
    work := InversePow2(next);
  }

  /** No compact value decodes to the largest 256-bit number. */
  lemma {:induction false} DecodedBound(bits: nat)
    ensures Decoded(bits) < LIMIT - 1
  {
    hide Pow2, ShiftRight;
    var exp, m := bits / EXPONENT, bits % SIGN;
    if exp <= 3 {
      ShiftShrinks(m, 8 * (3 - exp));
    } else {
      PowAdd(8, 8 * (exp - 4));
      PowByte();
      MulAssoc(m, 256, Pow2(8 * (exp - 4)));
      MulAssoc(256, m, Pow2(8 * (exp - 4)));
      MultipleBelow(m * Pow2(8 * (exp - 4)));
    }
  }

  lemma {:induction false} MultipleBelow(y: nat)
    ensures 256 * y % LIMIT < LIMIT - 1
  {
    DivModLaw(256 * y, LIMIT);
    NotOneShort(y, 256 * y / LIMIT, 256 * y % LIMIT);
  }

  lemma {:induction false} NotOneShort(y: nat, q: nat, r: nat)
    requires 256 * y == q * LIMIT + r && r < LIMIT
    ensures r < LIMIT - 1
  {
  }

  /** Every target a header may carry stands for at least one hash of work. */
  lemma {:induction false} WorkPositive(bits: nat)
    requires Decoded(bits) > 0
    ensures WorkOf(bits) > 0
  {
    hide Decoded;
    DecodedBound(bits);
    QuotientAtLeast(LIMIT, Decoded(bits) + 1, 1);
  }
}
