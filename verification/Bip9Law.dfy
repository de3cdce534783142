/**
 * The states of BIP 9 at every window boundary, told by median times and signals alone instead of
 * transition by transition, and the same for the node (Sources/Chain/ChainValidation.swift, lines
 * 636 to 742).
 */
module Bip9Law {
  import opened Arith
  import opened Bits
  import opened HeaderTree
  import opened Deployments

  /**
   * The window that ends at `q` locks the deployment in: it follows a boundary, not before `from`,
   * whose median time had reached the start time, it ends before the timeout, and enough of its
   * blocks signal.
   */
  predicate LocksAt(p: seq<Entry>, q: nat, from: nat, bit: nat, d: Deployment, w: Windows)
    requires w.Proper() && q <= |p|
  {
    && from > 0 && q >= from + w.size && Whole(q, w.size)
    && d.startTime <= MedianPast(p[..q - w.size], w.span)
    && MedianPast(p[..q], w.span) < d.timeout
    && w.threshold <= Signals(p[..q], w.size, bit)
  }

  function Signalling(p: seq<Entry>, n: nat, bit: nat): set<nat> {
    set k: nat | k < |p| && |p| <= k + n && BitAt(p[k].header.version, bit) == 1
  }

  lemma {:induction false} SignallingMore(p: seq<Entry>, n: nat, bit: nat)
    requires n > 0 && p != []
    ensures var last := |p| - 1;
      && last !in Signalling(p[..last], n - 1, bit)
      && Signalling(p, n, bit)
         == Signalling(p[..last], n - 1, bit) + if BitAt(p[last].header.version, bit) == 1 then {last} else {}
  {
    hide BitAt;
  }

  /** The signals counted are the blocks among the last `n` whose version has the bit set. */
  lemma {:induction false} SignalsCount(p: seq<Entry>, n: nat, bit: nat)
    ensures Signals(p, n, bit) == |Signalling(p, n, bit)|
  {
    hide Signalling, BitAt;
    if n > 0 && p != [] {
      SignalsCount(p[..|p| - 1], n - 1, bit);
      SignallingMore(p, n, bit);
    } else {
      NoSignalling(p, n, bit);
    }
  }

  lemma {:induction false} NoSignalling(p: seq<Entry>, n: nat, bit: nat)
    requires n == 0 || p == []
    ensures Signalling(p, n, bit) == {}
  {
    hide BitAt;
  }

  /** Some window locks in before the last boundary of the path. */
  ghost predicate LockedBefore(p: seq<Entry>, from: nat, bit: nat, d: Deployment, w: Windows)
    requires w.Proper()
  {
    exists q: nat :: q < |p| && LocksAt(p, q, from, bit, d, w)
  }

  ghost predicate Told(s: ThresholdState, p: seq<Entry>, from: nat, bit: nat, d: Deployment, w: Windows)
    requires w.Proper()
  {
    var time := MedianPast(p, w.span);
    var before, now := LockedBefore(p, from, bit, d, w), LocksAt(p, |p|, from, bit, d, w);
    && (s == Active <==> before)
    && (s == LockedIn <==> !before && now)
    && (s == Failed <==> !before && |p| >= from && d.timeout <= time)
    && (s == Started <==> !before && !now && |p| >= from && d.startTime <= time < d.timeout)
    && (s == Defined <==> |p| < from || time < d.startTime)
  }

  lemma {:induction false} SamePrefix(p: seq<Entry>, n: nat, q: nat, from: nat, bit: nat, d: Deployment, w: Windows)
    requires w.Proper() && q <= n <= |p|
    ensures LocksAt(p[..n], q, from, bit, d, w) == LocksAt(p, q, from, bit, d, w)
  {
    hide MedianPast, Signals;
    if w.size <= q {
      assert p[..n][..q - w.size] == p[..q - w.size] && p[..n][..q] == p[..q];
    }
  }

  lemma {:induction false} NoneBetween(n: nat, q: nat, size: nat)
    requires size > 0 && Whole(n, size) && n < q < n + size
    ensures !Whole(q, size)
  {
    DivBounds(n, size);
    var k := n / size;
    assert n == k * size;
    DivUnique(q, size, k);
  }

  /** What was locked in before is what was at the boundary before, or at it. */
  lemma {:induction false} LockedSplit(p: seq<Entry>, from: nat, bit: nat, d: Deployment, w: Windows)
    requires w.Proper() && Whole(|p|, w.size) && p != []
    ensures var b := Before(p, w);
      LockedBefore(p, from, bit, d, w) <==> LockedBefore(b, from, bit, d, w) || LocksAt(b, |b|, from, bit, d, w)
  {
    hide LocksAt;
    var b := Before(p, w);
    assert b == p[..|b|];
    forall q: nat | q <= |b|
      ensures LocksAt(b, q, from, bit, d, w) == LocksAt(p, q, from, bit, d, w)
    {
      SamePrefix(p, |b|, q, from, bit, d, w);
    }
    forall q: nat | |b| < q < |p|
      ensures !LocksAt(p, q, from, bit, d, w)
    {
      NotLocked(p, |b|, q, from, bit, d, w);
    }
  }

  lemma {:induction false} NotLocked(p: seq<Entry>, n: nat, q: nat, from: nat, bit: nat, d: Deployment, w: Windows)
    requires w.Proper() && Whole(n, w.size) && n < q < n + w.size && q <= |p|
    ensures !LocksAt(p, q, from, bit, d, w)
  {
    NoneBetween(n, q, w.size);
  }

  /** Nothing locks in unless the start time has been reached before, and it stays reached. */
  lemma {:induction false} LockedLate(p: seq<Entry>, q: nat, from: nat, bit: nat, d: Deployment, w: Windows)
    requires w.Proper() && Timely(p, w.span) && q <= |p| && LocksAt(p, q, from, bit, d, w)
    ensures |p| >= from + w.size && d.startTime <= MedianPast(p, w.span)
  {
    hide MedianPast, Timely, Signals;
    assert p[..|p|] == p;
    MedianMonotone(p, q - w.size, |p|, w.span);
  }

  lemma {:induction false} NotLockedEarly(p: seq<Entry>, from: nat, bit: nat, d: Deployment, w: Windows)
    requires w.Proper() && Timely(p, w.span) && (|p| < from + w.size || MedianPast(p, w.span) < d.startTime)
    ensures !LockedBefore(p, from, bit, d, w) && !LocksAt(p, |p|, from, bit, d, w)
  {
    hide MedianPast, Timely, LocksAt;
    forall q: nat | q <= |p|
      ensures !LocksAt(p, q, from, bit, d, w)
    {
      if LocksAt(p, q, from, bit, d, w) {
        LockedLate(p, q, from, bit, d, w);
      }
    }
  }

  /** One boundary on: what is told of the state before it is told of the state after it. */
  lemma {:induction false} TransitionTold(was: ThresholdState, p: seq<Entry>, from: nat, bit: nat, d: Deployment, w: Windows)
    requires w.Proper() && Whole(|p|, w.size) && Timely(p, w.span) && d.startTime <= d.timeout
    requires from > 0 && |p| >= from + w.size
    requires p != [] && Told(was, Before(p, w), from, bit, d, w)
    ensures Told(Transition(was, p, bit, d, w), p, from, bit, d, w)
  {
    hide MedianPast, Timely, Signals, LockedBefore;
    var b := Before(p, w);
    LockedSplit(p, from, bit, d, w);
    assert b == p[..|b|] && p[..|p|] == p && b[..|b|] == b;
    MedianMonotone(p, |b|, |p|, w.span);
  }

  /** The first boundary that counts: everything before it is DEFINED. */
  lemma {:induction false} FirstTold(p: seq<Entry>, from: nat, bit: nat, d: Deployment, w: Windows)
    requires w.Proper() && Timely(p, w.span) && d.startTime <= d.timeout && from <= |p| < from + w.size
    ensures Told(Transition(Defined, p, bit, d, w), p, from, bit, d, w)
  {
    hide MedianPast, Timely, Signals, LockedBefore, LocksAt;
    NotLockedEarly(p, from, bit, d, w);
  }

  /** The states of BIP 9, by their conditions. */
  lemma {:induction false} Bip9ByConditions(p: seq<Entry>, bit: nat, d: Deployment, w: Windows)
    requires w.Proper() && Whole(|p|, w.size) && p != [] && Timely(p, w.span) && d.startTime <= d.timeout
    ensures Told(Bip9State(p, bit, d, w), p, w.size, bit, d, w)
    decreases |p|
  {
    hide Told, Transition, Timely;
    LengthOfWindows(|p|, w.size);
    var b := Before(p, w);
    if b == [] {
      FirstTold(p, w.size, bit, d, w);
    } else {
      PrefixTimely(p, |b|, w.span);
      LengthOfWindows(|b|, w.size);
      Bip9ByConditions(b, bit, d, w);
      TransitionTold(Bip9State(b, bit, d, w), p, w.size, bit, d, w);
    }
  }

  /** Those of the node: the first boundary does not count. */
  lemma {:induction false} NodeByConditions(p: seq<Entry>, bit: nat, d: Deployment, w: Windows)
    requires w.Proper() && Whole(|p|, w.size) && p != [] && Timely(p, w.span) && d.startTime <= d.timeout
    ensures Told(NodeState(p, bit, d, w), p, 2 * w.size, bit, d, w)
    decreases |p|
  {
    hide Transition, Timely, LockedBefore, LocksAt;
    LengthOfWindows(|p|, w.size);
    if |p| <= w.size || MedianPast(p, w.span) < d.startTime {
      EarlyTold(p, bit, d, w);
    } else {
      hide Told;
      var b := Before(p, w);
      PrefixTimely(p, |b|, w.span);
      LengthOfWindows(|b|, w.size);
      NodeByConditions(b, bit, d, w);
      if |p| < 3 * w.size {
        SecondBoundary(|p|, w.size);
        FirstTold(p, 2 * w.size, bit, d, w);
      } else {
        TransitionTold(NodeState(b, bit, d, w), p, 2 * w.size, bit, d, w);
      }
    }
  }

  lemma {:induction false} EarlyTold(p: seq<Entry>, bit: nat, d: Deployment, w: Windows)
    requires w.Proper() && Timely(p, w.span) && d.startTime <= d.timeout
    requires |p| <= w.size || MedianPast(p, w.span) < d.startTime
    ensures Told(Defined, p, 2 * w.size, bit, d, w)
  {
    hide MedianPast, Timely, LockedBefore, LocksAt;
    NotLockedEarly(p, 2 * w.size, bit, d, w);
  }

  lemma {:induction false} SecondBoundary(n: nat, size: nat)
    requires size > 0 && Whole(n, size) && size < n < 3 * size
    ensures n == 2 * size
  {
    MulMod(1, size);
    MulMod(2, size);
    if n < 2 * size {
      NoneBetween(size, n, size);
    } else if n > 2 * size {
      NoneBetween(2 * size, n, size);
    }
  }
}
