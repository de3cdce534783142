/**
 * Soft-fork deployment states: the "State transitions" of BIP 9 and the node's way of computing
 * them (Sources/Chain/ChainValidation.swift, lines 636 to 742; Sources/Consensus/SoftForks.swift).
 */
module Deployments {
  import opened Arith
  import opened Bits
  import opened HeaderTree
  import MedianTime

  datatype Deployment = Deployment(startTime: nat, timeout: nat)

  datatype ThresholdState = Defined | Started | LockedIn | Active | Failed

  /** Window length, signals needed in one window, and the span of the median time. */
  datatype Windows = Windows(size: nat, threshold: nat, span: nat) {
    predicate Proper() {
      size > 0 && span > 0
    }
  }

  /** `n` blocks fill whole windows. */
  predicate Whole(n: nat, size: nat)
    requires size > 0
  {
    n % size == 0
  }

  /** The largest number of blocks, at most `n`, that fill whole windows. */
  function WholeWindows(n: nat, size: nat): (b: nat)
    requires size > 0
    ensures b <= n && Whole(b, size)
  {
    DivBounds(n, size);
    MulMod(n / size, size);
    MulMonotone(0, n / size, size);
    n / size * size
  }

  /** How many of the last `n` blocks of a path signal `bit`. */
  function Signals(p: seq<Entry>, n: nat, bit: nat): nat {
    if n == 0 || p == [] then 0
    else Signals(p[..|p| - 1], n - 1, bit) + BitAt(p[|p| - 1].header.version, bit)
  }

  /** The state after the window that ends `p`, from the state before it. */
  function Transition(was: ThresholdState, p: seq<Entry>, bit: nat, d: Deployment, w: Windows): ThresholdState
    requires w.Proper()
  {
    match was
    case Defined =>
      if MedianPast(p, w.span) >= d.timeout then Failed
      else if MedianPast(p, w.span) >= d.startTime then Started
      else Defined
    case Started =>
      if MedianPast(p, w.span) >= d.timeout then Failed
      else if Signals(p, w.size, bit) >= w.threshold then LockedIn
      else Started
    case LockedIn => Active
    case Active => Active
    case Failed => Failed
  }

  /** BIP 9: genesis and its period are DEFINED; each window boundary makes one transition. */
  function Bip9State(p: seq<Entry>, bit: nat, d: Deployment, w: Windows): ThresholdState
    requires w.Proper() && Whole(|p|, w.size)
  {
    if p == [] then Defined
    else Transition(Bip9State(Before(p, w), bit, d, w), p, bit, d, w)
  }

  /** The path one window shorter. */
  function Before(p: seq<Entry>, w: Windows): (q: seq<Entry>)
    requires w.Proper() && Whole(|p|, w.size) && p != []
    ensures |q| < |p| && Whole(|q|, w.size) && |q| == |p| - w.size
  {
    LengthOfWindows(|p|, w.size);
    p[..|p| - w.size]
  }

  lemma {:induction false} LengthOfWindows(n: nat, size: nat)
    requires size > 0 && n > 0 && Whole(n, size)
    ensures n >= size && Whole(n - size, size)
  {
    DivBounds(n, size);
    var k := n / size;
    MulMonotone(k, 0, size);
    MulMonotone(1, k, size);
    assert n - size == (k - 1) * size;
    MulMod(k - 1, size);
  }

  /** What the node computes: it stops at a boundary before the start time, and at the first one. */
  function NodeState(p: seq<Entry>, bit: nat, d: Deployment, w: Windows): ThresholdState
    requires w.Proper() && Whole(|p|, w.size) && p != []
  {
    if |p| == 1 || MedianPast(p, w.span) < d.startTime || |p| <= w.size then Defined
    else Transition(NodeState(Before(p, w), bit, d, w), p, bit, d, w)
  }

  // ---- The two agree, and when ----

  /** Before the start time BIP 9 has made no transition, because the median time never falls. */
  lemma {:induction false} NotStarted(p: seq<Entry>, bit: nat, d: Deployment, w: Windows)
    requires w.Proper() && Whole(|p|, w.size) && p != [] && Timely(p, w.span) && d.startTime <= d.timeout
    requires MedianPast(p, w.span) < d.startTime
    ensures Bip9State(p, bit, d, w) == Defined
    decreases |p|
  {
    var q := Before(p, w);
    if q != [] {
      PrefixTimely(p, |q|, w.span);
      MedianMonotone(p, |q|, |p|, w.span);
      assert p[..|p|] == p;
      NotStarted(q, bit, d, w);
    }
  }

  lemma {:induction false} PrefixTimely(p: seq<Entry>, n: nat, span: nat)
    requires span > 0 && n <= |p| && Timely(p, span)
    ensures Timely(p[..n], span)
  {
    forall i {:trigger p[..n][..i]} | 0 < i < n
      ensures p[..n][i].header.time > MedianPast(p[..n][..i], span)
    {
      assert p[..n][..i] == p[..i];
    }
  }

  lemma {:induction false} StartsLate(p: seq<Entry>, bit: nat, d: Deployment, w: Windows)
    requires w.Proper() && Whole(|p|, w.size) && p != [] && Timely(p, w.span) && d.startTime <= d.timeout
    requires |p| >= w.size && MedianPast(p[..w.size], w.span) < d.startTime
    ensures NodeState(p, bit, d, w) == Bip9State(p, bit, d, w)
    decreases |p|
  {
    hide Transition, Timely;
    LengthOfWindows(|p|, w.size);
    assert p[..|p|] == p;
    if MedianPast(p, w.span) < d.startTime {
      NotStarted(p, bit, d, w);
    } else {
      var q := Before(p, w);
      PrefixTimely(p, |q|, w.span);
      LengthOfWindows(|q|, w.size);
      assert q[..w.size] == p[..w.size];
      StartsLate(q, bit, d, w);
    }
  }

  /** The node's state at every boundary of a path is the one BIP 9 defines. */
  ghost predicate MeetsBip9(p: seq<Entry>, bit: nat, d: Deployment, w: Windows)
    requires w.Proper()
  {
    forall n :: 0 < n <= |p| && Whole(n, w.size) ==> NodeState(p[..n], bit, d, w) == Bip9State(p[..n], bit, d, w)
  }

  /**
   * On accepted headers the node follows BIP 9 if and only if the deployment starts after the first
   * window: the node takes the first boundary for DEFINED whatever its median time.
   */
  lemma {:induction false} NodeMeetsBip9(p: seq<Entry>, bit: nat, d: Deployment, w: Windows)
    requires w.Proper() && |p| >= w.size && Timely(p, w.span) && d.startTime <= d.timeout
    ensures MeetsBip9(p, bit, d, w) <==> MedianPast(p[..w.size], w.span) < d.startTime
  {
    var first := p[..w.size];
    if MedianPast(first, w.span) < d.startTime {
      forall n | 0 < n <= |p| && Whole(n, w.size)
        ensures NodeState(p[..n], bit, d, w) == Bip9State(p[..n], bit, d, w)
      {
        LengthOfWindows(n, w.size);
        PrefixTimely(p, n, w.span);
        assert p[..n][..w.size] == first;
        StartsLate(p[..n], bit, d, w);
      }
    } else {
      MulMod(1, w.size);
      assert NodeState(first, bit, d, w) == Defined;
      assert Before(first, w) == [];
      assert Bip9State(first, bit, d, w) != Defined;
    }
  }

  // ---- The deployment that ships ----

  const GENESIS_TIME := 1_775_016_000
  const TEST_DUMMY := Deployment(1_199_145_601, 1_230_767_999)
  const TEST_DUMMY_BIT := 28
  const MAIN_WINDOWS := Windows(2016, 1916, 11)

  lemma {:induction false} FirstMedian(p: seq<Entry>, span: nat)
    requires span > 0 && p != [] && Timely(p, span)
    ensures MedianPast(p, span) >= p[0].header.time
  {
    hide Timely;
    MedianMonotone(p, 1, |p|, span);
    assert p[..|p|] == p;
    var t := NewestFirst(p[..1]);
    assert t == [p[0].header.time] && t[..1] == t;
  }

  /** A deployment over before genesis: BIP 9 has it FAILED at the first boundary, the node DEFINED. */
  lemma {:induction false} OverBeforeGenesis(p: seq<Entry>, bit: nat, d: Deployment, w: Windows)
    requires w.Proper() && |p| == w.size && Timely(p, w.span) && d.timeout <= p[0].header.time
    ensures Whole(|p|, w.size) && NodeState(p, bit, d, w) == Defined && Bip9State(p, bit, d, w) == Failed
  {
    hide Timely, MedianPast, Signals;
    MulMod(1, w.size);
    FirstMedian(p, w.span);
    assert Before(p, w) == [];
  }

  /** The one deployment there is, on every chain of accepted headers from the main network's genesis. */
  lemma {:induction false} TestDummyDiffers(p: seq<Entry>)
    requires |p| == MAIN_WINDOWS.size && Timely(p, MAIN_WINDOWS.span) && p[0].header.time == GENESIS_TIME
    ensures Whole(|p|, MAIN_WINDOWS.size)
    ensures NodeState(p, TEST_DUMMY_BIT, TEST_DUMMY, MAIN_WINDOWS) == Defined
    ensures Bip9State(p, TEST_DUMMY_BIT, TEST_DUMMY, MAIN_WINDOWS) == Failed
  {
    hide Timely, NodeState, Bip9State;
    OverBeforeGenesis(p, TEST_DUMMY_BIT, TEST_DUMMY, MAIN_WINDOWS);
  }

  /** A deployment whose start time is already past in the first window starts one window late. */
  lemma {:induction false} FirstWindowExample() returns (p: seq<Entry>)
    ensures var d, w := Deployment(0, 1000), Windows(2, 2, 11);
      |p| == 2 && Timely(p, 11) && NodeState(p, 0, d, w) == Defined && Bip9State(p, 0, d, w) == Started
  {
    var genesis := Entry([0], Header([], [], 0, 100, 0, 0, []), 0, 1);
    var next := Entry([1], Header([0], [], 0, 101, 0, 0, []), 1, 2);
    p := [genesis, next];
    assert p[..1] == [genesis];
    var w := Windows(2, 2, 11);
    assert NewestFirst(p[..1]) == [100];
    assert NewestFirst(p) == [101, 100];
    assert MedianPast(p[..1], 11) == 100 by { OneTimestamp(); }
    assert Before(p, w) == [];
    TwoTimestamps();
  }

  lemma {:induction false} OneTimestamp()
    ensures MedianTime.Compute([100], 11) == 100
  {
    assert [100][..1] == [100];
  }

  lemma {:induction false} TwoTimestamps()
    ensures MedianTime.Compute([101, 100], 11) == 101
  {
    var t: seq<nat> := [101, 100];
    assert t[..2] == t;
    assert t[1..] == [100];
    assert MedianTime.Sorted([100]) == [100];
    assert MedianTime.Insert(101, [100]) == [100, 101];
  }
}
