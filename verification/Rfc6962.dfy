/**
 * The tree of section 2.1 of RFC 6962 over the same hash inputs, and when its root is the one computed
 * here (Sources/Consensus/MerkleTree.swift).
 */
module Rfc6962 {
  import opened Base
  import opened Bits
  import opened MerkleTree

  /** How many elements go left: the largest power of two below n (see SplitMeaning). */
  function Split(n: nat): nat
    requires n > 1
  {
    Pow2(Levels(n) - 1)
  }

  lemma {:induction false} LevelsMeaning(n: nat)
    requires n > 0
    ensures n <= Pow2(Levels(n))
    ensures n > 1 ==> Levels(n) > 0 && Pow2(Levels(n) - 1) < n
  {
    if n > 1 {
      LevelsMeaning((n + 1) / 2);
      PowNext(Levels((n + 1) / 2));
      if (n + 1) / 2 > 1 {
        PowNext(Levels((n + 1) / 2) - 1);
      }
    }
  }

  lemma {:induction false} SplitMeaning(n: nat)
    requires n > 1
    ensures 0 < Split(n) < n <= 2 * Split(n)
  {
    LevelsMeaning(n);
    PowNext(Levels(n) - 1);
  }

  lemma {:induction false} LevelsOfPower(j: nat)
    ensures Levels(Pow2(j)) == j
  {
    if j > 0 {
      LevelsOfPower(j - 1);
      PowNext(j - 1);
    }
  }

  /** Up to 2^j there are at most j levels. */
  lemma {:induction false} LevelsAtMost(n: nat, j: nat)
    requires 0 < n <= Pow2(j)
    ensures Levels(n) <= j
  {
    if n > 1 {
      if j > 0 {
        PowNext(j - 1);
        LevelsAtMost((n + 1) / 2, j - 1);
      }
    }
  }

  /** The root over hashes of leaves. */
  function RfcTop(h: Hasher, level: seq<Hash>): Hash
    requires level != []
    decreases |level|
  {
    if |level| == 1 then level[0]
    else
      SplitMeaning(|level|);
      var k := Split(|level|);
      h(NodeInput(RfcTop(h, level[..k]), RfcTop(h, level[k..])))
  }

  /** The merkle tree hash of section 2.1. */
  function RfcRoot(h: Hasher, data: seq<Hash>): Hash
    decreases |data|
  {
    if data == [] then h([])
    else if |data| == 1 then h(LeafInput(data[0]))
    else
      SplitMeaning(|data|);
      var k := Split(|data|);
      h(NodeInput(RfcRoot(h, data[..k]), RfcRoot(h, data[k..])))
  }

  /** All nodes hashed on the way. */
  function RfcInputs(h: Hasher, level: seq<Hash>): set<Bytes>
    decreases |level|
  {
    if |level| <= 1 then {}
    else
      SplitMeaning(|level|);
      var k := Split(|level|);
      {NodeInput(RfcTop(h, level[..k]), RfcTop(h, level[k..]))} + RfcInputs(h, level[..k]) + RfcInputs(h, level[k..])
  }

  lemma {:induction false} RootNode(h: Hasher, data: seq<Hash>)
    requires |data| > 1
    ensures 0 < Split(|data|) < |data|
    ensures var k := Split(|data|);
      RfcRoot(h, data) == h(NodeInput(RfcRoot(h, data[..k]), RfcRoot(h, data[k..])))
  {
    SplitMeaning(|data|);
    hide Split, NodeInput;
  }

  lemma {:induction false} RootLeaf(h: Hasher, data: seq<Hash>)
    requires |data| == 1
    ensures RfcRoot(h, data) == h(LeafInput(data[0]))
    ensures RfcTop(h, Hashed(h, LeafInputs(data))) == h(LeafInput(data[0]))
  {
    hide LeafInput;
  }

  lemma {:induction false} RootIsTop(h: Hasher, data: seq<Hash>)
    requires data != []
    ensures RfcRoot(h, data) == RfcTop(h, Hashed(h, LeafInputs(data)))
    decreases |data|
  {
    hide *;
    if |data| == 1 {
      RootLeaf(h, data);
    } else {
      var leaves, k := Hashed(h, LeafInputs(data)), Split(|data|);
      RootNode(h, data);
      RfcNode(h, leaves);
      RootIsTop(h, data[..k]);
      RootIsTop(h, data[k..]);
      assert leaves[..k] == Hashed(h, LeafInputs(data[..k]));
      assert leaves[k..] == Hashed(h, LeafInputs(data[k..]));
    }
  }

  // ---- Padded levels ----

  /** The level `j` steps up, each odd level padded, single nodes included. */
  function Ups(h: Hasher, level: seq<Hash>, j: nat): seq<Hash>
    decreases j
  {
    if j == 0 then level else Ups(h, Up(h, level), j - 1)
  }

  /** All pairs hashed on the way. */
  function UpInputs(h: Hasher, level: seq<Hash>, j: nat): set<Bytes>
    decreases j
  {
    if j == 0 then {} else (set x | x in Pairs(h, level)) + UpInputs(h, Up(h, level), j - 1)
  }

  lemma {:induction false} TopIsUps(h: Hasher, level: seq<Hash>)
    requires level != []
    ensures Ups(h, level, Levels(|level|)) == [Top(h, level)]
    ensures UpInputs(h, level, Levels(|level|)) == InputsAbove(h, level)
    decreases |level|
  {
    hide Pairs, Hashed;
    if |level| > 1 {
      TopIsUps(h, Up(h, level));
    }
  }

  lemma {:induction false} PairsFirst(h: Hasher, level: seq<Hash>)
    requires |level| > 1
    ensures Pairs(h, level) == [NodeInput(level[0], level[1])] + Pairs(h, level[2..])
  {
  }

  /** An even number of nodes in front keeps to itself. */
  lemma {:induction false} PairsSplit(h: Hasher, a: seq<Hash>, b: seq<Hash>)
    requires |a| % 2 == 0
    ensures Pairs(h, a + b) == Pairs(h, a) + Pairs(h, b)
    decreases |a|
  {
    if a == [] {
      assert a + b == b;
    } else {
      PairsSplit(h, a[2..], b);
      PairsFirst(h, a);
      PairsFirst(h, a + b);
      hide *;
      assert (a + b)[2..] == a[2..] + b && (a + b)[0] == a[0] && (a + b)[1] == a[1];
      var first, middle, last := [NodeInput(a[0], a[1])], Pairs(h, a[2..]), Pairs(h, b);
      assert first + middle + last == first + (middle + last);
    }
  }

  lemma {:induction false} UpSplit(h: Hasher, a: seq<Hash>, b: seq<Hash>)
    requires |a| % 2 == 0
    ensures Up(h, a + b) == Up(h, a) + Up(h, b)
    ensures (set x | x in Pairs(h, b)) <= (set x | x in Pairs(h, a + b))
  {
    hide Pairs, Hashed;
    PairsSplit(h, a, b);
    var l, r := Up(h, a + b), Up(h, a) + Up(h, b);
    forall i | 0 <= i < |l|
      ensures l[i] == r[i]
    {
    }
  }

  /** A front of 2^j nodes keeps to itself for j steps, and comes to one node. */
  lemma {:induction false} UpsSplit(h: Hasher, a: seq<Hash>, b: seq<Hash>, j: nat)
    requires |a| == Pow2(j)
    ensures Ups(h, a + b, j) == Ups(h, a, j) + Ups(h, b, j) && |Ups(h, a, j)| == 1
    ensures UpInputs(h, b, j) <= UpInputs(h, a + b, j)
    decreases j
  {
    hide Pairs, Hashed;
    if j > 0 {
      PowNext(j - 1);
      UpSplit(h, a, b);
      UpsSplit(h, Up(h, a), Up(h, b), j - 1);
    }
  }

  /** At most 2^j nodes come to one in j steps. */
  lemma {:induction false} UpsSingle(h: Hasher, level: seq<Hash>, j: nat)
    requires 0 < |level| <= Pow2(j)
    ensures |Ups(h, level, j)| == 1
    decreases j
  {
    hide Pairs, Hashed;
    if j > 0 {
      PowNext(j - 1);
      UpsSingle(h, Up(h, level), j - 1);
    }
  }

  lemma {:induction false} UpsLast(h: Hasher, level: seq<Hash>, j: nat)
    ensures Ups(h, level, j + 1) == Up(h, Ups(h, level, j))
    ensures UpInputs(h, level, j + 1) == UpInputs(h, level, j) + set x | x in Pairs(h, Ups(h, level, j))
    decreases j
  {
    hide Pairs, Hashed;
    if j > 0 {
      UpsLast(h, Up(h, level), j - 1);
    }
  }

  /** With more than 2^j nodes and at most twice as many, the top joins the two parts. */
  lemma {:induction false} UpsJoin(h: Hasher, level: seq<Hash>, j: nat)
    requires Pow2(j) < |level| <= 2 * Pow2(j)
    ensures var a, b := level[..Pow2(j)], level[Pow2(j)..];
      && |Ups(h, a, j)| == 1 && |Ups(h, b, j)| == 1
      && Ups(h, level, j + 1) == [h(NodeInput(Ups(h, a, j)[0], Ups(h, b, j)[0]))]
      && NodeInput(Ups(h, a, j)[0], Ups(h, b, j)[0]) in UpInputs(h, level, j + 1)
      && UpInputs(h, b, j) <= UpInputs(h, level, j + 1)
  {
    var a, b := level[..Pow2(j)], level[Pow2(j)..];
    assert a + b == level;
    UpsSplit(h, a, b, j);
    UpsSingle(h, b, j);
    UpsLast(h, level, j);
    hide Ups, UpInputs, NodeInput;
    JoinTwo(h, Ups(h, a, j)[0], Ups(h, b, j)[0]);
    assert Ups(h, a, j) + Ups(h, b, j) == [Ups(h, a, j)[0], Ups(h, b, j)[0]];
  }

  lemma {:induction false} JoinTwo(h: Hasher, x: Hash, y: Hash)
    ensures Pairs(h, [x, y]) == [NodeInput(x, y)] && Up(h, [x, y]) == [h(NodeInput(x, y))]
  {
    assert [x, y][2..] == [];
  }

  // ---- Powers of two ----

  lemma {:induction false} SplitIs(n: nat, j: nat)
    requires j > 0 && n > 1 && Levels(n) == j
    ensures Split(n) == Pow2(j - 1)
  {
  }

  lemma {:induction false} RfcNode(h: Hasher, level: seq<Hash>)
    requires |level| > 1
    ensures 0 < Split(|level|) < |level|
    ensures var k := Split(|level|);
      && RfcTop(h, level) == h(NodeInput(RfcTop(h, level[..k]), RfcTop(h, level[k..])))
      && NodeInput(RfcTop(h, level[..k]), RfcTop(h, level[k..])) in RfcInputs(h, level)
      && RfcInputs(h, level[..k]) <= RfcInputs(h, level) && RfcInputs(h, level[k..]) <= RfcInputs(h, level)
  {
    SplitMeaning(|level|);
    hide Split, NodeInput;
  }

  lemma {:induction false} HalfPower(n: nat, j: nat)
    requires n == Pow2(j)
    ensures j == 0 ==> n == 1
    ensures j > 0 ==> n > 1 && n == 2 * Pow2(j - 1) && Pow2(j - 1) < n && Levels(n) == j
  {
    hide Levels;
    LevelsOfPower(j);
  }

  lemma {:induction false} OneSame(h: Hasher, level: seq<Hash>)
    requires |level| == 1
    ensures Ups(h, level, 0) == [RfcTop(h, level)]
  {
    assert level == [level[0]];
  }

  /** For 2^j leaves the two trees are the same. */
  lemma {:induction false} PowerSame(h: Hasher, level: seq<Hash>, j: nat)
    requires |level| == Pow2(j)
    ensures Ups(h, level, j) == [RfcTop(h, level)]
    decreases j
  {
    hide *;
    HalfPower(|level|, j);
    if j == 0 {
      OneSame(h, level);
    } else {
      SplitIs(|level|, j);
      RfcNode(h, level);
      UpsJoin(h, level, j - 1);
      PowerSame(h, level[..Pow2(j - 1)], j - 1);
      PowerSame(h, level[Pow2(j - 1)..], j - 1);
    }
  }

  // ---- All others ----

  lemma {:induction false} UpsHeight(h: Hasher, inputs: set<Bytes>, level: seq<Hash>, k: nat, j: nat)
    requires Hashes32(h) && AllAtHeight(h, inputs, level, k) && UpInputs(h, level, j) <= inputs
    ensures AllAtHeight(h, inputs, Ups(h, level, j), k + j)
    decreases j
  {
    hide Pairs, Hashed, AtHeight;
    if j > 0 {
      forall x | x in Pairs(h, level)
        ensures x in inputs
      {
        assert x in UpInputs(h, level, j);
      }
      UpHeight(h, inputs, level, k);
      UpsHeight(h, inputs, Up(h, level), k + 1, j - 1);
    }
  }

  lemma {:induction false} RfcHeight(h: Hasher, inputs: set<Bytes>, level: seq<Hash>)
    requires Hashes32(h) && level != [] && AllAtHeight(h, inputs, level, 0) && RfcInputs(h, level) <= inputs
    ensures AtHeight(h, inputs, RfcTop(h, level), Levels(|level|)) && |RfcTop(h, level)| == 32
    decreases |level|
  {
    hide *;
    if |level| == 1 {
      LeafHeight(h, inputs, level);
    } else {
      LevelsMeaning(|level|);
      var j := Levels(|level|) - 1;
      SplitIs(|level|, j + 1);
      LevelsOfPower(j);
      RfcNode(h, level);
      var k := Split(|level|);
      PartsAtHeight(h, inputs, level, k, 0);
      RfcHeight(h, inputs, level[..k]);
      RfcHeight(h, inputs, level[k..]);
      NodeHeight(h, inputs, RfcTop(h, level[..k]), RfcTop(h, level[k..]), j);
    }
  }

  lemma {:induction false} LeafHeight(h: Hasher, inputs: set<Bytes>, level: seq<Hash>)
    requires |level| == 1 && AllAtHeight(h, inputs, level, 0)
    ensures AtHeight(h, inputs, RfcTop(h, level), Levels(1)) && |RfcTop(h, level)| == 32
  {
    hide AtHeight;
  }

  lemma {:induction false} PartsAtHeight(h: Hasher, inputs: set<Bytes>, level: seq<Hash>, k: nat, height: nat)
    requires k <= |level| && AllAtHeight(h, inputs, level, height)
    ensures AllAtHeight(h, inputs, level[..k], height) && AllAtHeight(h, inputs, level[k..], height)
  {
    hide AtHeight;
  }

  lemma {:induction false} NodeHeight(h: Hasher, inputs: set<Bytes>, left: Hash, right: Hash, k: nat)
    requires Hashes32(h) && AtHeight(h, inputs, left, k) && |left| == 32 && NodeInput(left, right) in inputs
    ensures AtHeight(h, inputs, h(NodeInput(left, right)), k + 1) && |h(NodeInput(left, right))| == 32
  {
    hide NodeInput;
  }

  lemma {:induction false} DifferentHeights(h: Hasher, inputs: set<Bytes>, x: Hash, y: Hash, j: nat, k: nat)
    requires NoCollision(h, inputs) && AtHeight(h, inputs, x, j) && AtHeight(h, inputs, y, k) && j != k
    ensures x != y
  {
    if x == y {
      HeightUnique(h, inputs, x, j, k);
    }
  }

  lemma {:induction false} NodesDiffer(h: Hasher, inputs: set<Bytes>, left: Hash, x: Hash, y: Hash)
    requires NoCollision(h, inputs) && NodeInput(left, x) in inputs && NodeInput(left, y) in inputs && x != y
    ensures h(NodeInput(left, x)) != h(NodeInput(left, y))
  {
    NodeParts(left, x, left, y);
  }

  /** Fewer than 2^j leaves, padded to j levels, do not come to the root of the other tree. */
  lemma {:induction false} PaddedDiffers(h: Hasher, inputs: set<Bytes>, level: seq<Hash>, j: nat)
    requires Hashes32(h) && NoCollision(h, inputs) && AllAtHeight(h, inputs, level, 0)
    requires 0 < |level| < Pow2(j) && UpInputs(h, level, j) <= inputs && RfcInputs(h, level) <= inputs
    ensures |Ups(h, level, j)| == 1 && Ups(h, level, j)[0] != RfcTop(h, level)
    decreases j
  {
    hide *;
    var n := |level|;
    UpsSingle(h, level, j);
    LevelsAtMost(n, j);
    if Levels(n) < j {
      UpsHeight(h, inputs, level, 0, j);
      OneAtHeight(h, inputs, Ups(h, level, j), j);
      RfcHeight(h, inputs, level);
      DifferentHeights(h, inputs, Ups(h, level, j)[0], RfcTop(h, level), j, Levels(n));
    } else {
      BigEnough(n, j);
      var k := Pow2(j - 1);
      SplitIs(n, j);
      RfcNode(h, level);
      UpsJoin(h, level, j - 1);
      PartsAtHeight(h, inputs, level, k, 0);
      PaddedDiffers(h, inputs, level[k..], j - 1);
      PowerSame(h, level[..k], j - 1);
      NodesDiffer(h, inputs, RfcTop(h, level[..k]), Ups(h, level[k..], j - 1)[0], RfcTop(h, level[k..]));
    }
  }

  lemma {:induction false} OneAtHeight(h: Hasher, inputs: set<Bytes>, level: seq<Hash>, k: nat)
    requires |level| == 1 && AllAtHeight(h, inputs, level, 0 + k)
    ensures AtHeight(h, inputs, level[0], k)
  {
    hide AtHeight;
  }

  lemma {:induction false} BigEnough(n: nat, j: nat)
    requires 0 < n < Pow2(j) && Levels(n) == j
    ensures j > 0 && n > 1 && Pow2(j - 1) < n < 2 * Pow2(j - 1)
  {
    LevelsMeaning(n);
  }

  // ---- When the roots agree ----

  /** A power of two. */
  ghost predicate IsPower(n: nat) {
    exists j: nat :: n == Pow2(j)
  }

  /** For a power of two the root is that of section 2.1, and so it is for nothing. */
  lemma {:induction false} PowersAgree(h: Hasher, hashes: seq<Hash>)
    requires hashes == [] || IsPower(|hashes|)
    ensures Root(h, hashes) == RfcRoot(h, hashes)
  {
    if hashes != [] {
      var j: nat :| |hashes| == Pow2(j);
      var leaves := Hashed(h, LeafInputs(hashes));
      hide RfcRoot, RfcTop, Top, Ups, Levels, Hashed, LeafInputs;
      RootIsTop(h, hashes);
      LevelsOfPower(j);
      PowerSame(h, leaves, j);
      TopIsUps(h, leaves);
    }
  }

  /** Everything hashed for either root. */
  function BothInputs(h: Hasher, hashes: seq<Hash>): set<Bytes> {
    InputsOf(h, hashes) + RfcInputs(h, Hashed(h, LeafInputs(hashes)))
  }

  /**
   * Unless two of the strings hashed on the way collide, the root is the one of section 2.1 if and only
   * if the number of elements is zero or a power of two.
   */
  lemma {:induction false} SameRootIff(h: Hasher, hashes: seq<Hash>)
    requires Hashes32(h) && NoCollision(h, BothInputs(h, hashes))
    ensures Root(h, hashes) == RfcRoot(h, hashes) <==> hashes == [] || IsPower(|hashes|)
  {
    if hashes == [] || IsPower(|hashes|) {
      PowersAgree(h, hashes);
    } else {
      RootsDiffer(h, hashes);
    }
  }

  lemma {:induction false} RootsDiffer(h: Hasher, hashes: seq<Hash>)
    requires Hashes32(h) && NoCollision(h, BothInputs(h, hashes)) && hashes != [] && !IsPower(|hashes|)
    ensures Root(h, hashes) != RfcRoot(h, hashes)
  {
    var inputs, leaves, j := BothInputs(h, hashes), Hashed(h, LeafInputs(hashes)), Levels(|hashes|);
    hide RfcRoot, RfcTop, Top, Ups, Levels, Hashed, LeafInputs, AtHeight, NoCollision, Pow2, UpInputs, RfcInputs, InputsAbove;
    LevelsMeaning(|hashes|);
    RootIsTop(h, hashes);
    TopIsUps(h, leaves);
    LeavesAtHeight(h, inputs, hashes);
    PaddedDiffers(h, inputs, leaves, j);
  }

  /** Three elements: the last leaf is paired with the sentinel here, and stands by itself there. */
  lemma {:induction false} ThreeLeaves(h: Hasher, a: Hash, b: Hash, c: Hash)
    ensures var left, last := h([0x01] + h([0x00] + a) + h([0x00] + b)), h([0x00] + c);
      && Root(h, [a, b, c]) == h([0x01] + left + h([0x01] + last + h([])))
      && RfcRoot(h, [a, b, c]) == h([0x01] + left + last)
  {
    hide Root, RfcRoot;
    ThreeInputs(h, a, b, c);
  }

  lemma {:induction false} ThreeInputs(h: Hasher, a: Hash, b: Hash, c: Hash)
    ensures var left, last := h(NodeInput(h(LeafInput(a)), h(LeafInput(b)))), h(LeafInput(c));
      && Root(h, [a, b, c]) == h(NodeInput(left, h(NodeInput(last, h([])))))
      && RfcRoot(h, [a, b, c]) == h(NodeInput(left, last))
  {
    var la, lb, lc := h(LeafInput(a)), h(LeafInput(b)), h(LeafInput(c));
    LeavesOfThree(h, a, b, c);
    RootIsTop(h, [a, b, c]);
    TopOfThree(h, la, lb, lc);
    RfcOfThree(h, la, lb, lc);
    hide NodeInput, LeafInput, Hashed, LeafInputs, RfcRoot, RfcTop, Top;
  }

  lemma {:induction false} LeavesOfThree(h: Hasher, a: Hash, b: Hash, c: Hash)
    ensures Hashed(h, LeafInputs([a, b, c])) == [h(LeafInput(a)), h(LeafInput(b)), h(LeafInput(c))]
  {
    hide LeafInput;
  }

  lemma {:induction false} TopOfThree(h: Hasher, x: Hash, y: Hash, z: Hash)
    ensures Top(h, [x, y, z]) == h(NodeInput(h(NodeInput(x, y)), h(NodeInput(z, h([])))))
  {
    hide NodeInput;
    var l, r := h(NodeInput(x, y)), h(NodeInput(z, h([])));
    assert [x, y, z][2..] == [z];
    assert Pairs(h, [z]) == [NodeInput(z, h([]))];
    assert Pairs(h, [x, y, z]) == [NodeInput(x, y), NodeInput(z, h([]))];
    assert Up(h, [x, y, z]) == [l, r];
    JoinTwo(h, l, r);
    assert Top(h, [l, r]) == Top(h, [h(NodeInput(l, r))]);
  }

  lemma {:induction false} RfcOfThree(h: Hasher, x: Hash, y: Hash, z: Hash)
    ensures RfcTop(h, [x, y, z]) == h(NodeInput(h(NodeInput(x, y)), z))
  {
    assert Levels(3) == 2 && Levels(2) == 1 && Pow2(1) == 2 && Pow2(0) == 1;
    RfcNode(h, [x, y, z]);
    RfcNode(h, [x, y]);
    hide NodeInput, Levels, Pow2, RfcInputs;
    assert [x, y, z][..2] == [x, y] && [x, y, z][2..] == [z] && [x, y][..1] == [x] && [x, y][1..] == [y];
    assert Split(3) == 2 && Split(2) == 1;
  }
}
