/**
 * The domain-separated merkle tree (Sources/Consensus/MerkleTree.swift). An odd level is padded with
 * the hash of the empty string; module Rfc6962 says when the root is that of section 2.1 of RFC 6962.
 */
module MerkleTree {
  import opened Base

  function LeafInput(data: Hash): Bytes {
    [0x00] + data
  }

  function NodeInput(left: Hash, right: Hash): Bytes {
    [0x01] + left + right
  }

  /** The inputs hashed to make the next level: pairs, the last one padded when the level is odd. */
  function Pairs(h: Hasher, level: seq<Hash>): (inputs: seq<Bytes>)
    ensures |inputs| == (|level| + 1) / 2
  {
    if level == [] then []
    else if |level| == 1 then [NodeInput(level[0], h([]))]
    else [NodeInput(level[0], level[1])] + Pairs(h, level[2..])
  }

  function Hashed(h: Hasher, inputs: seq<Bytes>): (hashes: seq<Hash>)
    ensures |hashes| == |inputs| && forall k :: 0 <= k < |inputs| ==> hashes[k] == h(inputs[k])
  {
    if inputs == [] then [] else [h(inputs[0])] + Hashed(h, inputs[1..])
  }

  function LeafInputs(hashes: seq<Hash>): (inputs: seq<Bytes>)
    ensures |inputs| == |hashes| && forall k :: 0 <= k < |hashes| ==> inputs[k] == LeafInput(hashes[k])
  {
    if hashes == [] then [] else [LeafInput(hashes[0])] + LeafInputs(hashes[1..])
  }

  /** The next level up. */
  function Up(h: Hasher, level: seq<Hash>): (next: seq<Hash>)
    ensures |next| == (|level| + 1) / 2
  {
    Hashed(h, Pairs(h, level))
  }

  /** Level by level to the top. */
  function Top(h: Hasher, level: seq<Hash>): Hash
    requires level != []
    decreases |level|
  {
    if |level| == 1 then level[0] else Top(h, Up(h, level))
  }

  /** The root of a list of hashes; of nothing, the sentinel. */
  function Root(h: Hasher, hashes: seq<Hash>): Hash {
    if hashes == [] then h([]) else Top(h, Hashed(h, LeafInputs(hashes)))
  }

  // ---- The loop over one array ----

  method ComputeRoot(h: Hasher, hashes: seq<Hash>) returns (root: Hash)
    ensures root == Root(h, hashes)
  {
    hide Pairs, Hashed, LeafInputs;
    if hashes == [] {
      return h([]);
    }
    var nodes := LeafHashes(h, hashes);
    var size, i := |nodes|, 0;
    assert nodes[0..size] == nodes;
    while size > 1
      invariant size > 0 && 0 <= i && i + size == |nodes|
      invariant Top(h, nodes[i..i + size]) == Root(h, hashes)
      decreases size
    {
      ghost var level := nodes[i..i + size];
      assert level == nodes[i..];
      nodes := AppendLevel(h, nodes, i, size);
      assert nodes[i + size..] == Up(h, level);
      i := i + size;
      size := (size + 1) / 2;
      assert nodes[i..i + size] == nodes[i..];
    }
    assert nodes[i..i + size] == [nodes[|nodes| - 1]];
    return nodes[|nodes| - 1];
  }

  method LeafHashes(h: Hasher, hashes: seq<Hash>) returns (nodes: seq<Hash>)
    ensures nodes == Hashed(h, LeafInputs(hashes))
  {
    nodes := [];
    var k := 0;
    while k < |hashes|
      invariant 0 <= k <= |hashes| && |nodes| == k && forall m :: 0 <= m < k ==> nodes[m] == h(LeafInput(hashes[m]))
    {
      nodes := nodes + [h(LeafInput(hashes[k]))];
      k := k + 1;
    }
    assert nodes == Hashed(h, LeafInputs(hashes));
  }

  /** Appends the level above the last `size` nodes. */
  method AppendLevel(h: Hasher, nodes: seq<Hash>, i: nat, size: nat) returns (more: seq<Hash>)
    requires i + size == |nodes|
    ensures |more| == |nodes| + (size + 1) / 2 && more[..|nodes|] == nodes && more[|nodes|..] == Up(h, nodes[i..])
  {
    hide Hashed, Pairs, NodeInput;
    ghost var level := nodes[i..];
    more := nodes;
    var j := 0;
    while j < size
      invariant 0 <= j <= size + 1 && j % 2 == 0 && |more| == |nodes| + j / 2 && more[..|nodes|] == nodes
      invariant forall m :: 0 <= m < j / 2 ==> more[|nodes| + m] == h(PairAt(h, level, m))
    {
      var left := more[i + j];
      var right := if j + 1 < size then more[i + j + 1] else h([]);
      assert left == more[..|nodes|][i + j] == level[j];
      assert j + 1 < size ==> more[i + j + 1] == more[..|nodes|][i + j + 1] == level[j + 1];
      assert NodeInput(left, right) == PairAt(h, level, j / 2);
      more := more + [h(NodeInput(left, right))];
      j := j + 2;
    }
    forall m | 0 <= m < (size + 1) / 2
      ensures more[|nodes|..][m] == Up(h, level)[m]
    {
      PairsMeaning(h, level, m);
    }
  }

  /** Pair `m` of a level. */
  function PairAt(h: Hasher, level: seq<Hash>, m: nat): Bytes
    requires 2 * m < |level|
  {
    NodeInput(level[2 * m], if 2 * m + 1 < |level| then level[2 * m + 1] else h([]))
  }

  lemma {:induction false} PairsMeaning(h: Hasher, level: seq<Hash>, m: nat)
    requires 2 * m < |level|
    ensures Pairs(h, level)[m] == PairAt(h, level, m)
  {
    if m > 0 {
      PairsMeaning(h, level[2..], m - 1);
    }
  }

  // ---- The root determines the list ----

  /** Everything hashed on the way from a level to the top. */
  function InputsAbove(h: Hasher, level: seq<Hash>): set<Bytes>
    decreases |level|
  {
    if |level| <= 1 then {}
    else (set x | x in Pairs(h, level)) + InputsAbove(h, Up(h, level))
  }

  /** Everything hashed to compute a root, the sentinel's empty input included. */
  function InputsOf(h: Hasher, hashes: seq<Hash>): set<Bytes> {
    {[]} + (set x | x in LeafInputs(hashes)) + InputsAbove(h, Hashed(h, LeafInputs(hashes)))
  }

  ghost predicate NoCollision(h: Hasher, inputs: set<Bytes>) {
    forall x, y :: x in inputs && y in inputs && h(x) == h(y) ==> x == y
  }

  /** `x` stands `k` levels above the leaves: below it on the left, k - 1 nodes and a leaf. */
  ghost predicate AtHeight(h: Hasher, inputs: set<Bytes>, x: Hash, k: nat)
    decreases k
  {
    if k == 0 then exists data :: LeafInput(data) in inputs && x == h(LeafInput(data))
    else
      exists left: Hash, right: Hash ::
        |left| == 32 && NodeInput(left, right) in inputs && x == h(NodeInput(left, right)) && AtHeight(h, inputs, left, k - 1)
  }

  ghost predicate AllAtHeight(h: Hasher, inputs: set<Bytes>, level: seq<Hash>, k: nat) {
    forall m :: 0 <= m < |level| ==> AtHeight(h, inputs, level[m], k) && |level[m]| == 32
  }

  /** A hash stands at one height only: leaves, nodes and the sentinel have different inputs. */
  lemma {:induction false} HeightUnique(h: Hasher, inputs: set<Bytes>, x: Hash, j: nat, k: nat)
    requires NoCollision(h, inputs) && AtHeight(h, inputs, x, j) && AtHeight(h, inputs, x, k)
    ensures j == k
    decreases j
  {
    if j > 0 && k > 0 {
      var left: Hash, right: Hash :|
        |left| == 32 && NodeInput(left, right) in inputs && x == h(NodeInput(left, right)) && AtHeight(h, inputs, left, j - 1);
      var left2: Hash, right2: Hash :|
        |left2| == 32 && NodeInput(left2, right2) in inputs && x == h(NodeInput(left2, right2)) && AtHeight(h, inputs, left2, k - 1);
      NodeParts(left, right, left2, right2);
      HeightUnique(h, inputs, left, j - 1, k - 1);
    } else if j == 0 && k > 0 {
      LeafIsNoNode(h, inputs, x, k);
    } else if j > 0 && k == 0 {
      LeafIsNoNode(h, inputs, x, j);
    }
  }

  lemma {:induction false} NodeParts(l: Hash, r: Hash, m: Hash, s: Hash)
    requires |l| == |m|
    ensures NodeInput(l, r) == NodeInput(m, s) ==> l == m && r == s
  {
    if NodeInput(l, r) == NodeInput(m, s) {
      assert l == NodeInput(l, r)[1..1 + |l|] && m == NodeInput(m, s)[1..1 + |m|];
      assert r == NodeInput(l, r)[1 + |l|..] && s == NodeInput(m, s)[1 + |m|..];
    }
  }

  lemma {:induction false} LeafIsNoNode(h: Hasher, inputs: set<Bytes>, x: Hash, k: nat)
    requires NoCollision(h, inputs) && AtHeight(h, inputs, x, 0) && k > 0
    ensures !AtHeight(h, inputs, x, k)
  {
    forall data, left, right
      ensures LeafInput(data) != NodeInput(left, right)
    {
      assert LeafInput(data)[0] == 0 && NodeInput(left, right)[0] == 1;
    }
  }

  /** One level up from a level at height `k`. */
  lemma {:induction false} UpHeight(h: Hasher, inputs: set<Bytes>, level: seq<Hash>, k: nat)
    requires Hashes32(h) && AllAtHeight(h, inputs, level, k) && forall x :: x in Pairs(h, level) ==> x in inputs
    ensures AllAtHeight(h, inputs, Up(h, level), k + 1)
  {
    hide Pairs, Hashed, NodeInput;
    forall m | 0 <= m < |Up(h, level)|
      ensures AtHeight(h, inputs, Up(h, level)[m], k + 1) && |Up(h, level)[m]| == 32
    {
      PairsMeaning(h, level, m);
      assert Pairs(h, level)[m] in inputs;
      var left, right := level[2 * m], if 2 * m + 1 < |level| then level[2 * m + 1] else h([]);
      assert AtHeight(h, inputs, left, k) && |left| == 32;
      assert Up(h, level)[m] == h(NodeInput(left, right));
    }
  }

  function Levels(n: nat): nat {
    if n <= 1 then 0 else 1 + Levels((n + 1) / 2)
  }

  lemma {:induction false} TopHeight(h: Hasher, inputs: set<Bytes>, level: seq<Hash>, k: nat)
    requires Hashes32(h) && level != [] && AllAtHeight(h, inputs, level, k) && InputsAbove(h, level) <= inputs
    ensures AtHeight(h, inputs, Top(h, level), k + Levels(|level|))
    decreases |level|
  {
    hide Pairs, Hashed, AtHeight;
    if |level| > 1 {
      UpHeight(h, inputs, level, k);
      TopHeight(h, inputs, Up(h, level), k + 1);
    }
  }

  /** A level is determined by the one above it: a padded pair is no other pair. */
  lemma {:induction false} UpInjective(h: Hasher, inputs: set<Bytes>, a: seq<Hash>, b: seq<Hash>, k: nat)
    requires NoCollision(h, inputs) && [] in inputs && Up(h, a) == Up(h, b)
    requires AllAtHeight(h, inputs, a, k) && AllAtHeight(h, inputs, b, k)
    requires forall x :: x in Pairs(h, a) ==> x in inputs
    requires forall x :: x in Pairs(h, b) ==> x in inputs
    ensures a == b
  {
    hide Pairs, Hashed, AtHeight;
    forall m | 0 <= m && 2 * m < |a| && 2 * m < |b|
      ensures PairAt(h, a, m) == PairAt(h, b, m)
    {
      PairsMeaning(h, a, m);
      PairsMeaning(h, b, m);
      assert Pairs(h, a)[m] in inputs && Pairs(h, b)[m] in inputs;
      assert Up(h, a)[m] == h(Pairs(h, a)[m]) && Up(h, b)[m] == h(Pairs(h, b)[m]);
    }
    SameLength(h, inputs, a, b, k);
    forall i | 0 <= i < |a|
      ensures a[i] == b[i]
    {
      SamePair(h, a, b, i / 2);
    }
  }

  lemma {:induction false} SamePair(h: Hasher, a: seq<Hash>, b: seq<Hash>, m: nat)
    requires |a| == |b| && 2 * m < |a| && |a[2 * m]| == |b[2 * m]| && PairAt(h, a, m) == PairAt(h, b, m)
    ensures a[2 * m] == b[2 * m] && (2 * m + 1 < |a| ==> a[2 * m + 1] == b[2 * m + 1])
  {
    hide NodeInput;
    NodeParts(a[2 * m], if 2 * m + 1 < |a| then a[2 * m + 1] else h([]), b[2 * m],
              if 2 * m + 1 < |b| then b[2 * m + 1] else h([]));
  }

  lemma {:induction false} SameLength(h: Hasher, inputs: set<Bytes>, a: seq<Hash>, b: seq<Hash>, k: nat)
    requires NoCollision(h, inputs) && [] in inputs && (|a| + 1) / 2 == (|b| + 1) / 2
    requires AllAtHeight(h, inputs, a, k) && AllAtHeight(h, inputs, b, k)
    requires forall m :: 0 <= m && 2 * m < |a| && 2 * m < |b| ==> PairAt(h, a, m) == PairAt(h, b, m)
    ensures |a| == |b|
  {
    if |a| < |b| {
      NotPadded(h, inputs, a, b, k);
    } else if |b| < |a| {
      NotPadded(h, inputs, b, a, k);
    }
  }

  /** The last node of an odd level and that of the next even one differ. */
  lemma {:induction false} NotPadded(h: Hasher, inputs: set<Bytes>, a: seq<Hash>, b: seq<Hash>, k: nat)
    requires NoCollision(h, inputs) && [] in inputs && (|a| + 1) / 2 == (|b| + 1) / 2 && |a| < |b|
    requires AllAtHeight(h, inputs, a, k) && AllAtHeight(h, inputs, b, k)
    ensures exists m :: 0 <= m && 2 * m < |a| && 2 * m < |b| && PairAt(h, a, m) != PairAt(h, b, m)
  {
    var m := |a| / 2;
    assert |a| == 2 * m + 1 && |b| == 2 * m + 2;
    assert |a[2 * m]| == 32 && |b[2 * m]| == 32;
    assert AtHeight(h, inputs, b[2 * m + 1], k);
    NotSentinel(h, inputs, b[2 * m + 1], k);
    hide NodeInput, AtHeight;
    NodeParts(a[2 * m], h([]), b[2 * m], b[2 * m + 1]);
    assert PairAt(h, a, m) != PairAt(h, b, m);
  }

  lemma {:induction false} NotSentinel(h: Hasher, inputs: set<Bytes>, x: Hash, k: nat)
    requires NoCollision(h, inputs) && [] in inputs && AtHeight(h, inputs, x, k)
    ensures x != h([])
  {
    assert forall data :: LeafInput(data) != [];
    assert forall left, right :: NodeInput(left, right) != [];
  }

  lemma {:induction false} TopInjective(h: Hasher, inputs: set<Bytes>, a: seq<Hash>, b: seq<Hash>, k: nat)
    requires Hashes32(h) && NoCollision(h, inputs) && [] in inputs && a != [] && b != []
    requires AllAtHeight(h, inputs, a, k) && AllAtHeight(h, inputs, b, k)
    requires InputsAbove(h, a) <= inputs && InputsAbove(h, b) <= inputs
    requires Levels(|a|) == Levels(|b|) && Top(h, a) == Top(h, b)
    ensures a == b
    decreases |a|
  {
    hide Pairs, Hashed, AtHeight, NoCollision;
    if |a| > 1 && |b| > 1 {
      UpHeight(h, inputs, a, k);
      UpHeight(h, inputs, b, k);
      TopInjective(h, inputs, Up(h, a), Up(h, b), k + 1);
      UpInjective(h, inputs, a, b, k);
    }
  }

  lemma {:induction false} LeavesAtHeight(h: Hasher, inputs: set<Bytes>, hashes: seq<Hash>)
    requires Hashes32(h) && forall x :: x in LeafInputs(hashes) ==> x in inputs
    ensures AllAtHeight(h, inputs, Hashed(h, LeafInputs(hashes)), 0)
  {
    hide LeafInputs, Hashed, LeafInput;
    forall m | 0 <= m < |hashes|
      ensures AtHeight(h, inputs, Hashed(h, LeafInputs(hashes))[m], 0)
    {
      assert LeafInputs(hashes)[m] in LeafInputs(hashes);
      assert LeafInput(hashes[m]) in inputs;
    }
  }

  lemma {:induction false} LeavesInjective(h: Hasher, inputs: set<Bytes>, a: seq<Hash>, b: seq<Hash>)
    requires NoCollision(h, inputs) && Hashed(h, LeafInputs(a)) == Hashed(h, LeafInputs(b))
    requires forall x :: x in LeafInputs(a) ==> x in inputs
    requires forall x :: x in LeafInputs(b) ==> x in inputs
    ensures a == b
  {
    hide LeafInputs, Hashed;
    forall m | 0 <= m < |a|
      ensures a[m] == b[m]
    {
      assert LeafInputs(a)[m] in inputs && LeafInputs(b)[m] in inputs;
      assert Hashed(h, LeafInputs(a))[m] == Hashed(h, LeafInputs(b))[m];
      assert LeafInput(a[m])[1..] == a[m] && LeafInput(b[m])[1..] == b[m];
    }
  }

  /**
   * Unless two of the strings actually hashed collide, equal roots mean equal lists, lengths
   * included: no list is a padded or truncated version of another.
   */
  lemma {:induction false} RootDeterminesList(h: Hasher, a: seq<Hash>, b: seq<Hash>)
    requires Hashes32(h) && NoCollision(h, InputsOf(h, a) + InputsOf(h, b)) && Root(h, a) == Root(h, b)
    ensures a == b
  {
    hide LeafInputs, Hashed, AtHeight, NoCollision, Top, InputsAbove;
    var inputs := InputsOf(h, a) + InputsOf(h, b);
    LeavesAtHeight(h, inputs, a);
    LeavesAtHeight(h, inputs, b);
    var x, y := Hashed(h, LeafInputs(a)), Hashed(h, LeafInputs(b));
    if a != [] {
      TopHeight(h, inputs, x, 0);
      NotSentinel(h, inputs, Top(h, x), Levels(|x|));
    }
    if b != [] {
      TopHeight(h, inputs, y, 0);
      NotSentinel(h, inputs, Top(h, y), Levels(|y|));
    }
    if a != [] && b != [] {
      HeightUnique(h, inputs, Top(h, x), Levels(|x|), Levels(|y|));
      TopInjective(h, inputs, x, y, 0);
      LeavesInjective(h, inputs, a, b);
    }
  }
}
