/** Choosing and ordering a block's transactions (Sources/Mining/BlockTemplate.swift). */
module BlockTemplate {
  import opened Base
  import opened Covenants

  // ---- The dependency graph ----

  /** The last of the first `n` transactions with this hash. */
  function IndexOf(txs: seq<Transaction>, n: nat, h: Hash): (i: Option<nat>)
    requires n <= |txs|
    ensures i.Some? ==> i.value < n && txs[i.value].hash == h
    ensures i.None? ==> forall k :: 0 <= k < n ==> txs[k].hash != h
  {
    if n == 0 then None else if txs[n - 1].hash == h then Some(n - 1) else IndexOf(txs, n - 1, h)
  }

  /** The in-block parents named by the first `k` inputs of transaction `i`, once per input. */
  function ParentsUpTo(txs: seq<Transaction>, i: nat, k: nat): (ps: seq<nat>)
    requires i < |txs| && k <= |txs[i].inputs|
    ensures forall p :: p in ps ==> p < |txs| && p != i
  {
    if k == 0 then []
    else
      var parent := IndexOf(txs, |txs|, txs[i].inputs[k - 1].hash);
      ParentsUpTo(txs, i, k - 1) + if parent.Some? && parent.value != i then [parent.value] else []
  }

  function Parents(txs: seq<Transaction>, i: nat): (ps: seq<nat>)
    requires i < |txs|
    ensures forall p :: p in ps ==> p < |txs| && p != i
  {
    ParentsUpTo(txs, i, |txs[i].inputs|)
  }

  function Count(s: seq<nat>, x: nat): nat {
    if s == [] then 0 else Count(s[..|s| - 1], x) + if s[|s| - 1] == x then 1 else 0
  }

  /** How many entries are not among those done. */
  function Unmet(s: seq<nat>, done: seq<nat>): nat {
    if s == [] then 0 else Unmet(s[..|s| - 1], done) + if s[|s| - 1] in done then 0 else 1
  }

  lemma {:induction false} CountMore(s: seq<nat>, y: nat, x: nat)
    ensures Count(s + [y], x) == Count(s, x) + if y == x then 1 else 0
  {
    assert (s + [y])[..|s|] == s;
  }

  lemma {:induction false} CountPositive(s: seq<nat>, x: nat)
    ensures x in s <==> Count(s, x) > 0
  {
    if s != [] {
      CountPositive(s[..|s| - 1], x);
      assert s == s[..|s| - 1] + [s[|s| - 1]];
    }
  }

  lemma {:induction false} UnmetMore(s: seq<nat>, done: seq<nat>, x: nat)
    requires x !in done
    ensures Unmet(s, done) == Unmet(s, done + [x]) + Count(s, x)
  {
    if s != [] {
      UnmetMore(s[..|s| - 1], done, x);
    }
  }

  lemma {:induction false} UnmetNone(s: seq<nat>, done: seq<nat>)
    ensures Unmet(s, done) == 0 <==> forall p :: p in s ==> p in done
  {
    if s != [] {
      UnmetNone(s[..|s| - 1], done);
      assert s == s[..|s| - 1] + [s[|s| - 1]];
    }
  }

  lemma {:induction false} UnmetAll(s: seq<nat>)
    ensures Unmet(s, []) == |s|
  {
    if s != [] {
      UnmetAll(s[..|s| - 1]);
    }
  }

  predicate Distinct(s: seq<nat>) {
    forall i, j :: 0 <= i < j < |s| ==> s[i] != s[j]
  }

  lemma {:induction false} DistinctBound(s: seq<nat>, n: nat)
    requires Distinct(s) && forall x :: x in s ==> x < n
    ensures |s| <= n
    decreases n
  {
    if s != [] {
      assert s[0] in s;
      if n - 1 in s {
        var i :| 0 <= i < |s| && s[i] == n - 1;
        var rest := s[..i] + s[i + 1..];
        RestDistinct(s, i);
        DistinctBound(rest, n - 1);
      } else {
        DistinctBound(s, n - 1);
      }
    }
  }

  lemma {:induction false} RestDistinct(s: seq<nat>, i: nat)
    requires Distinct(s) && i < |s|
    ensures var rest := s[..i] + s[i + 1..];
      Distinct(rest) && forall x :: x in rest ==> x in s && x != s[i]
  {
    var rest := s[..i] + s[i + 1..];
    forall k | 0 <= k < |rest|
      ensures rest[k] == s[if k < i then k else k + 1]
    {
    }
  }

  // ---- Orders ----

  predicate Within(txs: seq<Transaction>, order: seq<nat>) {
    forall k :: 0 <= k < |order| ==> order[k] < |txs|
  }

  /** Different positions, each after all its parents. */
  ghost predicate ParentsFirst(txs: seq<Transaction>, order: seq<nat>) {
    && Distinct(order) && Within(txs, order)
    && forall k, p :: 0 <= k < |order| && p in Parents(txs, order[k]) ==> p in order[..k]
  }

  /** The transactions can be put in an order that respects all dependencies. */
  ghost predicate Orderable(txs: seq<Transaction>) {
    exists rank: seq<nat> :: |rank| == |txs| && Respects(txs, rank)
  }

  ghost predicate Respects(txs: seq<Transaction>, rank: seq<nat>)
    requires |rank| == |txs|
  {
    forall i, p :: 0 <= i < |txs| && p in Parents(txs, i) ==> rank[p] < rank[i]
  }

  /** What Kahn's algorithm leaves: whoever is missing waits for somebody missing. */
  ghost predicate Saturated(txs: seq<Transaction>, order: seq<nat>) {
    forall i :: 0 <= i < |txs| && i !in order ==> exists p :: p in Parents(txs, i) && p !in order
  }

  lemma {:induction false} RankedIsIn(txs: seq<Transaction>, order: seq<nat>, rank: seq<nat>, i: nat)
    requires |rank| == |txs| && Respects(txs, rank) && Saturated(txs, order) && i < |txs|
    ensures i in order
    decreases rank[i]
  {
    if i !in order {
      var p :| p in Parents(txs, i) && p !in order;
      RankedIsIn(txs, order, rank, p);
    }
  }

  /** Nothing is dropped exactly when some order respects all dependencies. */
  lemma {:induction false} CompleteIffOrderable(txs: seq<Transaction>, order: seq<nat>)
    requires ParentsFirst(txs, order) && Saturated(txs, order)
    ensures |order| == |txs| <==> Orderable(txs)
    ensures Orderable(txs) ==> forall i :: 0 <= i < |txs| ==> i in order
  {
    assert forall i :: i in order ==> i < |txs|;
    DistinctBound(order, |txs|);
    if Orderable(txs) {
      var rank: seq<nat> :| |rank| == |txs| && Respects(txs, rank);
      forall i | 0 <= i < |txs|
        ensures i in order
      {
        RankedIsIn(txs, order, rank, i);
      }
      AllIn(order, |txs|);
    }
    if |order| == |txs| {
      FullOrder(order, |txs|);
      PositionsRank(txs, order);
    }
  }

  lemma {:induction false} AllIn(s: seq<nat>, n: nat)
    requires forall i :: 0 <= i < n ==> i in s
    ensures |s| >= n
    decreases n
  {
    if n > 0 {
      assert n - 1 in s;
      var i :| 0 <= i < |s| && s[i] == n - 1;
      var rest := s[..i] + s[i + 1..];
      forall j | 0 <= j < n - 1
        ensures j in rest
      {
        assert j in s;
        var k :| 0 <= k < |s| && s[k] == j;
        assert rest[if k < i then k else k - 1] == j;
      }
      AllIn(rest, n - 1);
    }
  }

  lemma {:induction false} FullOrder(s: seq<nat>, n: nat)
    requires Distinct(s) && |s| == n && forall x :: x in s ==> x < n
    ensures forall i :: 0 <= i < n ==> i in s
  {
    forall i | 0 <= i < n
      ensures i in s
    {
      if i !in s {
        DistinctBound(s + [i], n);
      }
    }
  }

  function PositionIn(s: seq<nat>, x: nat): (k: nat)
    requires x in s
    ensures k < |s| && s[k] == x
  {
    if s[0] == x then 0 else 1 + PositionIn(s[1..], x)
  }

  function Positions(s: seq<nat>, n: nat): (r: seq<nat>)
    requires forall i :: 0 <= i < n ==> i in s
    ensures |r| == n && forall i :: 0 <= i < n ==> r[i] == PositionIn(s, i)
  {
    if n == 0 then [] else Positions(s, n - 1) + [PositionIn(s, n - 1)]
  }

  lemma {:induction false} PositionsRank(txs: seq<Transaction>, order: seq<nat>)
    requires ParentsFirst(txs, order) && forall i :: 0 <= i < |txs| ==> i in order
    ensures Orderable(txs)
  {
    var rank := Positions(order, |txs|);
    forall i, p | 0 <= i < |txs| && p in Parents(txs, i)
      ensures rank[p] < rank[i]
    {
      assert order[rank[i]] == i;
      assert p in order[..rank[i]];
      var k :| 0 <= k < rank[i] && order[k] == p;
      assert order[rank[p]] == p;
    }
    assert Respects(txs, rank);
  }

  // ---- Kahn's algorithm ----

  /** How often each transaction names each parent, as the adjacency lists have it. */
  ghost predicate Adjacent(txs: seq<Transaction>, children: seq<seq<nat>>, n: nat)
    requires n <= |txs|
  {
    && |children| == |txs|
    && (forall p, c :: 0 <= p < |txs| && c in children[p] ==> c < n)
    && forall p, c :: 0 <= p < |txs| && 0 <= c < n ==> Count(children[p], c) == Count(Parents(txs, c), p)
  }

  method CountParents(txs: seq<Transaction>) returns (dependsOn: seq<seq<nat>>)
    ensures |dependsOn| == |txs| && forall i :: 0 <= i < |txs| ==> dependsOn[i] == Parents(txs, i)
  {
    dependsOn := [];
    var i := 0;
    while i < |txs|
      invariant 0 <= i <= |txs| && |dependsOn| == i && forall j :: 0 <= j < i ==> dependsOn[j] == Parents(txs, j)
    {
      var parents: seq<nat>, k := [], 0;
      while k < |txs[i].inputs|
        invariant 0 <= k <= |txs[i].inputs| && parents == ParentsUpTo(txs, i, k)
      {
        var parent := IndexOf(txs, |txs|, txs[i].inputs[k].hash);
        if parent.Some? && parent.value != i {
          parents := parents + [parent.value];
        }
        k := k + 1;
      }
      dependsOn := dependsOn + [parents];
      i := i + 1;
    }
  }

  /** The reverse lists: a child appears under a parent once per input that names it. */
  method ReverseEdges(txs: seq<Transaction>, dependsOn: seq<seq<nat>>) returns (children: seq<seq<nat>>)
    requires |dependsOn| == |txs| && forall i :: 0 <= i < |txs| ==> dependsOn[i] == Parents(txs, i)
    ensures Adjacent(txs, children, |txs|)
  {
    hide Parents, Count;
    children := seq(|txs|, _ => []);
    NoEdges(txs, children);
    var child := 0;
    while child < |txs|
      invariant 0 <= child <= |txs| && Adjacent(txs, children, child)
    {
      ghost var before := children;
      var k := 0;
      NothingAdded(txs, before, child);
      while k < |dependsOn[child]|
        invariant 0 <= k <= |dependsOn[child]| && EdgesAdded(txs, before, children, child, dependsOn[child][..k])
      {
        var parent := dependsOn[child][k];
        assert parent in Parents(txs, child);
        AddEdge(txs, before, children, child, dependsOn[child][..k], parent);
        children := children[parent := children[parent] + [child]];
        assert dependsOn[child][..k + 1] == dependsOn[child][..k] + [parent];
        k := k + 1;
      }
      assert dependsOn[child][..k] == Parents(txs, child);
      ChildDone(txs, before, children, child);
      child := child + 1;
    }
  }

  /** Only `child` has been added, once for each of these parents. */
  ghost predicate EdgesAdded(txs: seq<Transaction>, before: seq<seq<nat>>, now: seq<seq<nat>>, child: nat, parents: seq<nat>) {
    && |before| == |now| == |txs|
    && (forall p, c :: 0 <= p < |txs| && c in now[p] ==> c in before[p] || c == child)
    && (forall p, c: nat :: 0 <= p < |txs| ==> Count(now[p], c) == Count(before[p], c) + if c == child then Count(parents, p) else 0)
  }

  lemma {:induction false} NoEdges(txs: seq<Transaction>, children: seq<seq<nat>>)
    requires |children| == |txs| && forall p :: 0 <= p < |txs| ==> children[p] == []
    ensures Adjacent(txs, children, 0)
  {
  }

  lemma {:induction false} NothingAdded(txs: seq<Transaction>, before: seq<seq<nat>>, child: nat)
    requires |before| == |txs|
    ensures EdgesAdded(txs, before, before, child, [])
  {
    assert forall p :: Count([], p) == 0;
  }

  lemma {:induction false} AddEdge(txs: seq<Transaction>, before: seq<seq<nat>>, now: seq<seq<nat>>, child: nat, parents: seq<nat>, parent: nat)
    requires EdgesAdded(txs, before, now, child, parents) && parent < |txs|
    ensures EdgesAdded(txs, before, now[parent := now[parent] + [child]], child, parents + [parent])
  {
    hide Count;
    var next := now[parent := now[parent] + [child]];
    forall p, c: nat | 0 <= p < |txs|
      ensures Count(next[p], c) == Count(before[p], c) + if c == child then Count(parents + [parent], p) else 0
    {
      CountMore(now[parent], child, c);
      CountMore(parents, parent, p);
    }
  }

  lemma {:induction false} ChildDone(txs: seq<Transaction>, before: seq<seq<nat>>, now: seq<seq<nat>>, child: nat)
    requires child < |txs| && Adjacent(txs, before, child) && EdgesAdded(txs, before, now, child, Parents(txs, child))
    ensures Adjacent(txs, now, child + 1)
  {
    hide Count, Parents;
    forall p | 0 <= p < |txs|
      ensures Count(before[p], child) == 0
    {
      CountPositive(before[p], child);
    }
  }

  /** What holds each time a queued transaction is due. */
  ghost predicate Progressing(txs: seq<Transaction>, queue: seq<nat>, head: nat, inDegree: seq<nat>) {
    && head <= |queue| && |inDegree| == |txs|
    && ParentsFirst(txs, queue)
    && (forall i :: 0 <= i < |txs| ==> inDegree[i] == Unmet(Parents(txs, i), queue[..head]))
    && (forall i :: 0 <= i < |txs| ==> (i in queue <==> inDegree[i] == 0))
  }

  /** The first `c` children of `queue[head]` have been counted down. */
  ghost predicate CountingDown(txs: seq<Transaction>, queue: seq<nat>, head: nat, inDegree: seq<nat>, left: seq<nat>) {
    && head < |queue| && |inDegree| == |txs|
    && ParentsFirst(txs, queue)
    && (forall i :: 0 <= i < |txs| ==> inDegree[i] == Unmet(Parents(txs, i), queue[..head + 1]) + Count(left, i))
    && (forall i :: 0 <= i < |txs| ==> (i in queue <==> inDegree[i] == 0))
  }

  /**
   * Parents before children. The output is drawn from the input without repetition, and whoever is
   * left out waits for somebody left out.
   */
  method TopologicalOrder(txs: seq<Transaction>) returns (queue: seq<nat>)
    ensures ParentsFirst(txs, queue) && Saturated(txs, queue)
  {
    hide ParentsFirst, Parents, Count, Unmet, Adjacent, Progressing, CountingDown, Saturated;
    var dependsOn := CountParents(txs);
    var inDegree := new nat[|txs|](i requires 0 <= i < |dependsOn| => |dependsOn[i]|);
    queue := [];
    var i := 0;
    NothingQueued(txs);
    while i < |txs|
      invariant 0 <= i <= |txs| && Roots(txs, queue, i)
      invariant forall j :: 0 <= j < |txs| ==> inDegree[j] == |Parents(txs, j)|
    {
      RootStep(txs, queue, i);
      if inDegree[i] == 0 {
        queue := queue + [i];
      }
      i := i + 1;
    }
    var children := ReverseEdges(txs, dependsOn);
    var head := 0;
    StartProgress(txs, queue, inDegree[..]);
    while head < |queue|
      invariant Progressing(txs, queue, head, inDegree[..])
      invariant head <= |queue| <= |txs|
      decreases |txs| - head
    {
      var idx := queue[head];
      QueueIndex(txs, queue, head, inDegree[..]);
      StartCounting(txs, queue, head, inDegree[..], children);
      var c := 0;
      while c < |children[idx]|
        invariant 0 <= c <= |children[idx]| && head < |queue|
        invariant CountingDown(txs, queue, head, inDegree[..], children[idx][c..])
      {
        var child := children[idx][c];
        ChildIndex(txs, children, idx, child);
        Countdown(txs, queue, head, inDegree[..], children[idx][c..]);
        ghost var before := inDegree[..];
        inDegree[child] := inDegree[child] - 1;
        assert inDegree[..] == before[child := before[child] - 1];
        assert children[idx][c..][1..] == children[idx][c + 1..];
        if inDegree[child] == 0 {
          queue := queue + [child];
        }
        c := c + 1;
      }
      assert children[idx][c..] == [];
      EndCounting(txs, queue, head, inDegree[..]);
      head := head + 1;
    }
    AllProcessed(txs, queue, inDegree[..]);
  }

  /** Of the first `n` transactions exactly those without parents are queued, in order. */
  ghost predicate Roots(txs: seq<Transaction>, queue: seq<nat>, n: nat)
    requires n <= |txs|
  {
    && Distinct(queue)
    && (forall i :: i in queue ==> i < n && Parents(txs, i) == [])
    && (forall i :: 0 <= i < n && Parents(txs, i) == [] ==> i in queue)
  }

  lemma {:induction false} NothingQueued(txs: seq<Transaction>)
    ensures Roots(txs, [], 0)
  {
  }

  lemma {:induction false} RootStep(txs: seq<Transaction>, queue: seq<nat>, i: nat)
    requires i < |txs| && Roots(txs, queue, i)
    ensures Roots(txs, if |Parents(txs, i)| == 0 then queue + [i] else queue, i + 1)
  {
    hide Parents;
  }

  lemma {:induction false} StartProgress(txs: seq<Transaction>, queue: seq<nat>, inDegree: seq<nat>)
    requires Roots(txs, queue, |txs|) && |inDegree| == |txs|
    requires forall i :: 0 <= i < |txs| ==> inDegree[i] == |Parents(txs, i)|
    ensures Progressing(txs, queue, 0, inDegree) && |queue| <= |txs|
  {
    hide Parents, Unmet;
    DistinctBound(queue, |txs|);
    forall i | 0 <= i < |txs|
      ensures inDegree[i] == Unmet(Parents(txs, i), queue[..0])
      ensures i in queue <==> inDegree[i] == 0
    {
      UnmetAll(Parents(txs, i));
      assert queue[..0] == [];
    }
    RootsFirst(txs, queue);
  }

  lemma {:induction false} RootsFirst(txs: seq<Transaction>, queue: seq<nat>)
    requires Roots(txs, queue, |txs|)
    ensures ParentsFirst(txs, queue)
  {
    hide Parents;
    forall k | 0 <= k < |queue|
      ensures queue[k] < |txs| && Parents(txs, queue[k]) == []
    {
      assert queue[k] in queue;
    }
  }

  lemma {:induction false} QueueIndex(txs: seq<Transaction>, queue: seq<nat>, head: nat, inDegree: seq<nat>)
    requires Progressing(txs, queue, head, inDegree) && head < |queue|
    ensures queue[head] < |txs|
  {
    hide Parents, Unmet;
    assert queue[head] in queue;
  }

  lemma {:induction false} ChildIndex(txs: seq<Transaction>, children: seq<seq<nat>>, idx: nat, child: nat)
    requires Adjacent(txs, children, |txs|) && idx < |txs| && child in children[idx]
    ensures child < |txs|
  {
    hide Count, Parents;
  }

  lemma {:induction false} StartCounting(txs: seq<Transaction>, queue: seq<nat>, head: nat, inDegree: seq<nat>, children: seq<seq<nat>>)
    requires Progressing(txs, queue, head, inDegree) && head < |queue| && Adjacent(txs, children, |txs|)
    requires queue[head] < |txs|
    ensures |children| == |txs|
    ensures CountingDown(txs, queue, head, inDegree, children[queue[head]][0..])
  {
    hide Parents, Unmet, Count;
    var idx := queue[head];
    assert children[idx][0..] == children[idx];
    NewHead(txs, queue, head);
    assert queue[..head + 1] == queue[..head] + [idx];
    forall i | 0 <= i < |txs|
      ensures inDegree[i] == Unmet(Parents(txs, i), queue[..head + 1]) + Count(children[idx], i)
    {
      UnmetMore(Parents(txs, i), queue[..head], idx);
    }
  }

  lemma {:induction false} NewHead(txs: seq<Transaction>, queue: seq<nat>, head: nat)
    requires ParentsFirst(txs, queue) && head < |queue|
    ensures queue[head] !in queue[..head]
  {
    hide Parents;
  }

  /** One child counted down: it joins the queue exactly when its last parent is out. */
  lemma {:induction false} Countdown(txs: seq<Transaction>, queue: seq<nat>, head: nat, inDegree: seq<nat>, left: seq<nat>)
    requires CountingDown(txs, queue, head, inDegree, left) && left != [] && left[0] < |txs|
    ensures |inDegree| == |txs| && inDegree[left[0]] > 0
    ensures var child := left[0];
      var after := inDegree[child := inDegree[child] - 1];
      CountingDown(txs, if after[child] == 0 then queue + [child] else queue, head, after, left[1..])
  {
    hide Parents, Unmet, Count;
    var child := left[0];
    assert child in left;
    CountPositive(left, child);
    assert inDegree[child] > 0;
    var after := inDegree[child := inDegree[child] - 1];
    var longer := if after[child] == 0 then queue + [child] else queue;
    assert longer[..head + 1] == queue[..head + 1];
    forall i | 0 <= i < |txs|
      ensures after[i] == Unmet(Parents(txs, i), longer[..head + 1]) + Count(left[1..], i)
      ensures i in longer <==> after[i] == 0
    {
      CountFirst(left, i);
      assert i in queue + [child] <==> i in queue || i == child;
    }
    if after[child] == 0 {
      ReadyChild(txs, queue, head, child);
    }
  }

  lemma {:induction false} CountFirst(s: seq<nat>, x: nat)
    requires s != []
    ensures Count(s, x) == Count(s[1..], x) + if s[0] == x then 1 else 0
  {
    if |s| > 1 {
      CountFirst(s[..|s| - 1], x);
      assert s[..|s| - 1][1..] == s[1..][..|s| - 2];
    } else {
      assert s[1..] == [] && s[..0] == [];
    }
  }

  lemma {:induction false} ReadyChild(txs: seq<Transaction>, queue: seq<nat>, head: nat, child: nat)
    requires ParentsFirst(txs, queue) && head < |queue| && child < |txs| && child !in queue
    requires Unmet(Parents(txs, child), queue[..head + 1]) == 0
    ensures ParentsFirst(txs, queue + [child])
  {
    hide Parents, Unmet;
    UnmetNone(Parents(txs, child), queue[..head + 1]);
    var longer := queue + [child];
    forall k, p | 0 <= k < |longer| && longer[k] < |txs| && p in Parents(txs, longer[k])
      ensures p in longer[..k]
    {
      if k < |queue| {
        assert longer[..k] == queue[..k];
      } else {
        assert p in queue[..head + 1];
        assert longer[..k] == queue;
      }
    }
  }

  lemma {:induction false} EndCounting(txs: seq<Transaction>, queue: seq<nat>, head: nat, inDegree: seq<nat>)
    requires CountingDown(txs, queue, head, inDegree, [])
    ensures Progressing(txs, queue, head + 1, inDegree) && |queue| <= |txs|
  {
    hide Parents, Unmet;
    assert forall i :: Count([], i) == 0;
    QueueBound(txs, queue);
  }

  lemma {:induction false} QueueBound(txs: seq<Transaction>, queue: seq<nat>)
    requires ParentsFirst(txs, queue)
    ensures |queue| <= |txs|
  {
    hide Parents;
    DistinctBound(queue, |txs|);
  }

  lemma {:induction false} AllProcessed(txs: seq<Transaction>, queue: seq<nat>, inDegree: seq<nat>)
    requires Progressing(txs, queue, |queue|, inDegree)
    ensures ParentsFirst(txs, queue) && Saturated(txs, queue)
  {
    hide Parents, Unmet;
    assert queue[..|queue|] == queue;
    forall i | 0 <= i < |txs| && i !in queue
      ensures exists p :: p in Parents(txs, i) && p !in queue
    {
      UnmetNone(Parents(txs, i), queue);
    }
  }

  function Arranged(txs: seq<Transaction>, order: seq<nat>): (r: seq<Transaction>)
    requires Within(txs, order)
    ensures |r| == |order| && forall k :: 0 <= k < |order| ==> r[k] == txs[order[k]]
  {
    if order == [] then []
    else
      Arranged(txs, order[..|order| - 1]) + [txs[order[|order| - 1]]]
  }

  /** An order of all transactions rearranges them. */
  lemma {:induction false} ArrangedPermutes(txs: seq<Transaction>, order: seq<nat>)
    requires Within(txs, order) && Distinct(order) && forall i :: 0 <= i < |txs| ==> i in order
    ensures multiset(Arranged(txs, order)) == multiset(txs)
    decreases |txs|
  {
    if order == [] {
      assert txs != [] ==> 0 in order;
    } else {
      assert order[0] < |txs|;
      var k := WhereLast(txs, order);
      hide *;
      ArrangedPermutes(txs[..|txs| - 1], order[..k] + order[k + 1..]);
      LastPutBack(txs, order, k);
    }
  }

  lemma {:induction false} LastPutBack(txs: seq<Transaction>, order: seq<nat>, k: nat)
    requires txs != [] && Within(txs, order) && k < |order| && order[k] == |txs| - 1
    requires Within(txs[..|txs| - 1], order[..k] + order[k + 1..])
    requires multiset(Arranged(txs[..|txs| - 1], order[..k] + order[k + 1..])) == multiset(txs[..|txs| - 1])
    ensures multiset(Arranged(txs, order)) == multiset(txs)
  {
    hide *;
    var a := Arranged(txs, order);
    ArrangedRest(txs, order, k);
    TakeOne(txs, |txs| - 1);
    TakeOne(a, k);
    assert txs[..|txs| - 1] + txs[|txs|..] == txs[..|txs| - 1];
  }

  /** Where the last transaction stands; without it the order covers the others. */
  lemma {:induction false} WhereLast(txs: seq<Transaction>, order: seq<nat>) returns (k: nat)
    requires txs != [] && Within(txs, order) && Distinct(order) && forall i :: 0 <= i < |txs| ==> i in order
    ensures k < |order| && order[k] == |txs| - 1
    ensures var front, rest := txs[..|txs| - 1], order[..k] + order[k + 1..];
      Within(front, rest) && Distinct(rest) && forall i :: 0 <= i < |front| ==> i in rest
  {
    var n := |txs| - 1;
    assert n in order;
    k :| 0 <= k < |order| && order[k] == n;
    RestDistinct(order, k);
    forall x | x in order
      ensures x <= n
    {
    }
    RestCovers(order, k, n);
    hide Distinct;
    var rest := order[..k] + order[k + 1..];
    forall j | 0 <= j < |rest|
      ensures rest[j] < n
    {
      assert rest[j] in rest;
    }
  }

  lemma {:induction false} TakeOne(s: seq<Transaction>, k: nat)
    requires k < |s|
    ensures multiset(s) == multiset(s[..k] + s[k + 1..]) + multiset{s[k]}
  {
    assert s == s[..k] + [s[k]] + s[k + 1..];
  }

  lemma {:induction false} ArrangedRest(txs: seq<Transaction>, order: seq<nat>, k: nat)
    requires txs != [] && Within(txs, order) && k < |order| && order[k] == |txs| - 1
    requires Within(txs[..|txs| - 1], order[..k] + order[k + 1..])
    ensures var a := Arranged(txs, order);
      Arranged(txs[..|txs| - 1], order[..k] + order[k + 1..]) == a[..k] + a[k + 1..]
  {
    hide Arranged;
    var front, rest := txs[..|txs| - 1], order[..k] + order[k + 1..];
    var a, b := Arranged(txs, order), Arranged(front, rest);
    forall j | 0 <= j < |b|
      ensures b[j] == (a[..k] + a[k + 1..])[j]
    {
      assert rest[j] == order[if j < k then j else j + 1];
    }
  }

  lemma {:induction false} RestCovers(order: seq<nat>, k: nat, n: nat)
    requires k < |order| && order[k] == n && Distinct(order)
    requires (forall x :: x in order ==> x <= n) && forall i :: 0 <= i <= n ==> i in order
    ensures var rest := order[..k] + order[k + 1..];
      (forall x :: x in rest ==> x < n) && forall i :: 0 <= i < n ==> i in rest
  {
    var rest := order[..k] + order[k + 1..];
    RestDistinct(order, k);
    forall i | 0 <= i < n
      ensures i in rest
    {
      assert i in order;
      var j :| 0 <= j < |order| && order[j] == i;
      assert rest[if j < k then j else j - 1] == i;
    }
  }

  /** What the sort can keep it keeps: a permutation whenever the dependencies can be ordered. */
  lemma {:induction false} SortPermutes(txs: seq<Transaction>, order: seq<nat>)
    requires ParentsFirst(txs, order) && Saturated(txs, order) && Within(txs, order) && Orderable(txs)
    ensures multiset(Arranged(txs, order)) == multiset(txs)
  {
    CompleteIffOrderable(txs, order);
    assert Distinct(order);
    hide *;
    ArrangedPermutes(txs, order);
  }

  method TopologicalSort(txs: seq<Transaction>) returns (result: seq<Transaction>, ghost order: seq<nat>)
    ensures ParentsFirst(txs, order) && Saturated(txs, order)
    ensures result == Arranged(txs, order)
    ensures Orderable(txs) ==> multiset(result) == multiset(txs)
  {
    hide ParentsFirst, Saturated, Orderable;
    if |txs| <= 1 {
      order := if |txs| == 0 then [] else [0];
      TrivialOrder(txs, order);
      return txs, order;
    }
    var queue := TopologicalOrder(txs);
    order := queue;
    OrderIndices(txs, queue);
    result := [];
    var head := 0;
    while head < |queue|
      invariant 0 <= head <= |queue| && |result| == head
      invariant forall k :: 0 <= k < head ==> result[k] == txs[queue[k]]
    {
      result := result + [txs[queue[head]]];
      head := head + 1;
    }
    assert result == Arranged(txs, order);
    if Orderable(txs) {
      SortPermutes(txs, order);
    }
  }

  lemma {:induction false} OrderIndices(txs: seq<Transaction>, order: seq<nat>)
    requires ParentsFirst(txs, order)
    ensures Within(txs, order)
  {
    hide Parents;
  }

  lemma {:induction false} TrivialOrder(txs: seq<Transaction>, order: seq<nat>)
    requires |txs| <= 1 && order == if |txs| == 0 then [] else [0]
    ensures ParentsFirst(txs, order) && Saturated(txs, order) && txs == Arranged(txs, order)
  {
    hide ParentsUpTo;
    if |txs| == 1 {
      NoParents(txs, |txs[0].inputs|);
    }
  }

  lemma {:induction false} NoParents(txs: seq<Transaction>, n: nat)
    requires |txs| == 1 && n <= |txs[0].inputs|
    ensures ParentsUpTo(txs, 0, n) == []
  {
    if n > 0 {
      NoParents(txs, n - 1);
    }
  }

  // ---- What the order means for hashes ----

  predicate DistinctIds(txs: seq<Transaction>) {
    forall i, j :: 0 <= i < j < |txs| ==> txs[i].hash != txs[j].hash
  }

  lemma {:induction false} NamedIsParent(txs: seq<Transaction>, i: nat, n: nat, k: nat, p: nat)
    requires i < |txs| && k < n <= |txs[i].inputs|
    requires IndexOf(txs, |txs|, txs[i].inputs[k].hash) == Some(p) && p != i
    ensures p in ParentsUpTo(txs, i, n)
  {
    if k < n - 1 {
      NamedIsParent(txs, i, n - 1, k, p);
    }
  }

  lemma {:induction false} ParentIsNamed(txs: seq<Transaction>, i: nat, n: nat, p: nat)
    requires i < |txs| && n <= |txs[i].inputs| && p in ParentsUpTo(txs, i, n)
    ensures exists k :: 0 <= k < n && IndexOf(txs, |txs|, txs[i].inputs[k].hash) == Some(p)
  {
    if n > 0 && p in ParentsUpTo(txs, i, n - 1) {
      ParentIsNamed(txs, i, n - 1, p);
    }
  }

  /** In the output every in-block parent of a transaction stands before it. */
  lemma {:induction false} ParentsPrecede(txs: seq<Transaction>, order: seq<nat>, k: nat, input: nat)
    requires ParentsFirst(txs, order) && k < |order|
    requires Within(txs, order) && input < |txs[order[k]].inputs|
    requires var h := txs[order[k]].inputs[input].hash;
      h != txs[order[k]].hash && exists m :: 0 <= m < |txs| && txs[m].hash == h
    ensures exists j :: 0 <= j < k && Arranged(txs, order)[j].hash == txs[order[k]].inputs[input].hash
  {
    var i := order[k];
    var h := txs[i].inputs[input].hash;
    var p := IndexOf(txs, |txs|, h).value;
    NamedIsParent(txs, i, |txs[i].inputs|, input, p);
    assert p in Parents(txs, order[k]);
    assert p in order[..k];
    assert txs[p].hash == h;
    hide *;
    var j :| 0 <= j < k && order[..k][j] == p;
    assert order[j] == p;
    assert Arranged(txs, order)[j].hash == h;
  }

  // ---- Greedy selection ----

  const INT64_MAX := 0x7FFF_FFFF_FFFF_FFFF

  datatype Candidate = Candidate(tx: Transaction, weight: nat, sigops: nat, fee: nat)

  datatype Limits = Limits(weight: nat, sigops: nat, reservedWeight: nat, reservedSigops: nat)

  datatype Selection = Selection(txs: seq<Transaction>, fees: nat, weight: nat, sigops: nat)

  function HashesOf(cs: seq<Candidate>): set<Hash> {
    set c | c in cs :: c.tx.hash
  }

  function Selected(txs: seq<Transaction>): set<Hash> {
    set tx | tx in txs :: tx.hash
  }

  /** All parents waiting in the pool are selected already. */
  predicate ParentsSelected(tx: Transaction, pool: set<Hash>, selected: set<Hash>) {
    forall k :: 0 <= k < |tx.inputs| && tx.inputs[k] != NULL_OUTPOINT && tx.inputs[k].hash in pool ==>
      tx.inputs[k].hash in selected
  }

  predicate Fits(s: Selection, c: Candidate, limits: Limits) {
    s.weight + c.weight <= limits.weight && s.sigops + c.sigops <= limits.sigops
  }

  function Take(s: Selection, c: Candidate): Selection {
    Selection(s.txs + [c.tx], if s.fees + c.fee > INT64_MAX then INT64_MAX else s.fees + c.fee, s.weight + c.weight,
              s.sigops + c.sigops)
  }

  /** The first `n` candidates, best fee rate first, each taken if it fits and its parents are in. */
  function Greedy(cs: seq<Candidate>, n: nat, limits: Limits): Selection
    requires n <= |cs|
  {
    if n == 0 then Selection([], 0, limits.reservedWeight, limits.reservedSigops)
    else
      var s := Greedy(cs, n - 1, limits);
      if Fits(s, cs[n - 1], limits) && ParentsSelected(cs[n - 1].tx, HashesOf(cs), Selected(s.txs))
      then Take(s, cs[n - 1]) else s
  }

  /** Distinct, non-null transaction ids. */
  predicate ProperIds(cs: seq<Candidate>) {
    && (forall i, j :: 0 <= i < j < |cs| ==> cs[i].tx.hash != cs[j].tx.hash)
    && forall i :: 0 <= i < |cs| ==> cs[i].tx.hash != ZERO_HASH
  }

  /** Every transaction's parents in the pool come before it. */
  predicate ParentClosed(txs: seq<Transaction>, pool: set<Hash>) {
    forall k :: 0 <= k < |txs| ==> ParentsSelected(txs[k], pool, Selected(txs[..k]))
  }

  /** Every transaction is one of the first `n` candidates. */
  predicate Drawn(txs: seq<Transaction>, cs: seq<Candidate>, n: nat)
    requires n <= |cs|
  {
    forall k :: 0 <= k < |txs| ==> exists i :: 0 <= i < n && cs[i].tx == txs[k]
  }

  lemma {:induction false} GreedyClosed(cs: seq<Candidate>, n: nat, limits: Limits)
    requires n <= |cs| && ProperIds(cs) && limits.reservedWeight <= limits.weight && limits.reservedSigops <= limits.sigops
    ensures var s := Greedy(cs, n, limits);
      && ParentClosed(s.txs, HashesOf(cs)) && DistinctIds(s.txs)
      && Drawn(s.txs, cs, n)
      && s.weight <= limits.weight && s.sigops <= limits.sigops
  {
    hide ParentsSelected;
    if n > 0 {
      GreedyClosed(cs, n - 1, limits);
      var s, c := Greedy(cs, n - 1, limits), cs[n - 1];
      if Greedy(cs, n, limits) != s {
        ClosedMore(s.txs, c.tx, HashesOf(cs));
      }
    }
  }

  lemma {:induction false} ClosedMore(txs: seq<Transaction>, tx: Transaction, pool: set<Hash>)
    requires ParentClosed(txs, pool) && ParentsSelected(tx, pool, Selected(txs))
    ensures ParentClosed(txs + [tx], pool)
  {
    hide ParentsSelected, Selected;
    var more := txs + [tx];
    forall k | 0 <= k < |more|
      ensures ParentsSelected(more[k], pool, Selected(more[..k]))
    {
      if k < |txs| {
        assert more[..k] == txs[..k];
      } else {
        assert more[..k] == txs;
      }
    }
  }

  /** The totals of those among the first `n` candidates whose id is in `ids`, counted afresh. */
  datatype Totals = Totals(fees: nat, weight: nat, sigops: nat)

  function Recounted(cs: seq<Candidate>, n: nat, ids: set<Hash>, limits: Limits): Totals
    requires n <= |cs|
  {
    if n == 0 then Totals(0, limits.reservedWeight, limits.reservedSigops)
    else
      var t, c := Recounted(cs, n - 1, ids, limits), cs[n - 1];
      if c.tx.hash in ids then Totals(t.fees + c.fee, t.weight + c.weight, t.sigops + c.sigops) else t
  }

  lemma {:induction false} RecountedSame(cs: seq<Candidate>, n: nat, a: set<Hash>, b: set<Hash>, limits: Limits)
    requires n <= |cs| && forall i :: 0 <= i < n ==> (cs[i].tx.hash in a <==> cs[i].tx.hash in b)
    ensures Recounted(cs, n, a, limits) == Recounted(cs, n, b, limits)
  {
    if n > 0 {
      RecountedSame(cs, n - 1, a, b, limits);
    }
  }

  /** The running totals are those of the selection; fees saturate. */
  lemma {:induction false} GreedyTotals(cs: seq<Candidate>, n: nat, limits: Limits)
    requires n <= |cs| && ProperIds(cs)
    ensures var s := Greedy(cs, n, limits);
      var t := Recounted(cs, n, Selected(s.txs), limits);
      s.weight == t.weight && s.sigops == t.sigops && s.fees == if t.fees > INT64_MAX then INT64_MAX else t.fees
  {
    hide ParentsSelected, Fits, Selected;
    if n > 0 {
      GreedyTotals(cs, n - 1, limits);
      var s, next, c := Greedy(cs, n - 1, limits), Greedy(cs, n, limits), cs[n - 1];
      SelectedEarlier(cs, n - 1, limits);
      if next != s {
        SelectedMore(s.txs, c.tx);
        RecountedSame(cs, n - 1, Selected(s.txs), Selected(next.txs), limits);
      }
    }
  }

  lemma {:induction false} SelectedEarlier(cs: seq<Candidate>, n: nat, limits: Limits)
    requires n <= |cs|
    ensures forall h :: h in Selected(Greedy(cs, n, limits).txs) ==> exists i :: 0 <= i < n && cs[i].tx.hash == h
  {
    hide ParentsSelected, Fits;
    if n > 0 {
      SelectedEarlier(cs, n - 1, limits);
      SelectedMore(Greedy(cs, n - 1, limits).txs, cs[n - 1].tx);
    }
  }

  lemma {:induction false} SelectedMore(txs: seq<Transaction>, tx: Transaction)
    ensures Selected(txs + [tx]) == Selected(txs) + {tx.hash}
  {
    forall t
      ensures t in txs + [tx] <==> t in txs || t == tx
    {
    }
  }

  /** A later candidate's turn finds the totals no smaller and everything selected still there. */
  lemma {:induction false} GreedyGrows(cs: seq<Candidate>, i: nat, n: nat, limits: Limits)
    requires i <= n <= |cs|
    ensures var s, t := Greedy(cs, i, limits), Greedy(cs, n, limits);
      s.weight <= t.weight && s.sigops <= t.sigops && Selected(s.txs) <= Selected(t.txs)
    decreases n
  {
    hide ParentsSelected, Fits;
    if i < n {
      GreedyGrows(cs, i, n - 1, limits);
      SelectedMore(Greedy(cs, n - 1, limits).txs, cs[n - 1].tx);
    }
  }

  /**
   * Whoever was passed over, although its parents had been selected by its turn, does not fit into
   * the finished block either.
   */
  lemma {:induction false} GreedyMaximal(cs: seq<Candidate>, i: nat, limits: Limits)
    requires i < |cs| && cs[i].tx.hash !in Selected(Greedy(cs, |cs|, limits).txs)
    requires ParentsSelected(cs[i].tx, HashesOf(cs), Selected(Greedy(cs, i, limits).txs))
    ensures !Fits(Greedy(cs, |cs|, limits), cs[i], limits)
  {
    hide ParentsSelected;
    SelectedMore(Greedy(cs, i, limits).txs, cs[i].tx);
    GreedyGrows(cs, i + 1, |cs|, limits);
    GreedyGrows(cs, i, |cs|, limits);
  }

  /** A greedy selection is already in an order that respects all dependencies. */
  lemma {:induction false} SelectionOrderable(txs: seq<Transaction>, pool: set<Hash>)
    requires ParentClosed(txs, pool) && DistinctIds(txs)
    requires forall k :: 0 <= k < |txs| ==> txs[k].hash in pool && txs[k].hash != ZERO_HASH
    ensures Orderable(txs)
  {
    var rank := Identity(|txs|);
    forall i, p | 0 <= i < |txs| && p in Parents(txs, i)
      ensures rank[p] < rank[i]
    {
      EarlierParent(txs, pool, i, p);
    }
    assert Respects(txs, rank);
  }

  function Identity(n: nat): (r: seq<nat>)
    ensures |r| == n && forall i :: 0 <= i < n ==> r[i] == i
  {
    if n == 0 then [] else Identity(n - 1) + [n - 1]
  }

  lemma {:induction false} EarlierParent(txs: seq<Transaction>, pool: set<Hash>, i: nat, p: nat)
    requires ParentClosed(txs, pool) && DistinctIds(txs) && i < |txs| && p in Parents(txs, i)
    requires forall k :: 0 <= k < |txs| ==> txs[k].hash in pool && txs[k].hash != ZERO_HASH
    ensures p < i
  {
    ParentIsNamed(txs, i, |txs[i].inputs|, p);
    var k :| 0 <= k < |txs[i].inputs| && IndexOf(txs, |txs|, txs[i].inputs[k].hash) == Some(p);
    var h := txs[i].inputs[k].hash;
    assert txs[p].hash == h;
    assert ParentsSelected(txs[i], pool, Selected(txs[..i]));
    assert h in Selected(txs[..i]);
    var tx :| tx in txs[..i] && tx.hash == h;
    var j :| 0 <= j < i && txs[..i][j] == tx;
    assert txs[j].hash == h;
  }

  /**
   * Selects and sorts. The sort is a permutation of the selection, so the branch that recounts the
   * totals is never taken: the running totals already are what it would compute.
   */
  method Assemble(cs: seq<Candidate>, limits: Limits) returns (result: Selection, ghost order: seq<nat>)
    requires ProperIds(cs) && limits.reservedWeight <= limits.weight && limits.reservedSigops <= limits.sigops
    ensures var chosen := Greedy(cs, |cs|, limits);
      && ParentsFirst(chosen.txs, order) && |order| == |chosen.txs|
      && Within(chosen.txs, order)
      && result == chosen.(txs := Arranged(chosen.txs, order))
      && multiset(result.txs) == multiset(chosen.txs)
    ensures result.weight <= limits.weight && result.sigops <= limits.sigops
    ensures var t := Recounted(cs, |cs|, Selected(result.txs), limits);
      && result.weight == t.weight && result.sigops == t.sigops
      && result.fees == if t.fees > INT64_MAX then INT64_MAX else t.fees
  {
    hide *;
    var s := Select(cs, limits);
    GreedyClosed(cs, |cs|, limits);
    GreedyTotals(cs, |cs|, limits);
    ChosenFromPool(cs, s.txs);
    SelectionOrderable(s.txs, HashesOf(cs));
    var sorted;
    sorted, order := TopologicalSort(s.txs);
    CompleteIffOrderable(s.txs, order);
    OrderIndices(s.txs, order);
    ArrangedSelected(s.txs, order);
    result := s.(txs := sorted);
  }

  /** A full order selects the same transactions. */
  lemma {:induction false} ArrangedSelected(txs: seq<Transaction>, order: seq<nat>)
    requires Within(txs, order) && forall i :: 0 <= i < |txs| ==> i in order
    ensures Selected(Arranged(txs, order)) == Selected(txs)
  {
    var r := Arranged(txs, order);
    forall tx
      ensures tx in r <==> tx in txs
    {
      if tx in txs {
        var i :| 0 <= i < |txs| && txs[i] == tx;
        assert i in order;
        var k :| 0 <= k < |order| && order[k] == i;
        assert r[k] == tx;
      }
    }
  }

  method PoolHashes(cs: seq<Candidate>) returns (pool: set<Hash>)
    ensures pool == HashesOf(cs)
  {
    pool := {};
    var i := 0;
    while i < |cs|
      invariant 0 <= i <= |cs| && pool == HashesOf(cs[..i])
    {
      pool := pool + {cs[i].tx.hash};
      assert cs[..i + 1] == cs[..i] + [cs[i]];
      i := i + 1;
    }
    assert cs[..i] == cs;
  }

  method Select(cs: seq<Candidate>, limits: Limits) returns (s: Selection)
    ensures s == Greedy(cs, |cs|, limits)
  {
    hide ParentsSelected, Fits, HashesOf;
    var pool := PoolHashes(cs);
    s := Selection([], 0, limits.reservedWeight, limits.reservedSigops);
    var selected: set<Hash>, i := {}, 0;
    while i < |cs|
      invariant 0 <= i <= |cs| && s == Greedy(cs, i, limits) && selected == Selected(s.txs)
    {
      if Fits(s, cs[i], limits) && ParentsSelected(cs[i].tx, pool, selected) {
        s := Take(s, cs[i]);
        selected := selected + {cs[i].tx.hash};
      }
      i := i + 1;
    }
  }

  lemma {:induction false} ChosenFromPool(cs: seq<Candidate>, txs: seq<Transaction>)
    requires ProperIds(cs) && Drawn(txs, cs, |cs|)
    ensures forall k :: 0 <= k < |txs| ==> txs[k].hash in HashesOf(cs) && txs[k].hash != ZERO_HASH
  {
    forall k | 0 <= k < |txs|
      ensures txs[k].hash in HashesOf(cs) && txs[k].hash != ZERO_HASH
    {
      var i :| 0 <= i < |cs| && cs[i].tx == txs[k];
      assert cs[i] in cs;
    }
  }
}
