/** Median time past (Sources/Chain/MedianTime.swift). */
module MedianTime {
  import opened Base

  function Insert(x: nat, s: seq<nat>): (r: seq<nat>)
    ensures |r| == |s| + 1
  {
    if s == [] then [x]
    else if x <= s[0] then [x] + s
    else [s[0]] + Insert(x, s[1..])
  }

  function Sorted(s: seq<nat>): (r: seq<nat>)
    ensures |r| == |s|
  {
    if s == [] then [] else Insert(s[0], Sorted(s[1..]))
  }

  /** The middle one of the first `span` timestamps, which are given newest first. */
  function Compute(timestamps: seq<nat>, span: nat): nat
    requires span > 0
  {
    if timestamps == [] then 0
    else
      var count := Min(|timestamps|, span);
      Sorted(timestamps[..count])[count / 2]
  }

  // ---- A median is decided by counting ----

  function CountBelow(s: seq<nat>, m: nat): nat {
    if s == [] then 0 else (if s[0] < m then 1 else 0) + CountBelow(s[1..], m)
  }

  predicate Ascending(s: seq<nat>) {
    forall i, j :: 0 <= i < j < |s| ==> s[i] <= s[j]
  }

  lemma {:induction false} InsertCounts(x: nat, s: seq<nat>, m: nat)
    ensures CountBelow(Insert(x, s), m) == CountBelow(s, m) + if x < m then 1 else 0
  {
    if s != [] && x > s[0] {
      InsertCounts(x, s[1..], m);
    }
  }

  lemma {:induction false} InsertAscends(x: nat, s: seq<nat>)
    requires Ascending(s)
    ensures Ascending(Insert(x, s))
    ensures Insert(x, s)[0] == if s == [] || x <= s[0] then x else s[0]
  {
    if s != [] && x > s[0] {
      InsertAscends(x, s[1..]);
      var rest := Insert(x, s[1..]);
      assert s[0] <= rest[0];
      assert forall j :: 0 <= j < |rest| ==> s[0] <= rest[j];
    }
  }

  lemma {:induction false} SortedAscends(s: seq<nat>, m: nat)
    ensures Ascending(Sorted(s)) && CountBelow(Sorted(s), m) == CountBelow(s, m)
  {
    if s != [] {
      SortedAscends(s[1..], m);
      InsertAscends(s[0], Sorted(s[1..]));
      InsertCounts(s[0], Sorted(s[1..]), m);
    }
  }

  lemma {:induction false} AscendingCount(s: seq<nat>, k: nat, m: nat)
    requires Ascending(s) && k < |s|
    ensures s[k] >= m <==> CountBelow(s, m) <= k
  {
    if s[0] >= m {
      NoneBelow(s, m);
    } else if k > 0 {
      AscendingCount(s[1..], k - 1, m);
    } else {
      assert CountBelow(s, m) >= 1;
    }
  }

  lemma {:induction false} NoneBelow(s: seq<nat>, m: nat)
    requires forall i :: 0 <= i < |s| ==> s[i] >= m
    ensures CountBelow(s, m) == 0
  {
    if s != [] {
      NoneBelow(s[1..], m);
    }
  }

  /** The element of rank `k` is at least `m` exactly when at most `k` elements are below `m`. */
  lemma {:induction false} RankByCount(s: seq<nat>, k: nat, m: nat)
    requires k < |s|
    ensures Sorted(s)[k] >= m <==> CountBelow(s, m) <= k
  {
    SortedAscends(s, m);
    AscendingCount(Sorted(s), k, m);
  }

  lemma {:induction false} CountPrefix(s: seq<nat>, n: nat, m: nat)
    requires n <= |s|
    ensures CountBelow(s[..n], m) <= CountBelow(s, m)
  {
    if n > 0 {
      CountPrefix(s[1..], n - 1, m);
      assert s[..n][1..] == s[1..][..n - 1];
    }
  }

  /**
   * A newer timestamp above the median never lowers it, neither while fewer than `span` blocks
   * exist nor once the oldest of them drops out.
   */
  lemma {:induction false} MedianNeverFalls(newest: nat, timestamps: seq<nat>, span: nat)
    requires span > 0 && (timestamps != [] ==> newest > Compute(timestamps, span))
    ensures Compute([newest] + timestamps, span) >= Compute(timestamps, span)
  {
    if timestamps != [] {
      var m := Compute(timestamps, span);
      var count, more := Min(|timestamps|, span), Min(|timestamps| + 1, span);
      var was, now := timestamps[..count], ([newest] + timestamps)[..more];
      RankByCount(was, count / 2, m);
      assert now == [newest] + was[..more - 1];
      CountPrefix(was, more - 1, m);
      RankByCount(now, more / 2, m);
    }
  }
}
