/**
 * What an accepted proof says of its samples, string by string and pair by pair, and that it says no
 * more (Sources/ExtCrypto/BalloonProof.swift, lines 115 to 183).
 */
module BalloonVerdict {
  import opened Base
  import opened Balloon

  /** The sample recomputes slot `i`: expand value, neighbour, and mixed value, which is the output in the last slot. */
  predicate Recomputes(x: Instance, s: Sample, i: nat, output: Bytes)
    requires Hashes32(x.h) && x.slots > 0
  {
    var at := U64(x.slots + 2 * i + 1);
    var primary := x.h(U64(x.slots + 2 * i) + s.expandValue + s.depPrev);
    && s.index == i
    && s.expandValue == x.h(if i == 0 then U64(0) + x.password + x.salt else U64(i) + s.expandPrev)
    && s.randomIdx == LittleEndian(x.h(at + U64(0) + U64(i) + U64(0))[..8]) % x.slots
    && s.mixedValue == x.h(at + primary + if s.randomIdx == i then primary else s.depRandom)
    && (i == x.slots - 1 ==> s.mixedValue == output)
  }

  lemma {:induction false} HoldsIsRecomputes(x: Instance, s: Sample, i: nat, output: Bytes)
    requires Hashes32(x.h) && x.slots > 0
    ensures SampleHolds(x, s, i, output) <==> Recomputes(x, s, i, output)
  {
    hide LittleEndianBytes, LittleEndian;
  }

  /** Wherever two samples are of adjacent slots, the later one's predecessor is the earlier one's value. */
  predicate Linked(t: seq<Sample>) {
    forall j, k :: 0 <= j < |t| && 0 <= k < |t| && t[j].index + 1 == t[k].index ==> t[j].expandValue == t[k].expandPrev
  }

  predicate Ascends(t: seq<Sample>) {
    forall j, k :: 0 <= j < k < |t| ==> t[j].index < t[k].index
  }

  predicate DistinctSlots(t: seq<Sample>) {
    forall j, k :: 0 <= j < k < |t| ==> t[j].index != t[k].index
  }

  lemma {:induction false} InsertAscends(s: Sample, t: seq<Sample>)
    requires Ascends(t) && forall e :: e in t ==> e.index != s.index
    ensures Ascends(InsertByIndex(s, t))
    ensures forall e :: e in InsertByIndex(s, t) <==> e == s || e in t
  {
    if t != [] && s.index > t[0].index {
      InsertAscends(s, t[1..]);
      var rest := InsertByIndex(s, t[1..]);
      forall k | 0 <= k < |rest|
        ensures t[0].index < rest[k].index
      {
        assert rest[k] in rest;
      }
      assert t == [t[0]] + t[1..];
    }
  }

  lemma {:induction false} SortAscends(t: seq<Sample>)
    requires DistinctSlots(t)
    ensures Ascends(SortedByIndex(t)) && forall e :: e in SortedByIndex(t) <==> e in t
  {
    if t != [] {
      SortAscends(t[1..]);
      forall e | e in SortedByIndex(t[1..])
        ensures e.index != t[0].index
      {
        var k :| 0 <= k < |t[1..]| && t[1..][k] == e;
        assert t[k + 1] == e;
      }
      InsertAscends(t[0], SortedByIndex(t[1..]));
      assert t == [t[0]] + t[1..];
    }
  }

  /** In ascending order adjacent slots stand side by side. */
  lemma {:induction false} SideBySide(t: seq<Sample>, j: nat, k: nat)
    requires Ascends(t) && j < |t| && k < |t| && t[j].index + 1 == t[k].index
    ensures k == j + 1
  {
    if j + 1 < |t| {
      assert t[j].index < t[j + 1].index;
    }
  }

  lemma {:induction false} ConsistentLinks(t: seq<Sample>, u: seq<Sample>, j: nat, k: nat)
    requires Ascends(u) && (forall e :: e in t ==> e in u) && Consistent(u)
    requires j < |t| && k < |t| && t[j].index + 1 == t[k].index
    ensures t[j].expandValue == t[k].expandPrev
  {
    hide Ascends, Consistent;
    assert t[j] in u && t[k] in u;
    var a :| 0 <= a < |u| && u[a] == t[j];
    var b :| 0 <= b < |u| && u[b] == t[k];
    SideBySide(u, a, b);
    PairAgrees(u, a);
  }

  lemma {:induction false} PairAgrees(u: seq<Sample>, a: nat)
    requires Consistent(u) && a + 1 < |u| && u[a].index + 1 == u[a + 1].index
    ensures u[a].expandValue == u[a + 1].expandPrev
  {
  }

  lemma {:induction false} LinkedAgrees(t: seq<Sample>, u: seq<Sample>, a: nat)
    requires Linked(t) && (forall e :: e in u ==> e in t) && a + 1 < |u| && u[a].index + 1 == u[a + 1].index
    ensures u[a].expandValue == u[a + 1].expandPrev
  {
    hide Linked;
    assert u[a] in t && u[a + 1] in t;
    var j :| 0 <= j < |t| && t[j] == u[a];
    var k :| 0 <= k < |t| && t[k] == u[a + 1];
    LinkAgrees(t, j, k);
  }

  lemma {:induction false} LinkAgrees(t: seq<Sample>, j: nat, k: nat)
    requires Linked(t) && j < |t| && k < |t| && t[j].index + 1 == t[k].index
    ensures t[j].expandValue == t[k].expandPrev
  {
  }

  lemma {:induction false} AllLinked(t: seq<Sample>, u: seq<Sample>)
    requires Ascends(u) && (forall e :: e in t ==> e in u) && Consistent(u)
    ensures Linked(t)
  {
    hide Ascends, Consistent;
    forall j, k | 0 <= j < |t| && 0 <= k < |t| && t[j].index + 1 == t[k].index
      ensures t[j].expandValue == t[k].expandPrev
    {
      ConsistentLinks(t, u, j, k);
    }
  }

  lemma {:induction false} AllConsistent(t: seq<Sample>, u: seq<Sample>)
    requires Linked(t) && forall e :: e in u ==> e in t
    ensures Consistent(u)
  {
    hide Linked;
    forall a {:trigger u[a]} | 0 <= a < |u| - 1 && u[a].index + 1 == u[a + 1].index && u[a + 1].index > 0
      ensures u[a].expandValue == u[a + 1].expandPrev
    {
      LinkedAgrees(t, u, a);
    }
  }

  /** Comparing neighbours in sorted order compares all adjacent slots. */
  lemma {:induction false} ConsistentIsLinked(t: seq<Sample>)
    requires DistinctSlots(t)
    ensures Consistent(SortedByIndex(t)) <==> Linked(t)
  {
    hide *;
    SortAscends(t);
    var u := SortedByIndex(t);
    if Consistent(u) {
      AllLinked(t, u);
    }
    if Linked(t) {
      AllConsistent(t, u);
    }
  }

  /**
   * With more slots than samples a proof is accepted if and only if it has one sample for each
   * challenge, each recomputes its slot, and samples of adjacent slots agree on the expand chain.
   */
  lemma {:induction false} AcceptedExactly(x: Instance, samples: seq<Sample>, output: Bytes, challenges: seq<nat>)
    requires Hashes32(x.h) && x.slots > 0
    requires |challenges| == SAMPLES && forall j, k :: 0 <= j < k < SAMPLES ==> challenges[j] != challenges[k]
    ensures Accepts(x, samples, output, challenges) <==>
      && |samples| == 32
      && (forall k :: 0 <= k < 32 ==> Recomputes(x, samples[k], challenges[k], output))
      && Linked(samples)
  {
    hide SampleHolds, Recomputes, SortedByIndex, Linked, Consistent;
    if |samples| == SAMPLES {
      forall k | 0 <= k < SAMPLES
        ensures SampleHolds(x, samples[k], challenges[k], output) <==> Recomputes(x, samples[k], challenges[k], output)
        ensures SampleHolds(x, samples[k], challenges[k], output) ==> samples[k].index == challenges[k]
      {
        HoldsIsRecomputes(x, samples[k], challenges[k], output);
        RightSlot(x, samples[k], challenges[k], output);
      }
      if forall k :: 0 <= k < SAMPLES ==> SampleHolds(x, samples[k], challenges[k], output) {
        ConsistentIsLinked(samples);
      }
    }
  }

  lemma {:induction false} RightSlot(x: Instance, s: Sample, i: nat, output: Bytes)
    requires Hashes32(x.h) && x.slots > 0
    ensures SampleHolds(x, s, i, output) ==> s.index == i
  {
    hide LittleEndianBytes, LittleEndian;
  }
}
