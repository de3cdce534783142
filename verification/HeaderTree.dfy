/**
 * The tree of accepted headers, and paths in it (Sources/Chain/ChainEntry.swift and the index
 * invariants behind Sources/Chain/Chain.swift).
 */
module HeaderTree {
  import opened Base
  import MedianTime

  datatype Header = Header(prevBlock: Hash, merkleRoot: Hash, version: nat, time: nat, bits: nat, nonce: nat, rest: Bytes)

  /** A header with its hash, height and cumulative work. */
  datatype Entry = Entry(hash: Hash, header: Header, height: nat, work: nat)

  type Index = map<Hash, Entry>

  /** `e` extends an entry of the index by one block. */
  predicate Extends(m: Index, e: Entry) {
    && e.height > 0 && e.header.prevBlock in m
    && m[e.header.prevBlock].height + 1 == e.height
    && m[e.header.prevBlock].work < e.work
  }

  /** Every entry is under its own hash; all but the genesis entry extend another. */
  predicate IsTree(m: Index, genesis: Entry) {
    && genesis.height == 0 && genesis.hash in m && m[genesis.hash] == genesis
    && forall h :: h in m ==> m[h].hash == h && (m[h] == genesis || Extends(m, m[h]))
  }

  predicate Has(m: Index, e: Entry) {
    e.hash in m && m[e.hash] == e
  }

  /** The entries from genesis to `e`, following parents. */
  function Path(m: Index, genesis: Entry, e: Entry): (p: seq<Entry>)
    requires IsTree(m, genesis) && Has(m, e)
    ensures |p| == e.height + 1 && p[e.height] == e
    decreases e.height
  {
    if e.height == 0 then [e] else Path(m, genesis, m[e.header.prevBlock]) + [e]
  }

  /** A path holds entries of the index at their own heights, and its prefixes are paths too. */
  lemma {:induction false} PathPrefix(m: Index, genesis: Entry, e: Entry, h: nat)
    requires IsTree(m, genesis) && Has(m, e) && h <= e.height
    ensures var a := Path(m, genesis, e)[h];
      a.height == h && Has(m, a) && Path(m, genesis, a) == Path(m, genesis, e)[..h + 1]
    decreases e.height
  {
    if h < e.height {
      var parent := m[e.header.prevBlock];
      PathPrefix(m, genesis, parent, h);
      assert Path(m, genesis, e)[..h + 1] == Path(m, genesis, parent)[..h + 1];
    }
  }

  lemma {:induction false} PathStart(m: Index, genesis: Entry, e: Entry)
    requires IsTree(m, genesis) && Has(m, e)
    ensures Path(m, genesis, e)[0] == genesis
    decreases e.height
  {
    if e.height > 0 {
      PathStart(m, genesis, m[e.header.prevBlock]);
    }
  }

  /** Two entries of the same path are one step apart when their heights are. */
  lemma {:induction false} PathLink(m: Index, genesis: Entry, e: Entry, h: nat)
    requires IsTree(m, genesis) && Has(m, e) && 0 < h <= e.height
    ensures var p := Path(m, genesis, e);
      p[h].header.prevBlock == p[h - 1].hash && p[h - 1].work < p[h].work
  {
    PathPrefix(m, genesis, e, h);
    var p, a := Path(m, genesis, e), Path(m, genesis, e)[h];
    assert Path(m, genesis, a)[h - 1] == p[..h + 1][h - 1];
    assert Extends(m, a);
  }

  /** Paths survive when the index grows or loses unrelated entries. */
  lemma {:induction false} PathStable(m: Index, n: Index, genesis: Entry, e: Entry)
    requires IsTree(m, genesis) && IsTree(n, genesis) && Has(m, e) && Has(n, e)
    requires forall h :: h in m && h in n ==> m[h] == n[h]
    ensures Path(m, genesis, e) == Path(n, genesis, e)
    decreases e.height
  {
    if e.height > 0 {
      PathStable(m, n, genesis, m[e.header.prevBlock]);
    }
  }

  /** Work only grows along a path. */
  lemma {:induction false} WorkGrows(m: Index, genesis: Entry, e: Entry, h: nat)
    requires IsTree(m, genesis) && Has(m, e) && h < e.height
    ensures Path(m, genesis, e)[h].work < e.work
    decreases e.height
  {
    if h < e.height - 1 {
      WorkGrows(m, genesis, m[e.header.prevBlock], h);
    }
  }

  // ---- Timestamps ----

  /** The timestamps of a path, newest first. */
  function NewestFirst(p: seq<Entry>): (t: seq<nat>)
    ensures |t| == |p|
  {
    if p == [] then [] else [p[|p| - 1].header.time] + NewestFirst(p[..|p| - 1])
  }

  /** The median time past of the last entry of a path. */
  function MedianPast(p: seq<Entry>, span: nat): nat
    requires span > 0
  {
    MedianTime.Compute(NewestFirst(p), span)
  }

  /** Every entry above genesis is later than the median time before it. */
  predicate Timely(p: seq<Entry>, span: nat)
    requires span > 0
  {
    forall i {:trigger p[..i]} :: 0 < i < |p| ==> p[i].header.time > MedianPast(p[..i], span)
  }

  /** Along a timely path the median time past never falls. */
  lemma {:induction false} MedianMonotone(p: seq<Entry>, i: nat, j: nat, span: nat)
    requires span > 0 && Timely(p, span) && 0 < i <= j <= |p|
    ensures MedianPast(p[..i], span) <= MedianPast(p[..j], span)
  {
    if i < j {
      MedianMonotone(p, i, j - 1, span);
      MedianStep(p, j, span);
    }
  }

  lemma {:induction false} MedianStep(p: seq<Entry>, j: nat, span: nat)
    requires span > 0 && Timely(p, span) && 1 < j <= |p|
    ensures MedianPast(p[..j - 1], span) <= MedianPast(p[..j], span)
  {
    assert p[j - 1].header.time > MedianPast(p[..j - 1], span);
    NewestMore(p, j);
    hide Timely, NewestFirst, MedianTime.Compute;
    MedianTime.MedianNeverFalls(p[j - 1].header.time, NewestFirst(p[..j - 1]), span);
  }

  lemma {:induction false} NewestMore(p: seq<Entry>, j: nat)
    requires 0 < j <= |p|
    ensures NewestFirst(p[..j]) == [p[j - 1].header.time] + NewestFirst(p[..j - 1])
  {
    assert p[..j][..j - 1] == p[..j - 1];
  }
}
