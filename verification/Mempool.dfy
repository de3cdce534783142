/**
 * The transaction pool and its indices (Sources/Mempool/Mempool.swift). Policy, scripts and covenant
 * checks that only accept or refuse are parameters of acceptance.
 */
module Mempool {
  import opened Base
  import opened Sums
  import opened Covenants
  import opened ContractState
  import Coins

  const MAX_SIZE := 100_000_000
  const THRESHOLD := MAX_SIZE * 9 / 10
  const EXPIRY := 259_200
  const OVERHEAD := 200

  datatype Entry = Entry(tx: Transaction, serializedSize: nat, rate: int, time: nat)

  type Entries = map<Hash, Entry>

  type Spents = map<Outpoint, Hash>

  datatype MempoolError = CoinbaseTx | AlreadyExists | Insane | NonStandard | DoubleSpend | NameConflict | Invalid
    | MempoolFull | TooManySigops

  function Estimate(e: Entry): int {
    OVERHEAD + e.serializedSize
  }

  lemma {:induction false} EstimateIs(e: Entry)
    ensures Estimate(e) == 200 + e.serializedSize
  {
  }

  function Estimates(m: Entries): map<Hash, int> {
    map h | h in m :: Estimate(m[h])
  }

  /** The estimated size of all entries. */
  ghost function Total(m: Entries): int {
    Sum(Estimates(m))
  }

  lemma {:induction false} TotalRemove(m: Entries, h: Hash)
    requires h in m
    ensures Total(m) == Total(m - {h}) + Estimate(m[h])
  {
    SumRemove(Estimates(m), h);
    assert Estimates(m - {h}) == Estimates(m) - {h};
  }

  lemma {:induction false} TotalAdd(m: Entries, h: Hash, e: Entry)
    requires h !in m
    ensures Total(m[h := e]) == Total(m) + Estimate(e)
  {
    TotalRemove(m[h := e], h);
    assert m[h := e] - {h} == m;
  }

  function Transactions(m: Entries): Pool {
    map h | h in m :: m[h].tx
  }

  /** The kinds of output that only one transaction of the pool may make for a name. */
  const EXCLUSIVE := {Open, Register, Update, Renew, Transfer, Finalize, Revoke}

  predicate ClaimsName(tx: Transaction, name: Hash) {
    |name| == 32 && exists k :: 0 <= k < |tx.outputs| && ClaimedBy(tx.outputs[k], name)
  }

  predicate ClaimedBy(output: Output, name: Hash) {
    output.covenant.kind in EXCLUSIVE && |output.covenant.items| > 0 && output.covenant.items[0] == name
  }

  /** What each refusal before the size check says, of the pool's transactions themselves. */
  ghost predicate Faulty(x: MempoolError, m: Entries, tx: Transaction, policyOk: bool, contextOk: bool) {
    match x
    case CoinbaseTx => tx.inputs != [] && tx.inputs[0] == NULL_OUTPOINT
    case AlreadyExists => tx.hash in m
    case Insane => !Coins.SaneTransaction(tx)
    case NonStandard => !policyOk
    case DoubleSpend =>
      exists h, op :: h in m && op in m[h].tx.inputs && op in tx.inputs && op != NULL_OUTPOINT
    case NameConflict => exists h, name :: h in m && ClaimsName(m[h].tx, name) && ClaimsName(tx, name)
    case Invalid => !contextOk
    case MempoolFull | TooManySigops => false
  }

  ghost predicate Faultless(m: Entries, tx: Transaction, policyOk: bool, contextOk: bool) {
    forall x :: !Faulty(x, m, tx, policyOk, contextOk)
  }

  /** An output claims a name exactly by an exclusive operation on it. */
  lemma {:induction false} ClaimsByKind(tx: Transaction, name: Hash)
    ensures ClaimsName(tx, name) <==> Claims(tx, name)
  {
    TouchesSome(tx.outputs, |tx.outputs|, Opening, name);
    TouchesSome(tx.outputs, |tx.outputs|, Updating, name);
    forall k | 0 <= k < |tx.outputs|
      ensures OperationOf(tx.outputs[k]) in {Some((name, Opening)), Some((name, Updating))} <==>
        |name| == 32 && ClaimedBy(tx.outputs[k], name)
    {
    }
  }

  lemma {:induction false} TouchesSome(outputs: seq<Output>, n: nat, role: Role, name: Hash)
    requires n <= |outputs|
    ensures Touches(outputs, n, role, name) <==> exists k :: 0 <= k < n && OperationOf(outputs[k]) == Some((name, role))
  {
    hide OperationOf;
    if n > 0 {
      TouchesSome(outputs, n - 1, role, name);
    }
  }

  /** Nothing in the pool spends what the transaction spends exactly when the index has none of it. */
  lemma {:induction false} DoubleSpendBySpents(m: Entries, spents: Spents, e: Entry)
    requires Inverse(m, spents)
    ensures (exists op :: Spends(e, op) && op in spents) <==>
      exists h, op :: h in m && op in m[h].tx.inputs && op in e.tx.inputs && op != NULL_OUTPOINT
  {
    if op :| Spends(e, op) && op in spents {
      assert Spends(m[spents[op]], op);
      assert spents[op] in m && op in m[spents[op]].tx.inputs;
    }
    if h, op :| h in m && op in m[h].tx.inputs && op in e.tx.inputs && op != NULL_OUTPOINT {
      assert Spends(m[h], op);
      assert Spends(e, op);
    }
  }

  lemma {:induction false} ClashByPool(m: Entries, c: Contracts, tx: Transaction)
    requires Describes(c, Transactions(m))
    ensures (exists k :: 0 <= k < |tx.outputs| && Clashes(c.unique, tx.outputs[k])) <==>
      exists h, name :: h in m && ClaimsName(m[h].tx, name) && ClaimsName(tx, name)
  {
    hide Touches, ClaimsName, OperationOf;
    if k :| 0 <= k < |tx.outputs| && Clashes(c.unique, tx.outputs[k]) {
      var operation := OperationOf(tx.outputs[k]).value;
      var name := operation.0;
      TouchesSome(tx.outputs, |tx.outputs|, operation.1, name);
      ClaimsByKind(tx, name);
      var h :| h in Holders(Transactions(m), Opening, name) + Holders(Transactions(m), Updating, name);
      ClaimsByKind(m[h].tx, name);
      assert h in m && ClaimsName(m[h].tx, name) && ClaimsName(tx, name);
    }
    if h, name :| h in m && ClaimsName(m[h].tx, name) && ClaimsName(tx, name) {
      ClaimsByKind(m[h].tx, name);
      ClaimsByKind(tx, name);
      TouchesSome(tx.outputs, |tx.outputs|, Opening, name);
      TouchesSome(tx.outputs, |tx.outputs|, Updating, name);
      assert Claims(Transactions(m)[h], name);
      assert h in Holders(Transactions(m), Opening, name) + Holders(Transactions(m), Updating, name);
      var k :| 0 <= k < |tx.outputs| && OperationOf(tx.outputs[k]) in {Some((name, Opening)), Some((name, Updating))};
      assert Clashes(c.unique, tx.outputs[k]);
    }
  }

  /** Each check that fails is a fault. */
  lemma {:induction false} Faults(m: Entries, spents: Spents, size: int, c: Contracts, e: Entry, policyOk: bool, contextOk: bool)
    requires Indexed(m, spents, size, c)
    ensures Coins.IsCoinbase(e.tx) ==> Faulty(CoinbaseTx, m, e.tx, policyOk, contextOk)
    ensures e.tx.hash in m ==> Faulty(AlreadyExists, m, e.tx, policyOk, contextOk)
    ensures !Coins.SaneTransaction(e.tx) ==> Faulty(Insane, m, e.tx, policyOk, contextOk)
    ensures !policyOk ==> Faulty(NonStandard, m, e.tx, policyOk, contextOk)
    ensures (exists op :: Spends(e, op) && op in spents) ==> Faulty(DoubleSpend, m, e.tx, policyOk, contextOk)
    ensures (exists k :: 0 <= k < |e.tx.outputs| && Clashes(c.unique, e.tx.outputs[k])) ==>
      Faulty(NameConflict, m, e.tx, policyOk, contextOk)
    ensures !contextOk ==> Faulty(Invalid, m, e.tx, policyOk, contextOk)
  {
    hide Describes, OneHolder, Inverse, Total, Transactions, KeyedByHash, Coins.SaneTransaction, Clashes, ClaimsName, Spends;
    DoubleSpendBySpents(m, spents, e);
    ClashByPool(m, c, e.tx);
  }

  // ---- The inverse index ----

  predicate Spends(e: Entry, op: Outpoint) {
    op in e.tx.inputs && op != NULL_OUTPOINT
  }

  /** `spents` maps every input of every entry to that entry, and nothing else. */
  ghost predicate Inverse(m: Entries, spents: Spents) {
    && (forall h, op :: h in m && Spends(m[h], op) ==> op in spents && spents[op] == h)
    && (forall op :: op in spents ==> spents[op] in m && Spends(m[spents[op]], op))
  }

  predicate KeyedByHash(m: Entries) {
    forall h :: h in m ==> m[h].tx.hash == h
  }

  // ---- Descendants ----

  /** `b` spends an output of `a`. */
  predicate Child(a: Entry, b: Entry) {
    exists k :: 0 <= k < |a.tx.outputs| && Spends(b, Outpoint(a.tx.hash, k))
  }

  /** A chain of spends inside the pool. */
  predicate Chain(m: Entries, p: seq<Hash>) {
    && p != [] && (forall i :: 0 <= i < |p| ==> p[i] in m)
    && (forall i {:trigger p[i]} :: 0 <= i < |p| - 1 ==> Child(m[p[i]], m[p[i + 1]]))
  }

  /** `b` is `a` or depends on it through spends of unconfirmed outputs. */
  ghost predicate Depends(m: Entries, a: Hash, b: Hash) {
    exists p: seq<Hash> :: Chain(m, p) && p[0] == a && p[|p| - 1] == b
  }

  function HashesOf(removed: seq<Entry>): set<Hash> {
    set e | e in removed :: e.tx.hash
  }

  ghost predicate DistinctHashes(removed: seq<Entry>) {
    forall i, j :: 0 <= i < j < |removed| ==> removed[i].tx.hash != removed[j].tx.hash
  }

  /** What removing an entry does: it and its dependents go, and nobody left spends their outputs. */
  ghost predicate Removal(m: Entries, hash: Hash, n: Entries, removed: seq<Entry>) {
    && DistinctHashes(removed)
    && (forall e :: e in removed ==> e.tx.hash in m && m[e.tx.hash] == e)
    && n == m - HashesOf(removed)
    && (forall e :: e in removed ==> Depends(m, hash, e.tx.hash))
    && (forall e, h :: e in removed && h in n ==> !Child(e, n[h]))
    && (hash in m <==> hash in HashesOf(removed))
  }

  lemma {:induction false} ChainRemoved(m: Entries, hash: Hash, n: Entries, removed: seq<Entry>, p: seq<Hash>)
    requires KeyedByHash(m) && Removal(m, hash, n, removed) && Chain(m, p) && p[0] == hash
    ensures p[|p| - 1] in HashesOf(removed)
    decreases |p|
  {
    if |p| > 1 {
      var front := p[..|p| - 1];
      ChainFront(m, p);
      ChainRemoved(m, hash, n, removed, front);
      hide Child, Depends, Chain;
      ChildRemoved(m, hash, n, removed, front[|front| - 1], p[|p| - 1]);
    }
  }

  lemma {:induction false} ChainFront(m: Entries, p: seq<Hash>)
    requires Chain(m, p) && |p| > 1
    ensures Chain(m, p[..|p| - 1]) && p[|p| - 2] in m && p[|p| - 1] in m
    ensures Child(m[p[|p| - 2]], m[p[|p| - 1]])
  {
    hide Child;
    var front := p[..|p| - 1];
    forall i {:trigger front[i]} | 0 <= i < |front| - 1
      ensures Child(m[front[i]], m[front[i + 1]])
    {
      assert front[i] == p[i] && front[i + 1] == p[i + 1];
    }
    assert p[|p| - 2] in m;
  }

  lemma {:induction false} ChildRemoved(m: Entries, hash: Hash, n: Entries, removed: seq<Entry>, a: Hash, b: Hash)
    requires Removal(m, hash, n, removed) && a in HashesOf(removed) && a in m && b in m && Child(m[a], m[b])
    ensures b in HashesOf(removed)
  {
    hide Child, Depends;
    assert m[a] in removed;
    assert forall h :: h in n ==> n[h] == m[h];
  }

  /** Exactly the entry and everything that depends on it is removed. */
  lemma {:induction false} RemovalExact(m: Entries, hash: Hash, n: Entries, removed: seq<Entry>)
    requires KeyedByHash(m) && Removal(m, hash, n, removed)
    ensures forall h :: h in HashesOf(removed) <==> Depends(m, hash, h)
    ensures forall h :: h in n <==> h in m && !Depends(m, hash, h)
  {
    forall h
      ensures h in HashesOf(removed) <==> Depends(m, hash, h)
    {
      if Depends(m, hash, h) {
        var p: seq<Hash> :| Chain(m, p) && p[0] == hash && p[|p| - 1] == h;
        ChainRemoved(m, hash, n, removed, p);
      }
    }
  }

  lemma {:induction false} ChainPrepended(m: Entries, hash: Hash, n: Entries, p: seq<Hash>)
    requires hash in m && Chain(n, p) && p[0] in m && Child(m[hash], m[p[0]])
    requires forall k :: k in n ==> k in m && m[k] == n[k]
    ensures Chain(m, [hash] + p)
  {
    hide Child;
    var q := [hash] + p;
    forall i | 0 <= i < |q|
      ensures q[i] in m
    {
      if i > 0 {
        assert q[i] == p[i - 1];
      }
    }
    forall i {:trigger q[i]} | 0 <= i < |q| - 1
      ensures Child(m[q[i]], m[q[i + 1]])
    {
      if i > 0 {
        assert q[i] == p[i - 1] && q[i + 1] == p[i];
      }
    }
  }

  lemma {:induction false} DependsOnParent(m: Entries, hash: Hash, child: Hash, n: Entries, h: Hash)
    requires hash in m && child in m && Child(m[hash], m[child]) && Depends(n, child, h)
    requires forall k :: k in n ==> k in m && m[k] == n[k]
    ensures Depends(m, hash, h)
  {
    var p: seq<Hash> :| Chain(n, p) && p[0] == child && p[|p| - 1] == h;
    ChainPrepended(m, hash, n, p);
    assert Chain(m, [hash] + p) && ([hash] + p)[|p|] == h;
  }

  // ---- Removing several ----

  ghost predicate DependsOnAny(m: Entries, why: set<Hash>, h: Hash) {
    exists x :: x in why && Depends(m, x, h)
  }

  /** The entries that depend on none of `why`. */
  ghost function Without(m: Entries, why: set<Hash>): Entries {
    map h | h in m && !DependsOnAny(m, why, h) :: m[h]
  }

  lemma {:induction false} ChainSuffix(m: Entries, p: seq<Hash>, i: nat)
    requires Chain(m, p) && i < |p|
    ensures Chain(m, p[i..])
  {
    hide Child;
    var q := p[i..];
    forall j {:trigger q[j]} | 0 <= j < |q| - 1
      ensures Child(m[q[j]], m[q[j + 1]])
    {
      assert q[j] == p[i + j] && q[j + 1] == p[i + j + 1];
    }
  }

  lemma {:induction false} ChainsJoin(m: Entries, p: seq<Hash>, q: seq<Hash>)
    requires Chain(m, p) && Chain(m, q) && p[|p| - 1] == q[0]
    ensures var r := p[..|p| - 1] + q;
      Chain(m, r) && r[0] == p[0] && r[|r| - 1] == q[|q| - 1]
  {
    hide Child;
    var r := p[..|p| - 1] + q;
    forall i {:trigger r[i]} | 0 <= i < |r| - 1
      ensures Child(m[r[i]], m[r[i + 1]])
    {
      if i < |p| - 1 {
        assert r[i] == p[i] && r[i + 1] == p[i + 1];
      } else {
        assert r[i] == q[i - (|p| - 1)] && r[i + 1] == q[i + 1 - (|p| - 1)];
      }
    }
  }

  lemma {:induction false} DependsTransitive(m: Entries, a: Hash, b: Hash, c: Hash)
    requires Depends(m, a, b) && Depends(m, b, c)
    ensures Depends(m, a, c)
  {
    var p: seq<Hash> :| Chain(m, p) && p[0] == a && p[|p| - 1] == b;
    var q: seq<Hash> :| Chain(m, q) && q[0] == b && q[|q| - 1] == c;
    hide Chain;
    NotEmptyChain(m, p);
    NotEmptyChain(m, q);
    ChainsJoin(m, p, q);
    NotEmptyChain(m, p[..|p| - 1] + q);
  }

  lemma {:induction false} NotEmptyChain(m: Entries, p: seq<Hash>)
    requires Chain(m, p)
    ensures p != []
  {
  }

  /** Whatever an entry that stays depends on stays too. */
  lemma {:induction false} ChainStays(m: Entries, why: set<Hash>, p: seq<Hash>)
    requires Chain(m, p) && p[|p| - 1] in Without(m, why)
    ensures Chain(Without(m, why), p)
  {
    hide Child;
    forall i | 0 <= i < |p|
      ensures p[i] in Without(m, why)
    {
      ChainSuffix(m, p, i);
      assert Depends(m, p[i], p[|p| - 1]);
      if x :| x in why && Depends(m, x, p[i]) {
        DependsTransitive(m, x, p[i], p[|p| - 1]);
      }
    }
  }

  lemma {:induction false} DependsStays(m: Entries, why: set<Hash>, x: Hash, h: Hash)
    requires h in Without(m, why)
    ensures Depends(Without(m, why), x, h) <==> Depends(m, x, h)
  {
    var n := Without(m, why);
    if Depends(m, x, h) {
      var p: seq<Hash> :| Chain(m, p) && p[0] == x && p[|p| - 1] == h;
      ChainStays(m, why, p);
    }
    if Depends(n, x, h) {
      hide Child, Depends;
      DependsBefore(m, n, x, h);
    }
  }

  lemma {:induction false} DependsBefore(m: Entries, n: Entries, x: Hash, h: Hash)
    requires Depends(n, x, h) && forall k :: k in n ==> k in m && m[k] == n[k]
    ensures Depends(m, x, h)
  {
    hide Child;
    var p: seq<Hash> :| Chain(n, p) && p[0] == x && p[|p| - 1] == h;
    assert Chain(m, p);
  }

  /** Removals add up: the order in which entries and their dependents go does not matter. */
  lemma {:induction false} WithoutMore(m: Entries, why: set<Hash>, x: Hash, left: Entries, removed: seq<Entry>)
    requires KeyedByHash(m) && Removal(Without(m, why), x, left, removed)
    ensures left == Without(m, why + {x})
  {
    hide Depends, DistinctHashes;
    var n := Without(m, why);
    RemovalExact(n, x, left, removed);
    forall h | h in m
      ensures h in left <==> h in Without(m, why + {x})
    {
      if h in n {
        DependsStays(m, why, x, h);
      }
    }
  }

  lemma {:induction false} WithoutGone(m: Entries, why: set<Hash>, x: Hash)
    requires x !in Without(m, why)
    ensures Without(m, why + {x}) == Without(m, why)
  {
    forall h | h in m && Depends(m, x, h)
      ensures DependsOnAny(m, why, h)
    {
      assert x in m;
      var y :| y in why && Depends(m, y, x);
      DependsTransitive(m, y, x, h);
    }
  }

  lemma {:induction false} WithoutNobody(m: Entries)
    ensures Without(m, {}) == m
  {
  }

  /** All indices agree with the entries. */
  ghost predicate Indexed(m: Entries, spents: Spents, size: int, c: Contracts) {
    && KeyedByHash(m) && Inverse(m, spents) && size == Total(m)
    && Describes(c, Transactions(m)) && OneHolder(Transactions(m))
  }

  lemma {:induction false} IndexedMore(m: Entries, spents: Spents, size: int, c: Contracts, e: Entry)
    requires Indexed(m, spents, size, c) && e.tx.hash !in m
    requires forall op :: Spends(e, op) ==> op !in spents
    requires forall k :: 0 <= k < |e.tx.outputs| ==> !Clashes(c.unique, e.tx.outputs[k])
    ensures var hash := e.tx.hash;
      Indexed(m[hash := e], Spent(spents, e.tx.inputs, |e.tx.inputs|, hash), size + Estimate(e),
              Tracked(c, e.tx.outputs, |e.tx.outputs|, hash))
  {
    TransactionsMore(m, e.tx.hash, e);
    hide Describes, OneHolder, Inverse, Total, Tracked, KeyedByHash, Spends, Clashes, Estimate, Spent;
    TrackDescribes(c, Transactions(m), e.tx.hash, e.tx);
    TotalAdd(m, e.tx.hash, e);
    InverseMore(m, spents, e);
  }

  lemma {:induction false} IndexedLess(m: Entries, spents: Spents, size: int, c: Contracts, e: Entry)
    requires Indexed(m, spents, size, c) && e.tx.hash in m && m[e.tx.hash] == e
    ensures var hash := e.tx.hash;
      Indexed(m - {hash}, Unspent(spents, e.tx.inputs, |e.tx.inputs|), size - Estimate(e),
              Untracked(c, e.tx.outputs, |e.tx.outputs|, hash))
  {
    TransactionsLess(m, e.tx.hash);
    hide Describes, OneHolder, Inverse, Total, Untracked, KeyedByHash, Spends, Estimate, Unspent;
    UntrackDescribes(c, Transactions(m), e.tx.hash);
    TotalRemove(m, e.tx.hash);
    InverseLess(m, spents, e);
  }

  class Mempool {
    var entries: Entries
    var spents: Spents
    const contracts: ContractState
    var size: int

    ghost predicate Valid()
      reads this, contracts
    {
      Indexed(entries, spents, size, contracts.View())
    }

    constructor ()
      ensures Valid() && entries == map[] && size == 0 && fresh(contracts)
    {
      entries, spents, size := map[], map[], 0;
      contracts := new ContractState();
      new;
      EmptyPool();
    }

    method IsDoubleSpend(tx: Transaction) returns (double: bool)
      ensures double <==> exists op :: op in tx.inputs && op != NULL_OUTPOINT && op in spents
    {
      var k := 0;
      while k < |tx.inputs|
        invariant 0 <= k <= |tx.inputs|
        invariant forall j :: 0 <= j < k ==> tx.inputs[j] == NULL_OUTPOINT || tx.inputs[j] !in spents
      {
        if tx.inputs[k] != NULL_OUTPOINT && tx.inputs[k] in spents {
          return true;
        }
        k := k + 1;
      }
      return false;
    }

    /** Indexes an entry whose inputs and names nobody else claims. */
    method AddEntry(e: Entry)
      requires Valid() && e.tx.hash !in entries
      requires forall op :: Spends(e, op) ==> op !in spents
      requires forall k :: 0 <= k < |e.tx.outputs| ==> !Clashes(contracts.unique, e.tx.outputs[k])
      modifies `entries, `spents, `size, contracts
      ensures Valid() && entries == old(entries)[e.tx.hash := e] && size == old(size) + Estimate(e)
      ensures size == old(size) + 200 + e.serializedSize
    {
      EstimateIs(e);
      hide Indexed, Tracked, Spends, Clashes, Estimate, Spent;
      var hash := e.tx.hash;
      IndexedMore(entries, spents, size, contracts.View(), e);
      ghost var was := spents;
      entries := entries[hash := e];
      SpentSteps(was, e.tx.inputs, hash);
      var k := 0;
      while k < |e.tx.inputs|
        invariant 0 <= k <= |e.tx.inputs| && spents == Spent(was, e.tx.inputs, k, hash)
        invariant entries == old(entries)[hash := e] && size == old(size) && unchanged(contracts)
      {
        if e.tx.inputs[k] != NULL_OUTPOINT {
          spents := spents[e.tx.inputs[k] := hash];
        }
        k := k + 1;
      }
      contracts.Track(e.tx, hash);
      size := size + Estimate(e);
    }

    /** Takes one entry out of every index. */
    method Unindex(e: Entry)
      requires Valid() && e.tx.hash in entries && entries[e.tx.hash] == e
      modifies `entries, `spents, `size, contracts
      ensures Valid() && entries == old(entries) - {e.tx.hash}
    {
      hide Indexed, Untracked, Spends, Estimate, Unspent;
      var hash := e.tx.hash;
      IndexedLess(entries, spents, size, contracts.View(), e);
      ghost var was := spents;
      entries := entries - {hash};
      UnspentSteps(was, e.tx.inputs);
      var k := 0;
      while k < |e.tx.inputs|
        invariant 0 <= k <= |e.tx.inputs| && spents == Unspent(was, e.tx.inputs, k)
        invariant entries == old(entries) - {hash} && size == old(size) && unchanged(contracts)
      {
        if e.tx.inputs[k] != NULL_OUTPOINT {
          spents := spents - {e.tx.inputs[k]};
        }
        k := k + 1;
      }
      contracts.Untrack(e.tx, hash);
      size := size - Estimate(e);
    }

    /**
     * Removes an entry and, depth first, everything that spends its outputs. The recursion ends as
     * every call takes one entry out of the pool.
     */
    method RemoveEntry(hash: Hash) returns (removed: seq<Entry>)
      requires Valid()
      modifies `entries, `spents, `size, contracts
      decreases |entries|
      ensures Valid() && Removal(old(entries), hash, entries, removed)
    {
      hide Describes, OneHolder, Inverse, Total, Removal, KeyedByHash, Child, Depends, DistinctHashes, Partly, HashesOf,
        Transactions, Spends;
      ghost var m := entries;
      if hash !in entries {
        NothingRemoved(m, hash);
        return [];
      }
      var entry := entries[hash];
      Keyed(m, hash);
      Unindex(entry);
      FewerEntries(m, hash);
      removed := [entry];
      EntryRemoved(m, hash);
      var i := 0;
      while i < |entry.tx.outputs|
        invariant 0 <= i <= |entry.tx.outputs| && Valid() && Partly(m, entry, entries, spents, removed, i)
      {
        ghost var before, n, was := removed, entries, spents;
        var childOutpoint := Outpoint(hash, i);
        if childOutpoint in spents {
          var childHash := spents[childOutpoint];
          PartlySmaller(m, entry, entries, spents, removed, i);
          SpenderIsChild(n, was, entry, i);
          var more := RemoveEntry(childHash);
          removed := removed + more;
          RemovedMore(m, entry, n, was, before, i, childHash, entries, spents, more);
        } else {
          PartlyNext(m, entry, entries, spents, removed, i);
        }
        i := i + 1;
      }
      AllRemoved(m, entry, entries, spents, removed);
    }

    /** All entries in some order. */
    method ListEntries() returns (all: seq<Entry>)
      requires KeyedByHash(entries)
      ensures forall h :: h in entries ==> entries[h] in all
      ensures forall e :: e in all ==> e.tx.hash in entries && entries[e.tx.hash] == e
    {
      all := [];
      var left := entries.Keys;
      while left != {}
        invariant left <= entries.Keys && forall h :: h in entries && h !in left ==> entries[h] in all
        invariant forall e :: e in all ==> e.tx.hash in entries && entries[e.tx.hash] == e
        decreases |left|
      {
        var h :| h in left;
        all := all + [entries[h]];
        left := left - {h};
      }
    }

    /**
     * Over the threshold, the cheapest entries go with their dependents, no more of them than it
     * takes to get down to the threshold.
     */
    method EvictByFeeRate()
      requires Valid()
      modifies `entries, `spents, `size, contracts
      ensures Valid() && Shrunk(old(entries), entries)
      ensures size <= THRESHOLD || entries == map[]
      ensures Evicted(old(entries), entries)
    {
      hide Describes, OneHolder, Inverse, Total, Removal, SortedByRate, Transactions, Without, CheapestFirst, HashesOf;
      if size <= THRESHOLD || entries == map[] {
        EmptyPool();
        return;
      }
      var all := ListEntries();
      var sorted := SortedByRate(all);
      SortOrders(entries, all);
      ghost var m := entries;
      var k := 0;
      WithoutNobody(m);
      PrefixHashes(sorted);
      while k < |sorted| && size > THRESHOLD
        invariant 0 <= k <= |sorted| && Valid() && Shrunk(m, entries)
        invariant entries == Without(m, HashesOf(sorted[..k]))
        invariant k > 0 ==> Total(Without(m, HashesOf(sorted[..k - 1]))) > THRESHOLD
      {
        ghost var n, x := entries, sorted[k].tx.hash;
        if sorted[k].tx.hash in entries {
          var removed := RemoveEntry(sorted[k].tx.hash);
          RemovalShrinks(n, x, entries, removed);
          WithoutMore(m, HashesOf(sorted[..k]), x, entries, removed);
        } else {
          WithoutGone(m, HashesOf(sorted[..k]), x);
        }
        k := k + 1;
      }
      assert sorted[..|sorted|] == sorted;
      NobodyLeft(m, sorted);
      assert JustEnough(m, sorted, k);
    }

    /** Exactly the entries that have waited too long go, with their dependents. */
    method EvictExpired(now: nat)
      requires Valid()
      modifies `entries, `spents, `size, contracts
      ensures Valid() && Shrunk(old(entries), entries)
      ensures entries == Without(old(entries), Expired(old(entries), now))
      ensures LeavesFresh(old(entries), entries, now)
    {
      hide Describes, OneHolder, Inverse, Total, Removal, Transactions, KeyedByHash, Without, LeavesFresh;
      ghost var m := entries;
      ExpiredGone(m, now);
      var left := entries.Keys;
      ghost var expired := Expired(m, now);
      WithoutNobody(m);
      assert expired - left == {};
      while left != {}
        invariant Valid() && Shrunk(m, entries) && left <= m.Keys
        invariant entries == Without(m, expired - left)
        decreases |left|
      {
        var h :| h in left;
        ghost var n, why := entries, expired - left;
        left := left - {h};
        assert expired - left == if h in expired then why + {h} else why;
        if h !in entries {
          WithoutGone(m, why, h);
        } else if now >= entries[h].time + EXPIRY {
          var removed := RemoveEntry(h);
          RemovalShrinks(n, h, entries, removed);
          WithoutMore(m, why, h, entries, removed);
        }
      }
      assert expired - left == expired;
    }

    static method ConfirmedHashes(txs: seq<Transaction>) returns (confirmed: set<Hash>)
      ensures confirmed == Confirmed(txs)
    {
      var i := 0;
      confirmed := {};
      while i < |txs|
        invariant 0 <= i <= |txs| && confirmed == Confirmed(txs[..i])
      {
        ConfirmedNext(txs, i);
        if !Coins.IsCoinbase(txs[i]) {
          confirmed := confirmed + {txs[i].hash};
        }
        i := i + 1;
      }
      assert txs[..|txs|] == txs;
    }

    /** Exactly the transactions a block confirms go, and whatever depends on them. */
    method RemoveBlock(txs: seq<Transaction>)
      requires Valid()
      modifies `entries, `spents, `size, contracts
      ensures Valid() && Shrunk(old(entries), entries)
      ensures entries == Without(old(entries), Confirmed(txs))
      ensures LeavesUnconfirmed(old(entries), entries, txs)
    {
      hide Describes, OneHolder, Inverse, Total, Removal, Transactions, KeyedByHash, Without, Confirmed, LeavesUnconfirmed;
      ghost var m := entries;
      ConfirmedGone(m, txs);
      var confirmed := ConfirmedHashes(txs);
      ghost var all := confirmed;
      WithoutNobody(m);
      assert all - confirmed == {};
      while confirmed != {}
        invariant Valid() && Shrunk(m, entries) && confirmed <= all
        invariant entries == Without(m, all - confirmed)
        decreases |confirmed|
      {
        var h :| h in confirmed;
        ghost var n, why := entries, all - confirmed;
        confirmed := confirmed - {h};
        assert all - confirmed == why + {h};
        var removed := RemoveEntry(h);
        RemovalShrinks(n, h, entries, removed);
        WithoutMore(m, why, h, entries, removed);
      }
      assert all - confirmed == all;
    }

    /** Adding the transaction would leave the pool over its limit. */
    predicate TooLarge(e: Entry)
      reads `size
    {
      size + Estimate(e) > MAX_SIZE
    }

    /** The checks that come before any eviction. */
    predicate Screens(e: Entry, policyOk: bool, contextOk: bool)
      reads this, contracts
    {
      && !Coins.IsCoinbase(e.tx) && e.tx.hash !in entries && Coins.SaneTransaction(e.tx) && policyOk && contextOk
      && (forall op :: Spends(e, op) ==> op !in spents)
      && (forall k :: 0 <= k < |e.tx.outputs| ==> !Clashes(contracts.unique, e.tx.outputs[k]))
    }

    /** The checks pass if and only if the transaction has none of the faults. */
    lemma {:induction false} ScreensIff(e: Entry, policyOk: bool, contextOk: bool)
      requires Valid()
      ensures Screens(e, policyOk, contextOk) <==> Faultless(entries, e.tx, policyOk, contextOk)
    {
      hide Describes, OneHolder, Inverse, Total, Transactions, KeyedByHash, Coins.SaneTransaction, Clashes, ClaimsName, Spends;
      DoubleSpendBySpents(entries, spents, e);
      ClashByPool(entries, contracts.View(), e.tx);
      if Faultless(entries, e.tx, policyOk, contextOk) {
        var m, tx := entries, e.tx;
        assert !Faulty(CoinbaseTx, m, tx, policyOk, contextOk) && !Faulty(AlreadyExists, m, tx, policyOk, contextOk);
        assert !Faulty(Insane, m, tx, policyOk, contextOk) && !Faulty(NonStandard, m, tx, policyOk, contextOk);
        assert !Faulty(DoubleSpend, m, tx, policyOk, contextOk) && !Faulty(NameConflict, m, tx, policyOk, contextOk);
        assert !Faulty(Invalid, m, tx, policyOk, contextOk);
      }
    }

    /**
     * Accepts a transaction that passes every check and fits: it goes on top of what an eviction
     * left, the pool stays within its limit, and no index ever disagrees. A refusal before the size
     * check changes nothing; a later one leaves the eviction.
     */
    method AcceptTransaction(e: Entry, policyOk: bool, contextOk: bool, sigopsOk: bool) returns (r: Outcome<MempoolError>)
      requires Valid() && size <= MAX_SIZE
      modifies `entries, `spents, `size, contracts
      ensures Valid() && size <= MAX_SIZE
      ensures r.Pass? ==> old(Screens(e, policyOk, contextOk)) && sigopsOk
      ensures old(Screens(e, policyOk, contextOk)) && sigopsOk && (old(!TooLarge(e)) || Estimate(e) <= MAX_SIZE - THRESHOLD) ==> r.Pass?
      ensures r.Pass? ==> e.tx.hash in entries && entries[e.tx.hash] == e
      ensures var rest := if r.Pass? then entries - {e.tx.hash} else entries;
        if old(Screens(e, policyOk, contextOk) && TooLarge(e)) then Evicted(old(entries), rest) else rest == old(entries)
      ensures r.Throw? && old(Screens(e, policyOk, contextOk)) && sigopsOk ==> TooLarge(e)
      ensures old(Screens(e, policyOk, contextOk)) <==> Faultless(old(entries), e.tx, policyOk, contextOk)
      ensures r.Throw? && !old(Screens(e, policyOk, contextOk)) ==> Faulty(r.error, old(entries), e.tx, policyOk, contextOk)
      ensures r.Throw? && !old(Screens(e, policyOk, contextOk)) ==> unchanged(this) && unchanged(contracts)
    {
      hide Describes, OneHolder, Inverse, Total, Transactions, KeyedByHash, Coins.SaneTransaction, Clashes, ClaimsName, Faultless, Faulty;
      ScreensIff(e, policyOk, contextOk);
      Faults(entries, spents, size, contracts.View(), e, policyOk, contextOk);
      if Coins.IsCoinbase(e.tx) {
        return Throw(CoinbaseTx);
      }
      if e.tx.hash in entries {
        return Throw(AlreadyExists);
      }
      if !Coins.SaneTransaction(e.tx) {
        return Throw(Insane);
      }
      if !policyOk {
        return Throw(NonStandard);
      }
      var double := IsDoubleSpend(e.tx);
      if double {
        return Throw(DoubleSpend);
      }
      var clash := contracts.HasNames(e.tx);
      if clash {
        return Throw(NameConflict);
      }
      if !contextOk {
        return Throw(Invalid);
      }
      ghost var m, taken, names := entries, spents, contracts.unique;
      if TooLarge(e) {
        ghost var was := contracts.View();
        EvictByFeeRate();
        StillFree(m, entries, taken, spents, was, contracts.View(), e);
        SizeShrinks(m, entries);
        EmptyPool();
        if TooLarge(e) {
          return Throw(MempoolFull);
        }
      }
      if !sigopsOk {
        return Throw(TooManySigops);
      }
      FreshEntry(m, entries, e);
      AddEntry(e);
      return Pass;
    }
  }

  // ---- Index lemmas ----

  function Spent(spents: Spents, inputs: seq<Outpoint>, n: nat, h: Hash): Spents
    requires n <= |inputs|
  {
    if n == 0 then spents
    else
      var s := Spent(spents, inputs, n - 1, h);
      if inputs[n - 1] == NULL_OUTPOINT then s else s[inputs[n - 1] := h]
  }

  lemma {:induction false} SpentSteps(spents: Spents, inputs: seq<Outpoint>, h: Hash)
    ensures Spent(spents, inputs, 0, h) == spents
    ensures forall k: nat :: k < |inputs| ==>
      Spent(spents, inputs, k + 1, h)
        == if inputs[k] == NULL_OUTPOINT then Spent(spents, inputs, k, h) else Spent(spents, inputs, k, h)[inputs[k] := h]
  {
  }

  lemma {:induction false} UnspentSteps(spents: Spents, inputs: seq<Outpoint>)
    ensures Unspent(spents, inputs, 0) == spents
    ensures forall k: nat :: k < |inputs| ==>
      Unspent(spents, inputs, k + 1)
        == if inputs[k] == NULL_OUTPOINT then Unspent(spents, inputs, k) else Unspent(spents, inputs, k) - {inputs[k]}
  {
  }

  function Unspent(spents: Spents, inputs: seq<Outpoint>, n: nat): Spents
    requires n <= |inputs|
  {
    if n == 0 then spents
    else
      var s := Unspent(spents, inputs, n - 1);
      if inputs[n - 1] == NULL_OUTPOINT then s else s - {inputs[n - 1]}
  }

  lemma {:induction false} SpentMeaning(spents: Spents, inputs: seq<Outpoint>, n: nat, h: Hash, op: Outpoint)
    requires n <= |inputs|
    ensures var hit := op in inputs[..n] && op != NULL_OUTPOINT;
      && (op in Spent(spents, inputs, n, h) <==> op in spents || hit)
      && (op in spents || hit ==> Spent(spents, inputs, n, h)[op] == if hit then h else spents[op])
  {
    if n > 0 {
      SpentMeaning(spents, inputs, n - 1, h, op);
      assert inputs[..n] == inputs[..n - 1] + [inputs[n - 1]];
    }
  }

  lemma {:induction false} UnspentMeaning(spents: Spents, inputs: seq<Outpoint>, n: nat, op: Outpoint)
    requires n <= |inputs|
    ensures op in Unspent(spents, inputs, n) <==> op in spents && !(op in inputs[..n] && op != NULL_OUTPOINT)
    ensures op in Unspent(spents, inputs, n) ==> Unspent(spents, inputs, n)[op] == spents[op]
  {
    if n > 0 {
      UnspentMeaning(spents, inputs, n - 1, op);
      assert inputs[..n] == inputs[..n - 1] + [inputs[n - 1]];
    }
  }

  lemma {:induction false} EmptyPool()
    ensures Inverse(map[], map[]) && Total(map[]) == 0
    ensures Describes(Contracts({}, map[], map[], map[], map[]), Transactions(map[])) && OneHolder(Transactions(map[]))
  {
    assert Estimates(map[]) == map[];
  }

  lemma {:induction false} TransactionsMore(m: Entries, h: Hash, e: Entry)
    ensures Transactions(m[h := e]) == Transactions(m)[h := e.tx]
  {
  }

  lemma {:induction false} TransactionsLess(m: Entries, h: Hash)
    ensures Transactions(m - {h}) == Transactions(m) - {h}
  {
  }

  lemma {:induction false} InverseMore(m: Entries, spents: Spents, e: Entry)
    requires Inverse(m, spents) && KeyedByHash(m) && e.tx.hash !in m
    requires forall op :: Spends(e, op) ==> op !in spents
    ensures Inverse(m[e.tx.hash := e], Spent(spents, e.tx.inputs, |e.tx.inputs|, e.tx.hash))
    ensures KeyedByHash(m[e.tx.hash := e])
  {
    hide Spent;
    var s := Spent(spents, e.tx.inputs, |e.tx.inputs|, e.tx.hash);
    forall op
      ensures op in s <==> op in spents || Spends(e, op)
      ensures op in s ==> s[op] == if Spends(e, op) then e.tx.hash else spents[op]
    {
      SpentMeaning(spents, e.tx.inputs, |e.tx.inputs|, e.tx.hash, op);
      assert e.tx.inputs[..|e.tx.inputs|] == e.tx.inputs;
    }
    hide Spends;
  }

  lemma {:induction false} OneSpender(m: Entries, spents: Spents, a: Hash, b: Hash, op: Outpoint)
    requires Inverse(m, spents) && a in m && b in m && a != b && Spends(m[a], op)
    ensures op in spents && spents[op] == a && !Spends(m[b], op)
  {
    hide Spends;
  }

  lemma {:induction false} UnspentAll(spents: Spents, e: Entry)
    ensures var s := Unspent(spents, e.tx.inputs, |e.tx.inputs|);
      forall op :: (op in s <==> op in spents && !Spends(e, op)) && (op in s ==> s[op] == spents[op])
  {
    hide Unspent;
    forall op
      ensures var s := Unspent(spents, e.tx.inputs, |e.tx.inputs|);
        (op in s <==> op in spents && !Spends(e, op)) && (op in s ==> s[op] == spents[op])
    {
      UnspentMeaning(spents, e.tx.inputs, |e.tx.inputs|, op);
      assert e.tx.inputs[..|e.tx.inputs|] == e.tx.inputs;
    }
  }

  lemma {:induction false} InverseLess(m: Entries, spents: Spents, e: Entry)
    requires Inverse(m, spents) && KeyedByHash(m) && e.tx.hash in m && m[e.tx.hash] == e
    ensures Inverse(m - {e.tx.hash}, Unspent(spents, e.tx.inputs, |e.tx.inputs|))
    ensures KeyedByHash(m - {e.tx.hash})
  {
    UnspentAll(spents, e);
    hide Unspent, Spends;
    var n, s := m - {e.tx.hash}, Unspent(spents, e.tx.inputs, |e.tx.inputs|);
    forall h, op | h in n && Spends(n[h], op)
      ensures op in s && s[op] == h
    {
      assert Spends(m[h], op);
      if Spends(e, op) {
        OneSpender(m, spents, h, e.tx.hash, op);
      }
    }
    forall op | op in s
      ensures s[op] in n && Spends(n[s[op]], op)
    {
      assert spents[op] in m && Spends(m[spents[op]], op);
    }
  }

  // ---- Removal, one output at a time ----

  /** The outputs of everything removed are unspent, those of `entry` itself only up to `i`. */
  ghost predicate NoneSpent(spents: Spents, removed: seq<Entry>, entry: Entry, i: nat) {
    forall e, k :: e in removed && 0 <= k < (if e == entry then i else |e.tx.outputs|) ==> Outpoint(e.tx.hash, k) !in spents
  }

  ghost predicate Partly(m: Entries, entry: Entry, n: Entries, spents: Spents, removed: seq<Entry>, i: nat) {
    && DistinctHashes(removed) && entry in removed
    && (forall e :: e in removed ==> e.tx.hash in m && m[e.tx.hash] == e && Depends(m, entry.tx.hash, e.tx.hash))
    && n == m - HashesOf(removed)
    && NoneSpent(spents, removed, entry, i)
  }

  lemma {:induction false} Keyed(m: Entries, hash: Hash)
    requires KeyedByHash(m) && hash in m
    ensures m[hash].tx.hash == hash
  {
  }

  lemma {:induction false} FewerEntries(m: Entries, hash: Hash)
    requires hash in m
    ensures |m - {hash}| < |m|
  {
    assert (m - {hash})[hash := m[hash]] == m;
  }

  lemma {:induction false} NothingRemoved(m: Entries, hash: Hash)
    requires hash !in m
    ensures Removal(m, hash, m, [])
  {
    assert HashesOf([]) == {};
    assert m - {} == m;
  }

  lemma {:induction false} EntryRemoved(m: Entries, hash: Hash)
    requires hash in m && m[hash].tx.hash == hash
    ensures forall spents :: Partly(m, m[hash], m - {hash}, spents, [m[hash]], 0)
  {
    var p := [hash];
    assert Chain(m, p) && p[0] == hash && p[|p| - 1] == hash;
    assert Depends(m, hash, hash);
    assert HashesOf([m[hash]]) == {hash};
  }

  lemma {:induction false} PartlySmaller(m: Entries, entry: Entry, n: Entries, spents: Spents, removed: seq<Entry>, i: nat)
    requires Partly(m, entry, n, spents, removed, i)
    ensures |n| < |m|
  {
    hide NoneSpent, DistinctHashes;
    var h := entry.tx.hash;
    assert h in HashesOf(removed);
    assert n.Keys < m.Keys by { assert h in m && h !in n; }
    FewerKeys(n.Keys, m.Keys);
  }

  lemma {:induction false} FewerKeys(a: set<Hash>, b: set<Hash>)
    requires a < b
    ensures |a| < |b|
  {
    var x :| x in b && x !in a;
    assert a <= b - {x};
    FewerOrSame(a, b - {x});
  }

  lemma {:induction false} FewerOrSame(a: set<Hash>, b: set<Hash>)
    requires a <= b
    ensures |a| <= |b|
  {
    if a != {} {
      var x :| x in a;
      FewerOrSame(a - {x}, b - {x});
    }
  }

  lemma {:induction false} SpenderIsChild(n: Entries, spents: Spents, entry: Entry, i: nat)
    requires Inverse(n, spents) && i < |entry.tx.outputs| && Outpoint(entry.tx.hash, i) in spents
    ensures var child := spents[Outpoint(entry.tx.hash, i)]; child in n && Child(entry, n[child])
  {
  }

  lemma {:induction false} PartlyNext(m: Entries, entry: Entry, n: Entries, spents: Spents, removed: seq<Entry>, i: nat)
    requires Partly(m, entry, n, spents, removed, i) && Outpoint(entry.tx.hash, i) !in spents
    ensures Partly(m, entry, n, spents, removed, i + 1)
  {
    hide Depends, DistinctHashes;
  }

  /** What the recursive call removed, added to what was removed before it. */
  lemma {:induction false} RemovedMore(m: Entries, entry: Entry, n: Entries, was: Spents, removed: seq<Entry>, i: nat, child: Hash,
                    left: Entries, spents: Spents, more: seq<Entry>)
    requires KeyedByHash(m) && Partly(m, entry, n, was, removed, i) && i < |entry.tx.outputs|
    requires Inverse(n, was) && Inverse(left, spents)
    requires Outpoint(entry.tx.hash, i) in was && was[Outpoint(entry.tx.hash, i)] == child
    requires child in n && Child(entry, n[child]) && Removal(n, child, left, more)
    ensures Partly(m, entry, left, spents, removed + more, i + 1)
  {
    hide Inverse, KeyedByHash, Child, Depends, NoneSpent, DistinctHashes;
    JoinedDistinct(m, n, removed, more);
    JoinedDepends(m, entry, n, removed, child, more);
    JoinedUnspent(m, entry, n, was, removed, i, child, left, spents, more);
    assert HashesOf(removed + more) == HashesOf(removed) + HashesOf(more);
  }

  lemma {:induction false} JoinedDistinct(m: Entries, n: Entries, removed: seq<Entry>, more: seq<Entry>)
    requires DistinctHashes(removed) && DistinctHashes(more) && n == m - HashesOf(removed)
    requires forall e :: e in more ==> e.tx.hash in n
    ensures DistinctHashes(removed + more)
  {
    var all := removed + more;
    forall i, j | 0 <= i < j < |all|
      ensures all[i].tx.hash != all[j].tx.hash
    {
      if i < |removed| <= j {
        assert all[i] in removed && all[j] in more;
        assert all[i].tx.hash in HashesOf(removed);
      }
    }
  }

  lemma {:induction false} JoinedDepends(m: Entries, entry: Entry, n: Entries, removed: seq<Entry>, child: Hash, more: seq<Entry>)
    requires entry.tx.hash in m && m[entry.tx.hash] == entry && n == m - HashesOf(removed)
    requires child in n && Child(entry, n[child])
    requires forall e :: e in more ==> Depends(n, child, e.tx.hash)
    ensures forall e :: e in more ==> Depends(m, entry.tx.hash, e.tx.hash)
  {
    hide Child, Depends;
    forall e | e in more
      ensures Depends(m, entry.tx.hash, e.tx.hash)
    {
      DependsOnParent(m, entry.tx.hash, child, n, e.tx.hash);
    }
  }

  lemma {:induction false} JoinedUnspent(m: Entries, entry: Entry, n: Entries, was: Spents, removed: seq<Entry>, i: nat, child: Hash,
                      left: Entries, spents: Spents, more: seq<Entry>)
    requires KeyedByHash(m) && Partly(m, entry, n, was, removed, i) && Inverse(n, was) && Inverse(left, spents)
    requires Outpoint(entry.tx.hash, i) in was && was[Outpoint(entry.tx.hash, i)] == child
    requires child in n && Removal(n, child, left, more)
    ensures NoneSpent(spents, removed + more, entry, i + 1)
  {
    hide Depends, DistinctHashes, Spends;
    assert child in HashesOf(more);
    forall op | op in spents
      ensures op in was && was[op] == spents[op] && spents[op] in left
    {
      assert left[spents[op]] == n[spents[op]];
    }
    assert child !in left;
    forall e, k | e in removed + more && 0 <= k < (if e == entry then i + 1 else |e.tx.outputs|)
      ensures Outpoint(e.tx.hash, k) !in spents
    {
      var op := Outpoint(e.tx.hash, k);
      if e in removed {
        if e == entry && k == i {
          assert was[op] == child;
        } else {
          assert op !in was;
        }
      } else {
        UnspentIfNoChild(left, spents, e);
      }
    }
  }

  lemma {:induction false} UnspentIfNoChild(n: Entries, spents: Spents, e: Entry)
    requires Inverse(n, spents) && forall h :: h in n ==> !Child(e, n[h])
    ensures forall k :: 0 <= k < |e.tx.outputs| ==> Outpoint(e.tx.hash, k) !in spents
  {
    hide Spends;
    assert forall h, k :: h in n && 0 <= k < |e.tx.outputs| ==> !Spends(n[h], Outpoint(e.tx.hash, k));
  }

  lemma {:induction false} NotChild(n: Entries, spents: Spents, e: Entry, h: Hash)
    requires Inverse(n, spents) && h in n
    requires forall k :: 0 <= k < |e.tx.outputs| ==> Outpoint(e.tx.hash, k) !in spents
    ensures !Child(e, n[h])
  {
    hide Spends;
  }

  lemma {:induction false} AllRemoved(m: Entries, entry: Entry, n: Entries, spents: Spents, removed: seq<Entry>)
    requires KeyedByHash(m) && Inverse(n, spents) && Partly(m, entry, n, spents, removed, |entry.tx.outputs|)
    ensures Removal(m, entry.tx.hash, n, removed)
  {
    hide Depends, DistinctHashes;
    forall e, h | e in removed && h in n
      ensures !Child(e, n[h])
    {
      NotChild(n, spents, e, h);
    }
    assert entry.tx.hash in HashesOf(removed);
  }

  // ---- Eviction ----

  /** Entries only leave. */
  ghost predicate Shrunk(m: Entries, n: Entries) {
    forall h :: h in n ==> h in m && n[h] == m[h]
  }

  lemma {:induction false} RemovalShrinks(m: Entries, hash: Hash, n: Entries, removed: seq<Entry>)
    requires Removal(m, hash, n, removed)
    ensures Shrunk(m, n) && hash !in n
  {
  }

  function InsertByRate(e: Entry, s: seq<Entry>): seq<Entry> {
    if s == [] then [e] else if e.rate <= s[0].rate then [e] + s else [s[0]] + InsertByRate(e, s[1..])
  }

  /** Lowest fee rate first. */
  function SortedByRate(s: seq<Entry>): seq<Entry> {
    if s == [] then [] else InsertByRate(s[0], SortedByRate(s[1..]))
  }

  lemma {:induction false} InsertKeeps(e: Entry, s: seq<Entry>)
    ensures forall x :: x in InsertByRate(e, s) <==> x == e || x in s
  {
    if s != [] && e.rate > s[0].rate {
      InsertKeeps(e, s[1..]);
    }
  }

  lemma {:induction false} SortKeeps(s: seq<Entry>)
    ensures forall x :: x in SortedByRate(s) <==> x in s
  {
    if s != [] {
      SortKeeps(s[1..]);
      InsertKeeps(s[0], SortedByRate(s[1..]));
    }
  }

  predicate Ascending(s: seq<Entry>) {
    forall i, j :: 0 <= i < j < |s| ==> s[i].rate <= s[j].rate
  }

  lemma {:induction false} InsertAscends(e: Entry, s: seq<Entry>)
    requires Ascending(s)
    ensures Ascending(InsertByRate(e, s))
    ensures InsertByRate(e, s)[0] == if s == [] || e.rate <= s[0].rate then e else s[0]
  {
    if s != [] && e.rate > s[0].rate {
      InsertAscends(e, s[1..]);
      InsertKeeps(e, s[1..]);
    }
  }

  lemma {:induction false} SortAscends(s: seq<Entry>)
    ensures Ascending(SortedByRate(s))
  {
    if s != [] {
      SortAscends(s[1..]);
      InsertAscends(s[0], SortedByRate(s[1..]));
    }
  }

  /** `order` lists exactly the entries of `m`, the lowest fee rate first. */
  ghost predicate CheapestFirst(m: Entries, order: seq<Entry>) {
    && Ascending(order)
    && (forall h :: h in m ==> m[h] in order)
    && (forall e :: e in order ==> e.tx.hash in m && m[e.tx.hash] == e)
  }

  /** Without the first `k` the pool is down to the threshold if it can be, and with one fewer it is not. */
  ghost predicate JustEnough(m: Entries, order: seq<Entry>, k: nat)
    requires k <= |order|
  {
    && (k > 0 ==> Total(Without(m, HashesOf(order[..k - 1]))) > THRESHOLD)
    && (k < |order| ==> Total(Without(m, HashesOf(order[..k]))) <= THRESHOLD)
  }

  ghost predicate Evicted(m: Entries, n: Entries) {
    if Total(m) <= THRESHOLD then n == m
    else
      exists order: seq<Entry>, k: nat ::
        && k <= |order| && JustEnough(m, order, k)
        && CheapestFirst(m, order) && n == Without(m, HashesOf(order[..k]))
  }

  lemma {:induction false} SortOrders(m: Entries, all: seq<Entry>)
    requires KeyedByHash(m) && (forall h :: h in m ==> m[h] in all) && forall e :: e in all ==> e.tx.hash in m && m[e.tx.hash] == e
    ensures CheapestFirst(m, SortedByRate(all))
  {
    SortKeeps(all);
    SortAscends(all);
  }

  lemma {:induction false} PrefixHashes(sorted: seq<Entry>)
    ensures HashesOf(sorted[..0]) == {}
    ensures forall k {:trigger sorted[k]} :: 0 <= k < |sorted| ==> HashesOf(sorted[..k + 1]) == HashesOf(sorted[..k]) + {sorted[k].tx.hash}
  {
    forall k {:trigger sorted[k]} | 0 <= k < |sorted|
      ensures HashesOf(sorted[..k + 1]) == HashesOf(sorted[..k]) + {sorted[k].tx.hash}
    {
      assert sorted[..k + 1] == sorted[..k] + [sorted[k]];
    }
  }

  lemma {:induction false} NobodyLeft(m: Entries, sorted: seq<Entry>)
    requires KeyedByHash(m) && CheapestFirst(m, sorted)
    ensures Without(m, HashesOf(sorted)) == map[]
  {
    forall h | h in m
      ensures DependsOnAny(m, HashesOf(sorted), h)
    {
      var p := [h];
      assert m[h] in sorted && m[h].tx.hash == h;
      assert Chain(m, p) && p[0] == h && p[|p| - 1] == h;
      assert Depends(m, h, h);
    }
  }

  function Expired(m: Entries, now: nat): set<Hash> {
    set h | h in m && now >= m[h].time + EXPIRY
  }

  /** Left are the entries that depend on none that came 72 hours ago or earlier. */
  ghost predicate LeavesFresh(m: Entries, n: Entries, now: nat) {
    forall h :: h in n <==>
      && h in m
      && forall x :: x in m && m[x].time + 259_200 <= now ==> !Depends(m, x, h)
  }

  /** Left are the entries that depend on no transaction of the block, coinbases apart. */
  ghost predicate LeavesUnconfirmed(m: Entries, n: Entries, txs: seq<Transaction>) {
    forall h :: h in n <==>
      && h in m
      && forall tx :: tx in txs && (tx.inputs == [] || tx.inputs[0] != NULL_OUTPOINT) ==> !Depends(m, tx.hash, h)
  }

  lemma {:induction false} ExpiredGone(m: Entries, now: nat)
    ensures LeavesFresh(m, Without(m, Expired(m, now)), now)
  {
    hide Depends;
  }

  lemma {:induction false} ConfirmedGone(m: Entries, txs: seq<Transaction>)
    ensures LeavesUnconfirmed(m, Without(m, Confirmed(txs)), txs)
  {
    hide Depends;
  }

  /** The ids of a block's transactions, coinbases apart. */
  function Confirmed(txs: seq<Transaction>): set<Hash> {
    set tx | tx in txs && !Coins.IsCoinbase(tx) :: tx.hash
  }

  lemma {:induction false} ConfirmedNext(txs: seq<Transaction>, i: nat)
    requires i < |txs|
    ensures Confirmed(txs[..i + 1]) == Confirmed(txs[..i]) + if Coins.IsCoinbase(txs[i]) then {} else {txs[i].hash}
  {
    hide Coins.IsCoinbase;
    var front, all := txs[..i], txs[..i + 1];
    assert all == front + [txs[i]];
    forall tx
      ensures tx in all <==> tx in front || tx == txs[i]
    {
    }
  }

  // ---- Conflicts with a confirmed block ----

  /** Some transaction of the block really spends `op`. */
  ghost predicate SpentIn(txs: seq<Transaction>, op: Outpoint) {
    op != NULL_OUTPOINT && exists i :: 0 <= i < |txs| && op in txs[i].inputs
  }

  /** The pool holds the spender of an outpoint that the block spends too. */
  ghost predicate Conflicting(m: Entries, txs: seq<Transaction>) {
    exists h, op :: h in m && Spends(m[h], op) && SpentIn(txs, op)
  }

  lemma {:induction false} DependsOnItself(m: Entries, h: Hash)
    requires h in m
    ensures Depends(m, h, h)
  {
    assert Chain(m, [h]);
  }

  /**
   * A conflict survives the removal of a block exactly if the pool's spender of some outpoint of the
   * block depends on no transaction the block confirms.
   */
  lemma {:induction false} ConflictsStay(m: Entries, spents: Spents, txs: seq<Transaction>)
    requires Inverse(m, spents)
    ensures Conflicting(Without(m, Confirmed(txs)), txs) <==>
      exists op :: op in spents && SpentIn(txs, op) && !DependsOnAny(m, Confirmed(txs), spents[op])
  {
    hide Confirmed, Depends, SpentIn;
    var n := Without(m, Confirmed(txs));
    hide DependsOnAny, Spends;
    if Conflicting(n, txs) {
      var h, op :| h in n && Spends(n[h], op) && SpentIn(txs, op);
      assert spents[op] == h;
    }
    if op :| op in spents && SpentIn(txs, op) && !DependsOnAny(m, Confirmed(txs), spents[op]) {
      var h := spents[op];
      assert h in n && Spends(n[h], op);
    }
  }

  /** None survives when the pool held every transaction of the block but those with null inputs only. */
  lemma {:induction false} KnownBlockLeavesNone(m: Entries, spents: Spents, txs: seq<Transaction>)
    requires Inverse(m, spents)
    requires forall i, op :: 0 <= i < |txs| && op in txs[i].inputs && op != NULL_OUTPOINT ==>
      !Coins.IsCoinbase(txs[i]) && txs[i].hash in m && m[txs[i].hash].tx == txs[i]
    ensures !Conflicting(Without(m, Confirmed(txs)), txs)
  {
    hide Depends, Coins.IsCoinbase;
    ConflictsStay(m, spents, txs);
    forall op | op in spents && SpentIn(txs, op)
      ensures DependsOnAny(m, Confirmed(txs), spents[op])
    {
      var i :| 0 <= i < |txs| && op in txs[i].inputs;
      assert Spends(m[txs[i].hash], op);
      DependsOnItself(m, spents[op]);
    }
  }

  /** A pool of one entry, and a block of another transaction that spends the same coin: the entry stays. */
  lemma {:induction false} ConflictExample(op: Outpoint, mine: Hash, theirs: Hash, output: Output)
    requires op != NULL_OUTPOINT && mine != theirs
    ensures var m := map[mine := Entry(Transaction(mine, 0, [op], [output]), 100, 1, 0)];
      var txs := [Transaction(theirs, 0, [op], [output])];
      Without(m, Confirmed(txs)) == m && Conflicting(m, txs) && KeyedByHash(m) && Inverse(m, map[op := mine])
  {
    var m := map[mine := Entry(Transaction(mine, 0, [op], [output]), 100, 1, 0)];
    var txs := [Transaction(theirs, 0, [op], [output])];
    assert op in txs[0].inputs;
    assert mine in m && Spends(m[mine], op) && SpentIn(txs, op);
  }

  // ---- Acceptance ----

  /** What was free before an eviction is free after it. */
  lemma {:induction false} StillFree(m: Entries, n: Entries, taken: Spents, spents: Spents, was: Contracts, now: Contracts, e: Entry)
    requires Shrunk(m, n) && Inverse(m, taken) && Inverse(n, spents)
    requires Describes(was, Transactions(m)) && Describes(now, Transactions(n))
    ensures forall op :: op in spents ==> op in taken
    ensures now.unique <= was.unique
    ensures forall k :: 0 <= k < |e.tx.outputs| && Clashes(now.unique, e.tx.outputs[k]) ==> Clashes(was.unique, e.tx.outputs[k])
  {
    hide Operates, Spends;
    forall op | op in spents
      ensures op in taken
    {
      assert spents[op] in n && Spends(m[spents[op]], op);
    }
    forall name | name in now.unique
      ensures name in was.unique
    {
      HoldersShrink(m, n, Opening, name);
      HoldersShrink(m, n, Updating, name);
    }
  }

  lemma {:induction false} HoldersShrink(m: Entries, n: Entries, role: Role, name: Hash)
    requires Shrunk(m, n)
    ensures Holders(Transactions(n), role, name) <= Holders(Transactions(m), role, name)
  {
    hide Operates;
  }

  lemma {:induction false} FreshEntry(m: Entries, n: Entries, e: Entry)
    requires Shrunk(m, n) && e.tx.hash !in m
    ensures e.tx.hash !in n && n[e.tx.hash := e] - {e.tx.hash} == n
  {
  }

  // ---- Runs ----

  datatype PoolEvent =
    | Arrives(entry: Entry, policyOk: bool, contextOk: bool, sigopsOk: bool)
    | Removes(hash: Hash)
    | Evicts
    | Expires(now: nat)
    | Confirms(txs: seq<Transaction>)

  /** After any sequence of events all indices agree and the pool is within its limit. */
  method Run(events: seq<PoolEvent>) returns (pool: Mempool)
    ensures pool.Valid() && pool.size <= MAX_SIZE
  {
    hide Describes, OneHolder, Inverse, Total, Removal, Transactions, KeyedByHash, Shrunk;
    pool := new Mempool();
    var i := 0;
    while i < |events|
      invariant 0 <= i <= |events| && pool.Valid() && pool.size <= MAX_SIZE && fresh(pool) && fresh(pool.contracts)
    {
      ghost var m := pool.entries;
      match events[i] {
        case Arrives(entry, policyOk, contextOk, sigopsOk) =>
          var r := pool.AcceptTransaction(entry, policyOk, contextOk, sigopsOk);
        case Removes(hash) =>
          var removed := pool.RemoveEntry(hash);
          RemovalShrinks(m, hash, pool.entries, removed);
          SizeShrinks(m, pool.entries);
        case Evicts =>
          pool.EvictByFeeRate();
          SizeShrinks(m, pool.entries);
        case Expires(now) =>
          pool.EvictExpired(now);
          SizeShrinks(m, pool.entries);
        case Confirms(txs) =>
          pool.RemoveBlock(txs);
          SizeShrinks(m, pool.entries);
      }
      i := i + 1;
    }
  }

  lemma {:induction false} SizeShrinks(m: Entries, n: Entries)
    requires Shrunk(m, n)
    ensures Total(n) <= Total(m)
  {
    SumMonotone(Estimates(n), Estimates(m));
  }
}
