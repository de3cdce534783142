/**
 * The name database (Sources/Chain/NameDB.swift): a pending map over a committed tree, with a
 * snapshot of the tree at every commit.
 *
 * The Urkel tree is a map from name hash to stored state. On disk its nodes have ids; a snapshot
 * is only a root id and the next free id, and ids are handed out again after a rollback.
 */
module NameDB {
  import opened Arith
  import opened Base
  import opened NameState

  type NameMap = map<Hash, NameState>

  /** The database as covenant processing sees it. */
  datatype Names = Names(pending: NameMap, tree: NameMap) {
    function Get(key: Hash): Option<NameState> {
      if key in pending then Some(pending[key])
      else if key in tree then Some(tree[key])
      else None
    }

    function Put(key: Hash, ns: NameState): Names {
      Names(pending[key := ns], tree)
    }
  }

  /** The latest commit height at or below `height`. */
  function Boundary(height: nat, interval: nat): (b: nat)
    requires interval > 0
    ensures b <= height
  {
    height / interval * interval
  }

  /** The tree with all pending states written into it. */
  function Flushed(names: Names): NameMap {
    names.tree + map key | key in names.pending :: names.pending[key].Stored()
  }

  /** The tree with the pending states written into it, those of `left` aside. */
  function FlushedBut(names: Names, left: set<Hash>): NameMap {
    names.tree + map key | key in names.pending && key !in left :: names.pending[key].Stored()
  }

  /** Two lookups find nothing, or states that agree in every stored field. */
  predicate SameFound(a: Option<NameState>, b: Option<NameState>) {
    if a.Some? && b.Some? then SameRecord(a.value, b.value) else a == b == None
  }

  /** With the pending states in the tree every lookup finds what it found before. */
  lemma {:induction false} FlushKeeps(names: Names, key: Hash)
    ensures SameFound(names.Get(key), Names(map[], Flushed(names)).Get(key))
  {
  }

  lemma {:induction false} FlushOne(names: Names, left: set<Hash>, key: Hash)
    requires key in left && key in names.pending
    ensures FlushedBut(names, left)[key := names.pending[key].Stored()] == FlushedBut(names, left - {key})
  {
    hide NameState.Stored;
  }

  lemma {:induction false} FlushEnds(names: Names)
    ensures FlushedBut(names, names.pending.Keys) == names.tree && FlushedBut(names, {}) == Flushed(names)
  {
    hide NameState.Stored;
  }

  /** Drop the unbroken run of entries at `from`, `from + interval`, ... */
  function DropRun<V>(s: map<nat, V>, from: nat, interval: nat): map<nat, V>
    requires interval > 0
    decreases |s|
  {
    if from in s then DropRun(s - {from}, from + interval, interval) else s
  }

  /** {0, interval, ..., n * interval} */
  function Multiples(n: nat, interval: nat): set<nat> {
    if n == 0 then {0} else Multiples(n - 1, interval) + {n * interval}
  }

  lemma {:induction false} MultiplesMember(n: nat, k: nat, interval: nat)
    requires interval > 0
    ensures k * interval in Multiples(n, interval) <==> k <= n
  {
    MulInjective(k, n, interval);
    if n > 0 {
      MultiplesMember(n - 1, k, interval);
    }
  }

  lemma {:induction false} MultiplesBound(n: nat, interval: nat)
    ensures forall h :: h in Multiples(n, interval) ==> h <= n * interval
    ensures forall m: nat :: m <= n ==> Multiples(m, interval) <= Multiples(n, interval)
  {
    if n > 0 {
      MultiplesBound(n - 1, interval);
      MulMonotone(n - 1, n, interval);
    }
  }

  /** With multiples j+1 to n still to go, the run starting at j+1 leaves those up to m. */
  lemma {:induction false} DropRunLeaves<V>(s: map<nat, V>, m: nat, j: nat, n: nat, interval: nat)
    requires interval > 0 && m <= j <= n
    requires s.Keys == Multiples(n, interval) - Multiples(j, interval) + Multiples(m, interval)
    ensures DropRun(s, (j + 1) * interval, interval).Keys == Multiples(m, interval)
    decreases n - j
  {
    var from := (j + 1) * interval;
    MultiplesMember(n, j + 1, interval);
    MultiplesMember(j, j + 1, interval);
    MultiplesMember(m, j + 1, interval);
    if j < n {
      assert (j + 2) * interval == from + interval;
      DropRunLeaves(s - {from}, m, j + 1, n, interval);
    }
  }

  /** Which keys go does not depend on the values, and what stays is unchanged. */
  lemma {:induction false} DropRunKeys<A, B>(a: map<nat, A>, b: map<nat, B>, from: nat, interval: nat)
    requires interval > 0 && a.Keys == b.Keys
    ensures DropRun(a, from, interval).Keys == DropRun(b, from, interval).Keys <= a.Keys
    ensures forall h :: h in DropRun(a, from, interval) ==> DropRun(a, from, interval)[h] == a[h]
    decreases |a|
  {
    if from in a {
      DropRunKeys(a - {from}, b - {from}, from + interval, interval);
    }
  }

  /**
   * What the database means, node ids apart: names, the last commit height, and the tree each
   * retained snapshot stands for.
   */
  datatype Store = Store(names: Names, committed: nat, snapshots: map<nat, NameMap>) {

    function Commit(height: nat): Store {
      var tree := Flushed(names);
      Store(Names(map[], tree), height, snapshots[height := tree])
    }

    /** Back to the commit at `target`, if it was retained. */
    function RollbackTo(target: nat, interval: nat): Option<Store>
      requires interval > 0
    {
      if target !in snapshots then None
      else Some(Store(Names(map[], snapshots[target]), target,
                      DropRun(snapshots, target + interval, interval)))
    }

    function Rollback(height: nat, interval: nat): Option<Store>
      requires interval > 0
    {
      RollbackTo(Boundary(height, interval), interval)
    }

    /** Closing and opening again loses exactly the pending map. */
    function Reopen(): Store {
      this.(names := Names(map[], names.tree))
    }
  }

  /** A commit, and closing and opening after it, keep what every lookup finds. */
  lemma {:induction false} CommitKeeps(s: Store, height: nat, key: Hash)
    ensures SameFound(s.names.Get(key), s.Commit(height).names.Get(key))
    ensures SameFound(s.names.Get(key), s.Commit(height).Reopen().names.Get(key))
  {
    hide SameFound, Flushed;
    FlushKeeps(s.names, key);
  }

  datatype Snapshot = Snapshot(root: nat, next: nat)

  /** The persisted part: contents below each root id, snapshots, and the current root. */
  datatype Disk = Disk(nodes: map<nat, NameMap>, snapshots: map<nat, Snapshot>, current: Snapshot, committed: nat) {

    /** A usable root: the empty tree (id 0) or an id that was written and is not free. */
    predicate Rooted(s: Snapshot) {
      s.root < s.next && (s.root == 0 || s.root in nodes)
    }

    function Contents(s: Snapshot): NameMap
      requires Rooted(s)
    {
      if s.root == 0 then map[] else nodes[s.root]
    }

    /** Later snapshots have used up at least as many ids, so reusing ids never hits an older one. */
    ghost predicate Sound() {
      && committed in snapshots && snapshots[committed] == current
      && (forall h :: h in snapshots ==> Rooted(snapshots[h]) && h <= committed)
      && (forall g, h :: g in snapshots && h in snapshots && g <= h ==> snapshots[g].next <= snapshots[h].next)
    }

    ghost function Trees(): map<nat, NameMap>
      requires Sound()
    {
      map h | h in snapshots :: Contents(snapshots[h])
    }

    /** Write `dirty` nodes under fresh ids, root last, over whatever stood at ids that are free. */
    function Write(contents: NameMap, dirty: nat): Disk {
      if contents == map[] then this.(current := Snapshot(0, current.next))
      else if dirty == 0 then this
      else
        var root := current.next + dirty - 1;
        this.(nodes := (map id | id in nodes && id < current.next :: nodes[id])[root := contents],
              current := Snapshot(root, current.next + dirty))
    }

    function Mark(height: nat): Disk {
      this.(snapshots := snapshots[height := current], committed := height)
    }

    lemma {:induction false} WriteFacts(contents: NameMap, dirty: nat)
      requires Rooted(current) && (dirty == 0 ==> contents == Contents(current))
      ensures ExtendedBy(Write(contents, dirty))
      ensures Write(contents, dirty).Contents(Write(contents, dirty).current) == contents
    {
    }

    /** `after` has the same snapshots, a usable root, and still has everything below older ids. */
    ghost predicate ExtendedBy(after: Disk) {
      && after.snapshots == snapshots && after.committed == committed && after.Rooted(after.current)
      && current.next <= after.current.next
      && forall s :: Rooted(s) && s.next <= current.next ==> after.Rooted(s) && after.Contents(s) == Contents(s)
    }

    lemma {:induction false} MarkSound(after: Disk, height: nat)
      requires Sound() && committed <= height && ExtendedBy(after)
      ensures after.Mark(height).Sound()
    {
      forall h | h in snapshots
        ensures after.Rooted(snapshots[h]) && h <= height && snapshots[h].next <= after.current.next
      {
        assert snapshots[h].next <= snapshots[committed].next;
      }
    }

    lemma {:induction false} MarkContents(height: nat, s: Snapshot)
      requires Rooted(s)
      ensures Mark(height).Rooted(s) && Mark(height).Contents(s) == Contents(s)
    {
    }

    lemma {:induction false} MarkSnapshots(after: Disk, height: nat)
      requires ExtendedBy(after)
      ensures after.Mark(height).snapshots == snapshots[height := after.current] && after.Rooted(after.current)
    {
    }

    lemma {:induction false} TreesKeys()
      requires Sound()
      ensures Trees().Keys == snapshots.Keys
    {
    }

    lemma {:induction false} TreeAt(h: nat)
      requires Sound() && h in snapshots
      ensures h in Trees() && Rooted(snapshots[h]) && Trees()[h] == Contents(snapshots[h])
    {
    }

    lemma {:induction false} MarkTrees(after: Disk, height: nat)
      requires Sound() && committed <= height && ExtendedBy(after) && after.Mark(height).Sound()
      ensures after.Rooted(after.current)
      ensures after.Mark(height).Trees() == Trees()[height := after.Contents(after.current)]
    {
      hide *;
      var d := after.Mark(height);
      MarkSnapshots(after, height);
      after.MarkContents(height, after.current);
      TreesKeys();
      d.TreesKeys();
      forall h | h in d.snapshots
        ensures d.Trees()[h] == (Trees()[height := after.Contents(after.current)])[h]
      {
        d.TreeAt(h);
        if h != height {
          TreeAt(h);
          OlderTree(after, height, h);
        }
      }
    }

    lemma {:induction false} OlderTree(after: Disk, height: nat, h: nat)
      requires Sound() && ExtendedBy(after) && h in snapshots
      ensures after.Mark(height).Rooted(snapshots[h]) && after.Mark(height).Contents(snapshots[h]) == Contents(snapshots[h])
    {
      assert snapshots[h].next <= snapshots[committed].next;
      assert after.Contents(snapshots[h]) == Contents(snapshots[h]);
    }

    /** A commit records the new contents and leaves every other snapshot's tree as it was. */
    lemma {:induction false} CommitSound(contents: NameMap, dirty: nat, height: nat)
      requires Sound() && committed <= height
      requires dirty == 0 ==> contents == Contents(current)
      ensures var d := Write(contents, dirty).Mark(height);
        && d.Sound() && d.Contents(d.current) == contents && d.committed == height
        && d.Trees() == Trees()[height := contents]
    {
      WriteFacts(contents, dirty);
      MarkSound(Write(contents, dirty), height);
      MarkTrees(Write(contents, dirty), height);
    }

    /** There is a snapshot at every multiple of the interval up to the last commit. */
    predicate Regular(n: nat, interval: nat) {
      committed == n * interval && snapshots.Keys == Multiples(n, interval)
    }

    /** Forgetting every snapshot above `target` and a choice of those below. */
    function KeepOnly(kept: map<nat, Snapshot>, target: nat): Disk
      requires target in kept
    {
      Disk(nodes, kept, kept[target], target)
    }

    predicate KeptUpTo(kept: map<nat, Snapshot>, target: nat) {
      target in kept && kept.Keys <= snapshots.Keys && forall h :: h in kept ==> kept[h] == snapshots[h] && h <= target
    }

    lemma {:induction false} KeepOnlySound(kept: map<nat, Snapshot>, target: nat)
      requires Sound() && KeptUpTo(kept, target)
      ensures KeepOnly(kept, target).Sound()
    {
    }

    lemma {:induction false} KeepOnlyTrees(kept: map<nat, Snapshot>, trees: map<nat, NameMap>, target: nat)
      requires Sound() && KeptUpTo(kept, target) && KeepOnly(kept, target).Sound()
      requires trees.Keys == kept.Keys && forall h :: h in trees ==> h in Trees() && trees[h] == Trees()[h]
      ensures KeepOnly(kept, target).Trees() == trees
    {
      forall h | h in kept
        ensures KeepOnly(kept, target).Trees()[h] == trees[h]
      {
        assert Trees()[h] == Contents(snapshots[h]);
      }
    }

    lemma {:induction false} RollbackKeeps(m: nat, n: nat, interval: nat, target: nat)
      requires interval > 0 && Regular(n, interval) && m <= n && target == m * interval
      ensures KeptUpTo(DropRun(snapshots, target + interval, interval), target)
      ensures DropRun(snapshots, target + interval, interval).Keys == Multiples(m, interval)
    {
      MultiplesBound(n, interval);
      assert (m + 1) * interval == target + interval;
      DropRunLeaves(snapshots, m, m, n, interval);
      DropRunKeys(snapshots, snapshots, target + interval, interval);
      MultiplesBound(m, interval);
      MultiplesMember(m, m, interval);
    }

    /** A rollback drops snapshots but changes no retained tree. */
    lemma {:induction false} RollbackSound(interval: nat, target: nat)
      requires interval > 0 && Sound()
      requires KeptUpTo(DropRun(snapshots, target + interval, interval), target)
      ensures KeepOnly(DropRun(snapshots, target + interval, interval), target).Sound()
      ensures KeepOnly(DropRun(snapshots, target + interval, interval), target).Trees()
           == DropRun(Trees(), target + interval, interval)
    {
      var from := target + interval;
      var kept := DropRun(snapshots, from, interval);
      KeepOnlySound(kept, target);
      DropRunKeys(Trees(), snapshots, from, interval);
      KeepOnlyTrees(kept, DropRun(Trees(), from, interval), target);
    }

    lemma {:induction false} CurrentRooted()
      requires Sound()
      ensures Rooted(current)
    {
    }

    /** What a database whose tree is the current one and whose pending map is `pending` means. */
    ghost function Meaning(pending: NameMap): Store
      requires Sound()
    {
      Store(Names(pending, Contents(current)), committed, Trees())
    }

    lemma {:induction false} RollbackMeaning(pending: NameMap, m: nat, n: nat, interval: nat, target: nat)
      requires interval > 0 && Sound() && Regular(n, interval) && m <= n && target == m * interval
      ensures var kept := DropRun(snapshots, target + interval, interval);
        && target in kept
        && KeepOnly(kept, target).Sound() && KeepOnly(kept, target).Regular(m, interval)
        && Some(KeepOnly(kept, target).Meaning(map[])) == Meaning(pending).RollbackTo(target, interval)
    {
      hide *;
      var kept := DropRun(snapshots, target + interval, interval);
      RollbackKeeps(m, n, interval, target);
      RollbackSound(interval, target);
      KeptAt(kept, target);
      KeptRegular(kept, m, interval, target);
      TreeAt(target);
      KeptMeaning(pending, kept, interval, target);
    }

    lemma {:induction false} KeptAt(kept: map<nat, Snapshot>, target: nat)
      requires KeptUpTo(kept, target)
      ensures target in kept && target in snapshots && kept[target] == snapshots[target]
    {
    }

    lemma {:induction false} KeptRegular(kept: map<nat, Snapshot>, m: nat, interval: nat, target: nat)
      requires target in kept && target == m * interval && kept.Keys == Multiples(m, interval)
      ensures KeepOnly(kept, target).Regular(m, interval)
    {
      hide Multiples;
    }

    lemma {:induction false} KeptMeaning(pending: NameMap, kept: map<nat, Snapshot>, interval: nat, target: nat)
      requires interval > 0 && Sound() && target in snapshots && target in kept && kept[target] == snapshots[target]
      requires KeepOnly(kept, target).Sound() && KeepOnly(kept, target).Trees() == DropRun(Trees(), target + interval, interval)
      requires target in Trees() && Rooted(snapshots[target]) && Trees()[target] == Contents(snapshots[target])
      ensures Some(KeepOnly(kept, target).Meaning(map[])) == Meaning(pending).RollbackTo(target, interval)
    {
      hide DropRun, Disk.Sound, Disk.Trees;
    }
  }

  /**
   * The database object. `store` is the LevelDB contents, written one atomic batch at a time; the
   * in-memory root id, next id and committed height always equal the persisted ones.
   */
  class NameDB {
    var pending: NameMap
    var tree: NameMap
    var store: Disk

    ghost predicate Valid()
      reads this
    {
      store.Sound() && tree == store.Contents(store.current)
    }

    function View(): Names
      reads this`pending, this`tree
    {
      Names(pending, tree)
    }

    ghost function Meaning(): Store
      reads this
      requires Valid()
    {
      store.Meaning(pending)
    }

    method GetNameState(key: Hash) returns (found: Option<NameState>)
      ensures found == View().Get(key)
    {
      if key in pending {
        return Some(pending[key]);
      }
      if key !in tree {
        return None;
      }
      return Some(tree[key]);
    }

    method PutNameState(key: Hash, ns: NameState)
      modifies this`pending
      ensures View() == old(View()).Put(key, ns)
    {
      pending := pending[key := ns];
    }

    method RestorePending(snapshot: NameMap)
      modifies this`pending
      ensures pending == snapshot
    {
      pending := snapshot;
    }

    /** Insert every pending state into the tree. */
    method InsertPending() returns (contents: NameMap)
      ensures contents == Flushed(View())
    {
      hide Flushed, FlushedBut, NameState.Stored;
      var keys := pending.Keys;
      contents := tree;
      FlushEnds(View());
      while keys != {}
        invariant keys <= pending.Keys && contents == FlushedBut(View(), keys)
        decreases keys
      {
        var key :| key in keys;
        FlushOne(View(), keys, key);
        contents := contents[key := pending[key].Stored()];
        keys := keys - {key};
      }
    }

    /**
     * Flush the pending map. `rewritten` is how many nodes the tree chooses to write beyond the
     * one that a change of contents makes necessary.
     */
    method Commit(height: nat, rewritten: nat)
      requires Valid() && store.committed <= height
      modifies this
      ensures Valid()
      ensures Meaning() == old(Meaning()).Commit(height)
      ensures pending == map[] && forall key :: SameFound(old(View()).Get(key), View().Get(key))
    {
      ghost var names := View();
      var contents := InsertPending();
      forall key
        ensures SameFound(names.Get(key), Names(map[], contents).Get(key))
      {
        FlushKeeps(names, key);
      }
      var dirty := if contents == tree then rewritten else rewritten + 1;
      hide Disk.Sound, Disk.Contents, Disk.Trees, Disk.Write, Disk.Mark, SameFound, Flushed;
      store.CommitSound(contents, dirty, height);
      store := store.Write(contents, dirty).Mark(height);
      tree := contents;
      pending := map[];
    }

    /** The snapshots left after deleting the stale ones above a rollback target. */
    method DeleteStale(from: nat, interval: nat) returns (kept: map<nat, Snapshot>)
      requires interval > 0
      ensures kept == DropRun(store.snapshots, from, interval)
    {
      kept := store.snapshots;
      var stale := from;
      while stale in kept
        invariant stale >= 0
        invariant DropRun(kept, stale, interval) == DropRun(store.snapshots, from, interval)
        decreases |kept|
      {
        kept := kept - {stale};
        stale := stale + interval;
      }
    }

    /** Restore the snapshot at `target`, the m-th multiple of the interval. */
    method RestoreSnapshot(target: nat, interval: nat, ghost m: nat, ghost commits: nat)
      requires Valid() && interval > 0 && store.Regular(commits, interval)
      requires m <= commits && target == m * interval && target in store.snapshots
      modifies this
      ensures Valid() && store.Regular(m, interval)
      ensures Some(Meaning()) == old(Meaning()).RollbackTo(target, interval)
    {
      hide Multiples, DropRun, Disk.Trees, Disk.Regular, Disk.Sound, Store.RollbackTo;
      store.RollbackMeaning(pending, m, commits, interval, target);
      var kept := DeleteStale(target + interval, interval);
      store := store.KeepOnly(kept, target);
      store.CurrentRooted();
      tree := store.Contents(store.current);
      pending := map[];
    }

    /**
     * Go back to the latest commit at or below `height`. Fails, changing nothing, when there is
     * no snapshot for it.
     */
    method RollbackToHeight(height: nat, interval: nat, ghost commits: nat) returns (ok: bool)
      requires Valid() && interval > 0 && store.Regular(commits, interval)
      modifies this
      ensures Valid()
      ensures ok ==> store.Regular(height / interval, interval)
      ensures ok ==> Some(Meaning()) == old(Meaning()).Rollback(height, interval)
      ensures !ok ==> Meaning() == old(Meaning()) && old(Meaning()).Rollback(height, interval) == None
    {
      ghost var m := height / interval;
      var target := height / interval * interval;
      MultiplesMember(commits, m, interval);
      ok := target in store.snapshots;
      if ok {
        RestoreSnapshot(target, interval, m, commits);
      }
    }

    /** Closing and opening again: only what was persisted comes back. */
    method Reopen()
      requires Valid()
      modifies this`pending, this`tree
      ensures Valid() && Meaning() == old(Meaning()).Reopen()
      ensures old(pending) == map[] ==> View() == old(View())
    {
      pending := map[];
      tree := store.Contents(store.current);
    }
  }
}
