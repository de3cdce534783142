/**
 * The names that transactions waiting in the pool operate on (Sources/Mempool/ContractState.swift).
 */
module ContractState {
  import opened Base
  import opened Covenants

  /** The four tables of names; bids and redeems share one. */
  datatype Role = Opening | Bidding | Revealing | Updating

  function RoleOf(kind: CovenantType): Option<Role> {
    match kind
    case Nothing => None
    case Open => Some(Opening)
    case Bid | Redeem => Some(Bidding)
    case Reveal => Some(Revealing)
    case Register | Update | Renew | Transfer | Finalize | Revoke => Some(Updating)
  }

  /** An operation only one transaction of the pool may do on a name. */
  predicate IsExclusive(role: Role) {
    role == Opening || role == Updating
  }

  /** The name an output operates on, when it names one properly, and how. */
  function OperationOf(output: Output): Option<(Hash, Role)> {
    var role, name := RoleOf(output.covenant.kind), NameHashOf(output.covenant);
    if role.Some? && name.Some? then Some((name.value, role.value)) else None
  }

  type Table = map<Hash, set<Hash>>

  function Members(t: Table, name: Hash): set<Hash> {
    if name in t then t[name] else {}
  }

  function Inserted(t: Table, name: Hash, h: Hash): Table {
    t[name := Members(t, name) + {h}]
  }

  /** Without `h` under `name`; an emptied entry goes. */
  function Dropped(t: Table, name: Hash, h: Hash): Table {
    if name !in t then t else if t[name] - {h} == {} then t - {name} else t[name := t[name] - {h}]
  }

  /** A removal that leaves the entry empty, which frees the name. */
  predicate Empties(t: Table, name: Hash, h: Hash) {
    name in t && t[name] - {h} == {}
  }

  datatype Contracts = Contracts(unique: set<Hash>, opens: Table, bids: Table, revealers: Table, updates: Table) {
    function Of(role: Role): Table {
      match role
      case Opening => opens
      case Bidding => bids
      case Revealing => revealers
      case Updating => updates
    }
  }

  function TrackOutput(c: Contracts, output: Output, h: Hash): Contracts {
    match OperationOf(output)
    case None => c
    case Some((name, Opening)) => c.(opens := Inserted(c.opens, name, h), unique := c.unique + {name})
    case Some((name, Bidding)) => c.(bids := Inserted(c.bids, name, h))
    case Some((name, Revealing)) => c.(revealers := Inserted(c.revealers, name, h))
    case Some((name, Updating)) => c.(updates := Inserted(c.updates, name, h), unique := c.unique + {name})
  }

  function UntrackOutput(c: Contracts, output: Output, h: Hash): Contracts {
    match OperationOf(output)
    case None => c
    case Some((name, Opening)) =>
      c.(opens := Dropped(c.opens, name, h), unique := if Empties(c.opens, name, h) then c.unique - {name} else c.unique)
    case Some((name, Bidding)) => c.(bids := Dropped(c.bids, name, h))
    case Some((name, Revealing)) => c.(revealers := Dropped(c.revealers, name, h))
    case Some((name, Updating)) =>
      c.(updates := Dropped(c.updates, name, h), unique := if Empties(c.updates, name, h) then c.unique - {name} else c.unique)
  }

  function Tracked(c: Contracts, outputs: seq<Output>, n: nat, h: Hash): Contracts
    requires n <= |outputs|
  {
    if n == 0 then c else TrackOutput(Tracked(c, outputs, n - 1, h), outputs[n - 1], h)
  }

  function Untracked(c: Contracts, outputs: seq<Output>, n: nat, h: Hash): Contracts
    requires n <= |outputs|
  {
    if n == 0 then c else UntrackOutput(Untracked(c, outputs, n - 1, h), outputs[n - 1], h)
  }

  class ContractState {
    var unique: set<Hash>
    var opens: Table
    var bids: Table
    var revealers: Table
    var updates: Table

    constructor ()
      ensures View() == Contracts({}, map[], map[], map[], map[])
    {
      unique, opens, bids, revealers, updates := {}, map[], map[], map[], map[];
    }

    function View(): Contracts
      reads this
    {
      Contracts(unique, opens, bids, revealers, updates)
    }

    /** Some exclusive operation of the transaction is on a name already operated on. */
    method HasNames(tx: Transaction) returns (has: bool)
      ensures has <==> exists k :: 0 <= k < |tx.outputs| && Clashes(unique, tx.outputs[k])
    {
      var k := 0;
      while k < |tx.outputs|
        invariant 0 <= k <= |tx.outputs| && forall j :: 0 <= j < k ==> !Clashes(unique, tx.outputs[j])
      {
        var operation := OperationOf(tx.outputs[k]);
        if operation.Some? && IsExclusive(operation.value.1) && operation.value.0 in unique {
          return true;
        }
        k := k + 1;
      }
      return false;
    }

    method Track(tx: Transaction, h: Hash)
      modifies this
      ensures View() == Tracked(old(View()), tx.outputs, |tx.outputs|, h)
    {
      hide OperationOf;
      var k := 0;
      while k < |tx.outputs|
        invariant 0 <= k <= |tx.outputs| && View() == Tracked(old(View()), tx.outputs, k, h)
      {
        match OperationOf(tx.outputs[k]) {
          case None =>
          case Some((name, Opening)) =>
            opens := Inserted(opens, name, h);
            unique := unique + {name};
          case Some((name, Bidding)) =>
            bids := Inserted(bids, name, h);
          case Some((name, Revealing)) =>
            revealers := Inserted(revealers, name, h);
          case Some((name, Updating)) =>
            updates := Inserted(updates, name, h);
            unique := unique + {name};
        }
        k := k + 1;
      }
    }

    method Untrack(tx: Transaction, h: Hash)
      modifies this
      ensures View() == Untracked(old(View()), tx.outputs, |tx.outputs|, h)
    {
      hide OperationOf, Dropped;
      var k := 0;
      while k < |tx.outputs|
        invariant 0 <= k <= |tx.outputs| && View() == Untracked(old(View()), tx.outputs, k, h)
      {
        match OperationOf(tx.outputs[k]) {
          case None =>
          case Some((name, Opening)) =>
            if Empties(opens, name, h) {
              unique := unique - {name};
            }
            opens := Dropped(opens, name, h);
          case Some((name, Bidding)) =>
            bids := Dropped(bids, name, h);
          case Some((name, Revealing)) =>
            revealers := Dropped(revealers, name, h);
          case Some((name, Updating)) =>
            if Empties(updates, name, h) {
              unique := unique - {name};
            }
            updates := Dropped(updates, name, h);
        }
        k := k + 1;
      }
    }
  }

  predicate Clashes(unique: set<Hash>, output: Output) {
    var operation := OperationOf(output);
    operation.Some? && IsExclusive(operation.value.1) && operation.value.0 in unique
  }

  // ---- What the tables mean ----

  /** One of the first `n` outputs does this to the name. */
  predicate Touches(outputs: seq<Output>, n: nat, role: Role, name: Hash)
    requires n <= |outputs|
  {
    n > 0 && (Touches(outputs, n - 1, role, name) || OperationOf(outputs[n - 1]) == Some((name, role)))
  }

  predicate Operates(tx: Transaction, role: Role, name: Hash) {
    Touches(tx.outputs, |tx.outputs|, role, name)
  }

  predicate Claims(tx: Transaction, name: Hash) {
    Operates(tx, Opening, name) || Operates(tx, Updating, name)
  }

  type Pool = map<Hash, Transaction>

  function Holders(pool: Pool, role: Role, name: Hash): set<Hash> {
    set h | h in pool && Operates(pool[h], role, name)
  }

  predicate NoEmpty(t: Table) {
    forall name :: name in t ==> t[name] != {}
  }

  predicate NoneEmpty(c: Contracts) {
    NoEmpty(c.opens) && NoEmpty(c.bids) && NoEmpty(c.revealers) && NoEmpty(c.updates)
  }

  /** The tables list exactly the pool's operations; a name is taken when someone claims it. */
  ghost predicate Describes(c: Contracts, pool: Pool) {
    && (forall role, name :: Members(c.Of(role), name) == Holders(pool, role, name))
    && NoneEmpty(c)
    && (forall name :: name in c.unique <==> Holders(pool, Opening, name) + Holders(pool, Updating, name) != {})
  }

  /** No name is claimed by two transactions. */
  ghost predicate OneHolder(pool: Pool) {
    forall name, a, b :: a in pool && b in pool && Claims(pool[a], name) && Claims(pool[b], name) ==> a == b
  }

  function Only(condition: bool, h: Hash): set<Hash> {
    if condition then {h} else {}
  }

  lemma {:induction false} InsertedMembers(t: Table, name: Hash, h: Hash, other: Hash)
    requires NoEmpty(t)
    ensures NoEmpty(Inserted(t, name, h))
    ensures Members(Inserted(t, name, h), other) == Members(t, other) + Only(name == other, h)
  {
  }

  lemma {:induction false} DroppedMembers(t: Table, name: Hash, h: Hash, other: Hash)
    requires NoEmpty(t)
    ensures NoEmpty(Dropped(t, name, h))
    ensures Members(Dropped(t, name, h), other) == Members(t, other) - Only(name == other, h)
  {
  }

  lemma {:induction false} TrackOne(c: Contracts, output: Output, h: Hash, role: Role, name: Hash)
    requires NoneEmpty(c)
    ensures var d, op := TrackOutput(c, output, h), OperationOf(output);
      && NoneEmpty(d)
      && Members(d.Of(role), name) == Members(c.Of(role), name) + Only(op == Some((name, role)), h)
      && (name in d.unique <==> name in c.unique || op == Some((name, Opening)) || op == Some((name, Updating)))
  {
    TrackKeepsFull(c, output, h);
    TrackUnique(c, output, h, name);
    TrackTable(c, output, h, role);
    TableFull(c, role);
    hide OperationOf, TrackOutput, Inserted, NoneEmpty, NoEmpty, Members, Contracts.Of;
    var op := OperationOf(output);
    if op.Some? && op.value.1 == role {
      InsertedMembers(c.Of(role), op.value.0, h, name);
    }
  }

  lemma {:induction false} TrackTable(c: Contracts, output: Output, h: Hash, role: Role)
    ensures var op := OperationOf(output);
      TrackOutput(c, output, h).Of(role)
        == if op.Some? && op.value.1 == role then Inserted(c.Of(role), op.value.0, h) else c.Of(role)
  {
    hide OperationOf, Inserted;
  }

  lemma {:induction false} TableFull(c: Contracts, role: Role)
    requires NoneEmpty(c)
    ensures NoEmpty(c.Of(role))
  {
  }

  lemma {:induction false} TrackKeepsFull(c: Contracts, output: Output, h: Hash)
    requires NoneEmpty(c)
    ensures NoneEmpty(TrackOutput(c, output, h))
  {
    hide OperationOf, Inserted, NoEmpty;
    match OperationOf(output)
    case None =>
    case Some((n, r)) => InsertedMembers(c.Of(r), n, h, n);
  }

  lemma {:induction false} TrackUnique(c: Contracts, output: Output, h: Hash, name: Hash)
    ensures var op := OperationOf(output);
      name in TrackOutput(c, output, h).unique <==>
        name in c.unique || op == Some((name, Opening)) || op == Some((name, Updating))
  {
    hide OperationOf, Inserted;
  }

  lemma {:induction false} TrackedMembers(c: Contracts, outputs: seq<Output>, n: nat, h: Hash, role: Role, name: Hash)
    requires n <= |outputs| && NoneEmpty(c)
    ensures var d := Tracked(c, outputs, n, h);
      && NoneEmpty(d)
      && Members(d.Of(role), name) == Members(c.Of(role), name) + Only(Touches(outputs, n, role, name), h)
      && (name in d.unique <==>
            name in c.unique || Touches(outputs, n, Opening, name) || Touches(outputs, n, Updating, name))
  {
    hide OperationOf, NoneEmpty, TrackOutput;
    if n > 0 {
      TrackedMembers(c, outputs, n - 1, h, role, name);
      TrackOne(Tracked(c, outputs, n - 1, h), outputs[n - 1], h, role, name);
    }
  }

  lemma {:induction false} UntrackOne(c: Contracts, output: Output, h: Hash, role: Role, name: Hash)
    requires NoneEmpty(c)
    ensures var d, op := UntrackOutput(c, output, h), OperationOf(output);
      && NoneEmpty(d)
      && Members(d.Of(role), name) == Members(c.Of(role), name) - Only(op == Some((name, role)), h)
      && (name in d.unique <==>
            name in c.unique
            && !(op == Some((name, Opening)) && Empties(c.opens, name, h))
            && !(op == Some((name, Updating)) && Empties(c.updates, name, h)))
  {
    UntrackKeepsFull(c, output, h);
    UntrackUnique(c, output, h, name);
    UntrackTable(c, output, h, role);
    TableFull(c, role);
    hide OperationOf, UntrackOutput, Dropped, NoneEmpty, NoEmpty, Members, Contracts.Of, Empties;
    var op := OperationOf(output);
    if op.Some? && op.value.1 == role {
      DroppedMembers(c.Of(role), op.value.0, h, name);
    }
  }

  lemma {:induction false} UntrackTable(c: Contracts, output: Output, h: Hash, role: Role)
    ensures var op := OperationOf(output);
      UntrackOutput(c, output, h).Of(role)
        == if op.Some? && op.value.1 == role then Dropped(c.Of(role), op.value.0, h) else c.Of(role)
  {
    hide OperationOf, Dropped, Empties;
  }

  lemma {:induction false} UntrackKeepsFull(c: Contracts, output: Output, h: Hash)
    requires NoneEmpty(c)
    ensures NoneEmpty(UntrackOutput(c, output, h))
  {
    hide OperationOf, Dropped, NoEmpty, Empties;
    match OperationOf(output)
    case None =>
    case Some((n, r)) => DroppedMembers(c.Of(r), n, h, n);
  }

  lemma {:induction false} UntrackUnique(c: Contracts, output: Output, h: Hash, name: Hash)
    ensures var op := OperationOf(output);
      name in UntrackOutput(c, output, h).unique <==>
        && name in c.unique
        && !(op == Some((name, Opening)) && Empties(c.opens, name, h))
        && !(op == Some((name, Updating)) && Empties(c.updates, name, h))
  {
    hide OperationOf, Dropped, Empties;
  }

  /** What holds for the transaction that is being taken out. */
  ghost predicate SoleClaims(c: Contracts, outputs: seq<Output>, n: nat, h: Hash)
    requires n <= |outputs|
  {
    forall name, role :: IsExclusive(role) && Touches(outputs, n, role, name) ==>
      Members(c.opens, name) <= {h} && Members(c.updates, name) <= {h} && h in Members(c.Of(role), name)
  }

  lemma {:induction false} UntrackedMembers(c: Contracts, outputs: seq<Output>, n: nat, h: Hash, role: Role, name: Hash)
    requires n <= |outputs| && NoneEmpty(c) && SoleClaims(c, outputs, n, h)
    ensures var d := Untracked(c, outputs, n, h);
      && NoneEmpty(d)
      && Members(d.Of(role), name) == Members(c.Of(role), name) - Only(Touches(outputs, n, role, name), h)
      && (name in d.unique <==>
            name in c.unique && !Touches(outputs, n, Opening, name) && !Touches(outputs, n, Updating, name))
  {
    hide OperationOf, UntrackOutput;
    if n > 0 {
      assert SoleClaims(c, outputs, n - 1, h);
      UntrackedMembers(c, outputs, n - 1, h, role, name);
      UntrackedMembers(c, outputs, n - 1, h, Opening, name);
      UntrackedMembers(c, outputs, n - 1, h, Updating, name);
      UntrackOne(Untracked(c, outputs, n - 1, h), outputs[n - 1], h, role, name);
    }
  }

  // ---- The tables follow the pool ----

  /** Tracking a transaction that claims no taken name. */
  lemma {:induction false} TrackDescribes(c: Contracts, pool: Pool, h: Hash, tx: Transaction)
    requires Describes(c, pool) && OneHolder(pool) && h !in pool
    requires forall k :: 0 <= k < |tx.outputs| ==> !Clashes(c.unique, tx.outputs[k])
    ensures Describes(Tracked(c, tx.outputs, |tx.outputs|, h), pool[h := tx])
    ensures OneHolder(pool[h := tx])
  {
    hide Tracked, Touches, OperationOf, NoneEmpty;
    var d, n := Tracked(c, tx.outputs, |tx.outputs|, h), |tx.outputs|;
    TrackedMembers(c, tx.outputs, n, h, Opening, h);
    forall role, name
      ensures Members(d.Of(role), name) == Holders(pool[h := tx], role, name)
    {
      TrackedMembers(c, tx.outputs, n, h, role, name);
      HoldersMore(pool, h, tx, role, name);
    }
    forall name
      ensures name in d.unique <==> Holders(pool[h := tx], Opening, name) + Holders(pool[h := tx], Updating, name) != {}
    {
      TrackedMembers(c, tx.outputs, n, h, Opening, name);
      HoldersMore(pool, h, tx, Opening, name);
      HoldersMore(pool, h, tx, Updating, name);
    }
    forall name, a | a in pool && Claims(pool[a], name)
      ensures !Claims(tx, name)
    {
      assert a in Holders(pool, Opening, name) + Holders(pool, Updating, name);
      assert name in c.unique;
      NoClaim(c.unique, tx, n, name);
    }
    assert forall a :: a in pool[h := tx] && a != h ==> a in pool;
  }

  lemma {:induction false} HoldersMore(pool: Pool, h: Hash, tx: Transaction, role: Role, name: Hash)
    requires h !in pool
    ensures Holders(pool[h := tx], role, name) == Holders(pool, role, name) + Only(Operates(tx, role, name), h)
  {
    hide Operates;
  }

  lemma {:induction false} NoClaim(unique: set<Hash>, tx: Transaction, n: nat, name: Hash)
    requires n <= |tx.outputs| && name in unique
    requires forall k :: 0 <= k < n ==> !Clashes(unique, tx.outputs[k])
    ensures !Touches(tx.outputs, n, Opening, name) && !Touches(tx.outputs, n, Updating, name)
  {
    hide OperationOf;
    if n > 0 {
      NoClaim(unique, tx, n - 1, name);
      assert !Clashes(unique, tx.outputs[n - 1]);
    }
  }

  /** Untracking a transaction of the pool. */
  lemma {:induction false} UntrackDescribes(c: Contracts, pool: Pool, h: Hash)
    requires Describes(c, pool) && OneHolder(pool) && h in pool
    ensures Describes(Untracked(c, pool[h].outputs, |pool[h].outputs|, h), pool - {h})
    ensures OneHolder(pool - {h})
  {
    hide Untracked, Touches, OperationOf, NoneEmpty, SoleClaims;
    var tx := pool[h];
    var d, n := Untracked(c, tx.outputs, |tx.outputs|, h), |tx.outputs|;
    ClaimsAreSole(c, pool, h);
    UntrackedMembers(c, tx.outputs, n, h, Opening, h);
    forall role, name
      ensures Members(d.Of(role), name) == Holders(pool - {h}, role, name)
      ensures name in d.unique <==> name in c.unique && !Claims(tx, name)
    {
      UntrackedMembers(c, tx.outputs, n, h, role, name);
      HoldersLess(pool, h, role, name);
    }
    forall name
      ensures name in d.unique <==> Holders(pool - {h}, Opening, name) + Holders(pool - {h}, Updating, name) != {}
    {
      HoldersLess(pool, h, Opening, name);
      HoldersLess(pool, h, Updating, name);
      FreedName(pool, h, name);
    }
  }

  lemma {:induction false} HoldersLess(pool: Pool, h: Hash, role: Role, name: Hash)
    requires h in pool
    ensures Holders(pool - {h}, role, name) == Holders(pool, role, name) - {h}
    ensures h in Holders(pool, role, name) <==> Operates(pool[h], role, name)
  {
    hide Operates;
  }

  /** Taking out the claimant frees the name, taking out anyone else does not. */
  lemma {:induction false} FreedName(pool: Pool, h: Hash, name: Hash)
    requires OneHolder(pool) && h in pool
    ensures var holders := Holders(pool, Opening, name) + Holders(pool, Updating, name);
      holders - {h} != {} <==> holders != {} && !Claims(pool[h], name)
  {
    hide Operates;
    var holders := Holders(pool, Opening, name) + Holders(pool, Updating, name);
    assert forall a :: a in holders <==> a in pool && Claims(pool[a], name);
    if holders != {} {
      var a :| a in holders;
    }
  }

  lemma {:induction false} ClaimsAreSole(c: Contracts, pool: Pool, h: Hash)
    requires Describes(c, pool) && OneHolder(pool) && h in pool
    ensures NoneEmpty(c) && SoleClaims(c, pool[h].outputs, |pool[h].outputs|, h)
  {
    hide NoneEmpty, Touches;
    forall name, role | IsExclusive(role) && Touches(pool[h].outputs, |pool[h].outputs|, role, name)
      ensures Members(c.opens, name) <= {h} && Members(c.updates, name) <= {h} && h in Members(c.Of(role), name)
    {
      assert Members(c.Of(Opening), name) == Holders(pool, Opening, name);
      assert Members(c.Of(Updating), name) == Holders(pool, Updating, name);
      assert Operates(pool[h], role, name);
      assert Claims(pool[h], name);
    }
  }
}
