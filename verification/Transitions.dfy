/**
 * How coins with a covenant are spent (Sources/Covenants/CovenantVerifier.swift, lines 13 to 36;
 * Sources/Chain/CovenantProcessor.swift). The table of transitions is consulted for outputs that carry a
 * covenant of a name already held, and for no others.
 */
module Transitions {
  import opened Base
  import opened Covenants
  import opened NameDB
  import opened CovenantContext
  import opened CovenantFees
  import opened CovenantRules
  import opened CovenantProcessor

  /** The output at the input's position is one that may follow a coin of this kind. */
  predicate Followed(tx: Transaction, k: nat, from: CovenantType) {
    k < |tx.outputs| && IsValidTransition(from, tx.outputs[k].covenant.kind)
  }

  /** Outputs at which no matching input is looked up. */
  predicate Unchecked(kind: CovenantType) {
    kind == Nothing || kind == Open || kind == Bid
  }

  lemma {:induction false} CheckedFollows(ctx: Context, tx: Transaction, i: nat, s: Progress)
    requires i < |tx.outputs| && !Unchecked(tx.outputs[i].covenant.kind) && Step(ctx, tx, i, s).Ok?
    ensures i < |tx.inputs| && tx.inputs[i] in ctx.view
    ensures IsValidTransition(ctx.view[tx.inputs[i]].covenant.kind, tx.outputs[i].covenant.kind)
  {
    hide Charge, NameState.NameState.StateAt, VerifyRenewal, CheckRound, RegistrationPrice, TransferTarget, SetFlags, CheckDelegation,
      Prepare, ItemOfSize, Item;
  }

  lemma {:induction false} StepWasOk(ctx: Context, tx: Transaction, i: nat, n: nat, names: Names)
    requires i < n <= |tx.outputs| && Steps(ctx, tx, n, names).Ok?
    ensures Steps(ctx, tx, i, names).Ok? && Step(ctx, tx, i, Steps(ctx, tx, i, names).value).Ok?
  {
    hide Step;
    if i < n - 1 {
      StepWasOk(ctx, tx, i, n - 1, names);
    }
  }

  /**
   * In an accepted transaction a coin is spent without an allowed successor if and only if there is no
   * output at its position, or one without a covenant, an OPEN or a BID that the table does not allow
   * after it.
   */
  lemma {:induction false} SpentUnfollowed(ctx: Context, tx: Transaction, k: nat, names: Names)
    requires ProcessTransaction(ctx, tx, names).Ok? && k < |tx.inputs| && tx.inputs[k] in ctx.view
    ensures var from := ctx.view[tx.inputs[k]].covenant.kind;
      !Followed(tx, k, from) <==>
        || k >= |tx.outputs|
        || (Unchecked(tx.outputs[k].covenant.kind) && from !in {Nothing, Open, Redeem})
  {
    hide Steps, Step, Covers, Available;
    if k < |tx.outputs| && !Unchecked(tx.outputs[k].covenant.kind) {
      StepWasOk(ctx, tx, k, |tx.outputs|, names);
      CheckedFollows(ctx, tx, k, Steps(ctx, tx, k, names).value);
    }
  }

  /** A transaction without covenants is accepted and changes no name, whatever coins it spends. */
  lemma {:induction false} PlainAccepted(ctx: Context, tx: Transaction, names: Names)
    requires forall i :: 0 <= i < |tx.outputs| ==> tx.outputs[i].covenant.kind == Nothing
    ensures ProcessTransaction(ctx, tx, names) == Ok(names)
  {
    PlainKeeps(ctx, tx, |tx.outputs|, names);
  }

  lemma {:induction false} PlainKeeps(ctx: Context, tx: Transaction, n: nat, names: Names)
    requires n <= |tx.outputs| && forall i :: 0 <= i < n ==> tx.outputs[i].covenant.kind == Nothing
    ensures Steps(ctx, tx, n, names) == Ok(Progress(names, NO_DUES))
  {
    hide ProcessKind, Prepare, Charge;
    if n > 0 {
      PlainKeeps(ctx, tx, n - 1, names);
    }
  }
}
