/**
 * Exactly when acceptance means payment in full: for the covenants of a transaction, whatever plain
 * outputs it carries besides.
 */
module FeeExact {
  import opened Base
  import opened Sums
  import opened Covenants
  import opened NameState
  import opened NameDB
  import opened CovenantContext
  import opened CovenantFees
  import opened CovenantRules
  import opened CovenantProcessor
  import opened Transitions

  function Plain(to: Address, amount: nat): Output {
    Output(amount, to, Covenant(Nothing, []))
  }

  predicate AllPlain(outputs: seq<Output>) {
    forall i :: 0 <= i < |outputs| ==> outputs[i].covenant.kind == Nothing
  }

  /** The same outputs, those without a covenant worth nothing. */
  function Emptied(outputs: seq<Output>): (r: seq<Output>)
    ensures |r| == |outputs|
    ensures forall i :: 0 <= i < |outputs| ==>
      r[i] == if outputs[i].covenant.kind == Nothing then outputs[i].(value := 0) else outputs[i]
  {
    if outputs == [] then []
    else
      var last := outputs[|outputs| - 1];
      Emptied(outputs[..|outputs| - 1]) + [if last.covenant.kind == Nothing then last.(value := 0) else last]
  }

  /** The transaction with the same inputs and covenants, paying `plain` and nothing else. */
  function Paying(tx: Transaction, plain: seq<Output>): Transaction {
    tx.(outputs := Emptied(tx.outputs) + plain)
  }

  // ---- The dues are those of the covenants ----

  /** What an operation reads of the transaction. */
  predicate SameAt(a: Transaction, b: Transaction, i: nat) {
    && i < |a.outputs| && i < |b.outputs| && a.outputs[i] == b.outputs[i]
    && a.inputs == b.inputs && a.hash == b.hash
  }

  lemma {:induction false} CoinSame(ctx: Context, a: Transaction, b: Transaction, i: nat, ns: NameState)
    requires SameAt(a, b, i)
    ensures MatchingCoin(ctx, a, i) == MatchingCoin(ctx, b, i)
    ensures forall to :: SpendOwner(ctx, a, i, ns, to) == SpendOwner(ctx, b, i, ns, to)
  {
    hide IsValidTransition;
  }

  lemma {:induction false} OpenSame(ctx: Context, a: Transaction, b: Transaction, i: nat, key: Hash, ns: NameState, db: Names)
    requires SameAt(a, b, i)
    ensures ProcessOpen(ctx, a, i, key, ns, db) == ProcessOpen(ctx, b, i, key, ns, db)
    ensures ProcessBid(ctx, a, i, ns) == ProcessBid(ctx, b, i, ns)
  {
    CoinSame(ctx, a, b, i, ns);
    hide NameState.StateAt, VerifyRenewal, CheckRound, RegistrationPrice, TransferTarget, CheckParent, SetFlags, CheckDelegation,
      MinimumBid, IsValidTransition, ItemOfSize, Item, HeightOf, RegisterFlagsOf, FlagsOf, MatchingCoin, SpendOwner;
  }

  lemma {:induction false} AuctionSame(ctx: Context, a: Transaction, b: Transaction, i: nat, ns: NameState)
    requires SameAt(a, b, i)
    ensures ProcessReveal(ctx, a, i, ns) == ProcessReveal(ctx, b, i, ns)
    ensures ProcessRedeem(ctx, a, i, ns) == ProcessRedeem(ctx, b, i, ns)
  {
    CoinSame(ctx, a, b, i, ns);
    hide NameState.StateAt, VerifyRenewal, CheckRound, RegistrationPrice, TransferTarget, CheckParent, SetFlags, CheckDelegation,
      MinimumBid, IsValidTransition, ItemOfSize, Item, HeightOf, RegisterFlagsOf, FlagsOf, MatchingCoin, SpendOwner;
  }

  lemma {:induction false} RegisterSame(ctx: Context, a: Transaction, b: Transaction, i: nat, ns: NameState)
    requires SameAt(a, b, i)
    ensures ProcessRegister(ctx, a, i, ns) == ProcessRegister(ctx, b, i, ns)
  {
    CoinSame(ctx, a, b, i, ns);
    hide NameState.StateAt, VerifyRenewal, CheckRound, RegistrationPrice, TransferTarget, CheckParent, SetFlags, CheckDelegation,
      MinimumBid, IsValidTransition, ItemOfSize, Item, HeightOf, RegisterFlagsOf, FlagsOf, MatchingCoin, SpendOwner;
  }

  lemma {:induction false} UpdateSame(ctx: Context, a: Transaction, b: Transaction, i: nat, ns: NameState)
    requires SameAt(a, b, i)
    ensures ProcessUpdate(ctx, a, i, ns) == ProcessUpdate(ctx, b, i, ns)
    ensures ProcessRenew(ctx, a, i, ns) == ProcessRenew(ctx, b, i, ns)
  {
    CoinSame(ctx, a, b, i, ns);
    hide NameState.StateAt, VerifyRenewal, CheckRound, RegistrationPrice, TransferTarget, CheckParent, SetFlags, CheckDelegation,
      MinimumBid, IsValidTransition, ItemOfSize, Item, HeightOf, RegisterFlagsOf, FlagsOf, MatchingCoin, SpendOwner;
  }

  lemma {:induction false} TransferSame(ctx: Context, a: Transaction, b: Transaction, i: nat, ns: NameState)
    requires SameAt(a, b, i)
    ensures ProcessTransfer(ctx, a, i, ns) == ProcessTransfer(ctx, b, i, ns)
    ensures ProcessFinalize(ctx, a, i, ns) == ProcessFinalize(ctx, b, i, ns)
    ensures ProcessRevoke(ctx, a, i, ns) == ProcessRevoke(ctx, b, i, ns)
  {
    CoinSame(ctx, a, b, i, ns);
    hide NameState.StateAt, VerifyRenewal, CheckRound, RegistrationPrice, TransferTarget, CheckParent, SetFlags, CheckDelegation,
      MinimumBid, IsValidTransition, ItemOfSize, Item, HeightOf, RegisterFlagsOf, FlagsOf, MatchingCoin, SpendOwner;
  }

  lemma {:induction false} KindSame(ctx: Context, a: Transaction, b: Transaction, i: nat, key: Hash, ns: NameState, db: Names)
    requires SameAt(a, b, i)
    ensures ProcessKind(ctx, a, i, key, ns, db) == ProcessKind(ctx, b, i, key, ns, db)
  {
    hide ProcessOpen, ProcessBid, ProcessReveal, ProcessRedeem, ProcessRegister, ProcessUpdate, ProcessRenew, ProcessTransfer,
      ProcessFinalize, ProcessRevoke, Names.Put;
    OpenSame(ctx, a, b, i, key, ns, db);
    AuctionSame(ctx, a, b, i, ns);
    RegisterSame(ctx, a, b, i, ns);
    UpdateSame(ctx, a, b, i, ns);
    TransferSame(ctx, a, b, i, ns);
  }

  lemma {:induction false} StepSame(ctx: Context, tx: Transaction, plain: seq<Output>, i: nat, s: Progress)
    requires i < |tx.outputs|
    ensures Step(ctx, Paying(tx, plain), i, s) == Step(ctx, tx, i, s)
  {
    hide ProcessKind, Prepare, Charge, NameHashOf;
    var c := tx.outputs[i].covenant;
    if c.kind.IsName() && NameHashOf(c).Some? && Prepare(ctx, c, NameHashOf(c).value, s.names).Ok? {
      KindSame(ctx, Paying(tx, plain), tx, i, NameHashOf(c).value, Prepare(ctx, c, NameHashOf(c).value, s.names).value, s.names);
    }
  }

  lemma {:induction false} StepsSame(ctx: Context, tx: Transaction, plain: seq<Output>, n: nat, names: Names)
    requires n <= |tx.outputs|
    ensures Steps(ctx, Paying(tx, plain), n, names) == Steps(ctx, tx, n, names)
    ensures Prices(ctx, Paying(tx, plain), n, names) == Prices(ctx, tx, n, names)
  {
    hide Step, Prepare, Price, NameHashOf;
    if n > 0 {
      StepsSame(ctx, tx, plain, n - 1, names);
      if Steps(ctx, tx, n - 1, names).Ok? {
        StepSame(ctx, tx, plain, n - 1, Steps(ctx, tx, n - 1, names).value);
      }
    }
  }

  lemma {:induction false} PlainSteps(ctx: Context, tx: Transaction, plain: seq<Output>, n: nat, names: Names)
    requires AllPlain(plain) && |tx.outputs| <= n <= |tx.outputs| + |plain|
    ensures Steps(ctx, Paying(tx, plain), n, names) == Steps(ctx, tx, |tx.outputs|, names)
    ensures Prices(ctx, Paying(tx, plain), n, names) == Prices(ctx, tx, |tx.outputs|, names)
  {
    hide Prepare, RegistrationPrice, RenewalFee, NameHashOf, ProcessKind, Charge;
    if n == |tx.outputs| {
      StepsSame(ctx, tx, plain, n, names);
    } else {
      PlainSteps(ctx, tx, plain, n - 1, names);
      assert Paying(tx, plain).outputs[n - 1] == plain[n - 1 - |tx.outputs|];
    }
  }

  // ---- The plain outputs are free ----

  /** Two tables with the same amount for every address. */
  ghost predicate SameAmounts(a: Payments, b: Payments) {
    forall to :: Get(a, to) == Get(b, to)
  }

  lemma {:induction false} PaySame(a: Payments, b: Payments, to: Address, amount: int)
    requires SameAmounts(a, b)
    ensures SameAmounts(Pay(a, to, amount), Pay(b, to, amount))
  {
    forall x ensures Get(Pay(a, to, amount), x) == Get(Pay(b, to, amount), x) {
      assert Get(a, x) == Get(b, x);
    }
  }

  lemma {:induction false} EmptiedPay(outputs: seq<Output>)
    ensures SameAmounts(Available(Emptied(outputs)), map[]) && PlainValue(Emptied(outputs)) == 0
  {
    if outputs != [] {
      var front := outputs[..|outputs| - 1];
      EmptiedPay(front);
      assert Emptied(outputs)[..|outputs| - 1] == Emptied(front);
    }
  }

  lemma {:induction false} PayingPays(outputs: seq<Output>, plain: seq<Output>)
    requires AllPlain(plain)
    ensures SameAmounts(Available(Emptied(outputs) + plain), Available(plain))
    ensures PlainValue(Emptied(outputs) + plain) == PlainValue(plain)
  {
    hide Emptied, Pay, SameAmounts;
    var all := Emptied(outputs) + plain;
    if plain == [] {
      assert all == Emptied(outputs);
      EmptiedPay(outputs);
    } else {
      var front := plain[..|plain| - 1];
      PayingPays(outputs, front);
      var last := plain[|plain| - 1];
      assert all[..|all| - 1] == Emptied(outputs) + front && all[|all| - 1] == last;
      PaySame(Available(Emptied(outputs) + front), Available(front), last.address, last.value);
    }
  }

  /** Any balances can be paid. */
  lemma {:induction false} CanPay(m: Payments) returns (plain: seq<Output>)
    requires forall a :: a in m ==> 0 <= m[a]
    ensures AllPlain(plain) && SameAmounts(Available(plain), m) && PlainValue(plain) == Sum(m)
    decreases |m|
  {
    if |m| == 0 {
      plain := [];
    } else {
      var a := Pick(m);
      var front := CanPay(m - {a});
      plain := front + [Plain(a, m[a])];
      assert plain[..|plain| - 1] == front;
      SumRemove(m, a);
      forall to ensures Get(Available(plain), to) == Get(m, to) {
        assert Get(Available(front), to) == Get(m - {a}, to);
      }
    }
  }

  lemma {:induction false} CoversSame(a: Payments, b: Payments, dues: Dues)
    requires SameAmounts(a, b)
    ensures Covers(a, dues) <==> Covers(b, dues)
  {
  }

  // ---- The law ----

  /** Whatever the transaction pays besides its covenants, if it is accepted its fees are paid in full. */
  ghost predicate PaysInFull(ctx: Context, tx: Transaction, names: Names) {
    forall plain: seq<Output> :: AllPlain(plain) && ProcessTransaction(ctx, Paying(tx, plain), names).Ok? ==>
      Prices(ctx, tx, |tx.outputs|, names) <= PlainValue(plain)
  }

  lemma {:induction false} PayingAccepted(ctx: Context, tx: Transaction, plain: seq<Output>, names: Names)
    requires AllPlain(plain) && Steps(ctx, tx, |tx.outputs|, names).Ok?
    ensures ProcessTransaction(ctx, Paying(tx, plain), names).Ok?
       <==> Covers(Available(plain), Steps(ctx, tx, |tx.outputs|, names).value.dues)
  {
    hide Steps, Covers, Available, Prices, SameAmounts, AllPlain;
    PlainSteps(ctx, tx, plain, |tx.outputs| + |plain|, names);
    PayingPays(tx.outputs, plain);
    CoversSame(Available(Emptied(tx.outputs) + plain), Available(plain), Steps(ctx, tx, |tx.outputs|, names).value.dues);
  }

  /** The fees of valid covenants are always paid in full if and only if they do not both burn and pay the null address. */
  lemma {:induction false} ExactlyApart(ctx: Context, tx: Transaction, names: Names)
    requires Steps(ctx, tx, |tx.outputs|, names).Ok?
    ensures var dues := Steps(ctx, tx, |tx.outputs|, names).value.dues;
      PaysInFull(ctx, tx, names) <==> dues.burn == 0 || Get(dues.payments, NULL_ADDRESS) == 0
  {
    hide Steps, Covers, Available, Prices, PlainValue, NonNegative, SameAmounts, AllPlain, ProcessTransaction, Sum;
    var dues := Steps(ctx, tx, |tx.outputs|, names).value.dues;
    DuesArePrices(ctx, tx, |tx.outputs|, names);
    if dues.burn == 0 || Get(dues.payments, NULL_ADDRESS) == 0 {
      forall plain: seq<Output> | AllPlain(plain) && ProcessTransaction(ctx, Paying(tx, plain), names).Ok?
        ensures Prices(ctx, tx, |tx.outputs|, names) <= PlainValue(plain)
      {
        PayingAccepted(ctx, tx, plain, names);
        CoveredInFull(plain, dues);
      }
    } else {
      PositiveDues(dues);
      var available := DoubleUseOtherwise(dues);
      Amounts(available);
      var plain := CanPay(available);
      CoversSame(Available(plain), available, dues);
      PayingAccepted(ctx, tx, plain, names);
    }
  }

  lemma {:induction false} PositiveDues(dues: Dues)
    requires NonNegative(dues) && dues.burn != 0 && Get(dues.payments, NULL_ADDRESS) != 0
    ensures 0 < dues.burn && 0 < Get(dues.payments, NULL_ADDRESS)
  {
  }

  lemma {:induction false} Amounts(available: Payments)
    requires NonNegative(Dues(0, available))
    ensures forall a :: a in available ==> 0 <= available[a]
  {
  }

  // ---- The condition on context and names ----

  /** Output `i` registers a name, and part of its price is burned. */
  ghost predicate Burns(ctx: Context, tx: Transaction, i: nat, names: Names)
    requires i < |tx.outputs|
  {
    var c := tx.outputs[i].covenant;
    && c.kind == Register && NameHashOf(c).Some?
    && Prepare(ctx, c, NameHashOf(c).value, names).Ok?
    && BurnShare(ctx, RegistrationPrice(ctx, Prepare(ctx, c, NameHashOf(c).value, names).value)) > 0
  }

  /** Some of the first `n` outputs burns, at the state its name is in when it is processed. */
  ghost predicate SomeBurns(ctx: Context, tx: Transaction, n: nat, names: Names)
    requires n <= |tx.outputs|
  {
    exists i: nat :: i < n && Steps(ctx, tx, i, names).Ok? && Burns(ctx, tx, i, Steps(ctx, tx, i, names).value.names)
  }

  lemma {:induction false} BurnOrNot(ctx: Context, tx: Transaction, i: nat, s: Progress)
    requires i < |tx.outputs| && Step(ctx, tx, i, s).Ok?
    ensures var t := Step(ctx, tx, i, s).value;
      t.dues.burn >= s.dues.burn && (t.dues.burn > s.dues.burn <==> Burns(ctx, tx, i, s.names))
  {
    hide ProcessKind, SplitFee, RegistrationPrice, RenewalFee, Prepare, NameHashOf;
  }

  lemma {:induction false} BurnIff(ctx: Context, tx: Transaction, n: nat, names: Names)
    requires n <= |tx.outputs| && Steps(ctx, tx, n, names).Ok?
    ensures Steps(ctx, tx, n, names).value.dues.burn >= 0
    ensures Steps(ctx, tx, n, names).value.dues.burn > 0 <==> SomeBurns(ctx, tx, n, names)
  {
    hide Step, Burns;
    if n > 0 {
      BurnIff(ctx, tx, n - 1, names);
      BurnOrNot(ctx, tx, n - 1, Steps(ctx, tx, n - 1, names).value);
    }
  }

  /** What burns also pays the dev fund, unless everything is burned. */
  lemma {:induction false} FundPaidToo(ctx: Context, tx: Transaction, i: nat, s: Progress)
    requires i < |tx.outputs| && Step(ctx, tx, i, s).Ok? && ctx.rules.params.registrationBurnPercent < 100
    ensures var t := Step(ctx, tx, i, s).value;
      && Get(s.dues.payments, ctx.devFund) <= Get(t.dues.payments, ctx.devFund)
      && (Burns(ctx, tx, i, s.names) ==> Get(s.dues.payments, ctx.devFund) < Get(t.dues.payments, ctx.devFund))
  {
    hide ProcessKind, Charge, RegistrationPrice, Prepare, NameHashOf, BurnShare;
    var c := tx.outputs[i].covenant;
    if c.kind.IsName() {
      ChargePaysFund(ctx, s.names, c.kind, Prepare(ctx, c, NameHashOf(c).value, s.names).value, s.dues);
    }
  }

  lemma {:induction false} ChargePaysFund(ctx: Context, db: Names, kind: CovenantType, ns: NameState, dues: Dues)
    requires ctx.rules.params.registrationBurnPercent < 100
    ensures var before, after := Get(dues.payments, ctx.devFund), Get(Charge(ctx, db, kind, ns, dues).payments, ctx.devFund);
      before <= after && (kind == Register && BurnShare(ctx, RegistrationPrice(ctx, ns)) > 0 ==> before < after)
  {
    hide SplitFee, RegistrationPrice, RenewalFee, BurnShare, Get;
    var price := Price(ctx, kind, ns);
    SplitFeeShare(ctx, db, ns, price - BurnShare(ctx, price), dues.payments, ctx.devFund);
    SplitFeeShare(ctx, db, ns, price, dues.payments, ctx.devFund);
    NotAllBurned(ctx, price);
  }

  lemma {:induction false} NotAllBurned(ctx: Context, price: nat)
    requires ctx.rules.params.registrationBurnPercent < 100
    ensures BurnShare(ctx, price) > 0 ==> BurnShare(ctx, price) < price
  {
    var percent: nat := ctx.rules.params.registrationBurnPercent;
    if price > 0 {
      assert price * percent <= price * 99;
    }
  }

  lemma {:induction false} FundPaid(ctx: Context, tx: Transaction, n: nat, names: Names)
    requires n <= |tx.outputs| && Steps(ctx, tx, n, names).Ok? && ctx.rules.params.registrationBurnPercent < 100
    ensures 0 <= Get(Steps(ctx, tx, n, names).value.dues.payments, ctx.devFund)
    ensures SomeBurns(ctx, tx, n, names) ==> 0 < Get(Steps(ctx, tx, n, names).value.dues.payments, ctx.devFund)
  {
    hide Step, Burns;
    if n > 0 {
      FundPaid(ctx, tx, n - 1, names);
      FundPaidToo(ctx, tx, n - 1, Steps(ctx, tx, n - 1, names).value);
    }
  }

  /** With the dev fund at the null address fees are always paid in full if and only if nothing is burned. */
  lemma {:induction false} NullFundExact(ctx: Context, tx: Transaction, names: Names)
    requires Steps(ctx, tx, |tx.outputs|, names).Ok?
    requires ctx.devFund == NULL_ADDRESS && ctx.rules.params.registrationBurnPercent < 100
    ensures PaysInFull(ctx, tx, names) <==> !SomeBurns(ctx, tx, |tx.outputs|, names)
  {
    hide Steps, PaysInFull, SomeBurns;
    ExactlyApart(ctx, tx, names);
    BurnIff(ctx, tx, |tx.outputs|, names);
    FundPaid(ctx, tx, |tx.outputs|, names);
  }

  /** In particular never if the first name output burns, which the names before the transaction tell. */
  lemma {:induction false} FirstBurnShort(ctx: Context, tx: Transaction, i: nat, names: Names)
    requires Steps(ctx, tx, |tx.outputs|, names).Ok? && i < |tx.outputs|
    requires ctx.devFund == NULL_ADDRESS && ctx.rules.params.registrationBurnPercent < 100
    requires (forall k :: 0 <= k < i ==> tx.outputs[k].covenant.kind == Nothing) && Burns(ctx, tx, i, names)
    ensures !PaysInFull(ctx, tx, names)
  {
    hide PaysInFull, Burns, Step;
    NullFundExact(ctx, tx, names);
    PlainKeeps(ctx, tx, i, names);
    assert Steps(ctx, tx, i, names).Ok?;
  }
}
