/**
 * Registration and renewal fees: how each is split between burn, dev fund and ancestors, and the
 * check that a transaction's outputs pay for all of them together
 * (Sources/Chain/CovenantProcessor.swift, lines 275 to 321, 444 to 483 and 621 to 648).
 */
module CovenantFees {
  import opened Base
  import opened Arith
  import opened Sums
  import opened Covenants
  import opened NameState
  import opened NameDB
  import opened CovenantContext

  type Payments = map<Address, int>

  /** What a transaction owes so far. */
  datatype Dues = Dues(burn: int, payments: Payments) {
    ghost function Total(): int {
      burn + Sum(payments)
    }
  }

  const NO_DUES := Dues(0, map[])

  function Pay(payments: Payments, to: Address, amount: int): Payments {
    payments[to := Get(payments, to) + amount]
  }

  lemma {:induction false} PayTotal(payments: Payments, to: Address, amount: int)
    ensures Sum(Pay(payments, to, amount)) == Sum(payments) + amount
  {
    hide Sum;
    SumUpdate(payments, to, Get(payments, to) + amount);
  }

  function ParentName(rawName: Bytes): (parent: Option<Bytes>)
    ensures parent.Some? ==> |parent.value| < |rawName|
  {
    if rawName == [] then None
    else if rawName[0] == DOT then Some(rawName[1..])
    else ParentName(rawName[1..])
  }

  /** The hashes of all enclosing names, nearest first. */
  function AncestorHashes(rules: Rules, rawName: Bytes): seq<Hash>
    decreases |rawName|
  {
    match ParentName(rawName)
    case None => []
    case Some(parent) => [rules.hashName(parent)] + AncestorHashes(rules, parent)
  }

  /** Where an ancestor's share goes: to its owner's coin, unless it has expired or has none. */
  function AncestorPayee(ctx: Context, db: Names, ancestor: Hash): Option<Address> {
    match db.Get(ancestor)
    case None => None
    case Some(ns) =>
      if ns.owner == None || ns.IsExpired(ctx.height, ctx.rules.params) then None
      else if ns.owner.value in ctx.view then Some(ctx.view[ns.owner.value].address)
      else if ns.owner.value in ctx.utxo then Some(ctx.utxo[ns.owner.value].address)
      else None
  }

  /** The addresses of the payable ancestors, in order. */
  function Payees(ctx: Context, db: Names, ancestors: seq<Hash>): (payees: seq<Address>)
    ensures |payees| <= |ancestors|
  {
    if ancestors == [] then []
    else
      var last := |ancestors| - 1;
      var payee := AncestorPayee(ctx, db, ancestors[last]);
      Payees(ctx, db, ancestors[..last]) + if payee.Some? then [payee.value] else []
  }

  /** The same amount to each payee. */
  function PayEach(payments: Payments, payees: seq<Address>, amount: int): Payments {
    if payees == [] then payments
    else Pay(PayEach(payments, payees[..|payees| - 1], amount), payees[|payees| - 1], amount)
  }

  lemma {:induction false} PayEachTotal(payments: Payments, payees: seq<Address>, amount: int)
    ensures Sum(PayEach(payments, payees, amount)) == Sum(payments) + amount * |payees|
  {
    hide Sum;
    if payees != [] {
      var before := payees[..|payees| - 1];
      PayEachTotal(payments, before, amount);
      PayTotal(PayEach(payments, before, amount), payees[|payees| - 1], amount);
      assert amount * |payees| == amount * |before| + amount;
    }
  }

  /** How often an address is among the payees. */
  function Times(payees: seq<Address>, to: Address): nat {
    if payees == [] then 0
    else Times(payees[..|payees| - 1], to) + if payees[|payees| - 1] == to then 1 else 0
  }

  /** Every address receives the amount once for each time it is a payee, and no other changes. */
  lemma {:induction false} PayEachShare(payments: Payments, payees: seq<Address>, amount: int, to: Address)
    ensures Get(PayEach(payments, payees, amount), to) == Get(payments, to) + amount * Times(payees, to)
  {
    if payees != [] {
      var before, last := payees[..|payees| - 1], payees[|payees| - 1];
      PayEachShare(payments, before, amount, to);
      assert amount * (Times(before, to) + 1) == amount * Times(before, to) + amount;
    }
  }

  /**
   * Split a fee: all to the dev fund for a top-level name; for a subdomain half to the ancestors
   * in equal parts, and the other half with whatever no ancestor can claim to the dev fund.
   */
  function SplitFee(ctx: Context, db: Names, ns: NameState, fee: nat, before: Payments): Payments {
    var share := fee / 2;
    var ancestors := AncestorHashes(ctx.rules, ns.name);
    if ns.parentHash == ZERO_HASH || ancestors == [] || share == 0 then Pay(before, ctx.devFund, fee)
    else
      var each := share / |ancestors|;
      var payees := if each == 0 then [] else Payees(ctx, db, ancestors);
      Pay(PayEach(before, payees, each), ctx.devFund, fee - each * |payees|)
  }

  /** Nothing is lost or invented by the split. */
  lemma {:induction false} SplitFeeConserves(ctx: Context, db: Names, ns: NameState, fee: nat, before: Payments)
    ensures Sum(SplitFee(ctx, db, ns, fee, before)) == Sum(before) + fee
  {
    hide Sum, Payees, AncestorHashes, Pay, PayEach;
    var share := fee / 2;
    var ancestors := AncestorHashes(ctx.rules, ns.name);
    if ns.parentHash == ZERO_HASH || ancestors == [] || share == 0 {
      PayTotal(before, ctx.devFund, fee);
    } else {
      var each := share / |ancestors|;
      var payees := if each == 0 then [] else Payees(ctx, db, ancestors);
      PayEachTotal(before, payees, each);
      PayTotal(PayEach(before, payees, each), ctx.devFund, fee - each * |payees|);
    }
  }

  /** What is left for the dev fund is at least its own half. */
  lemma {:induction false} SharesFit(share: nat, ancestors: nat, payees: nat)
    requires 0 < ancestors && payees <= ancestors
    ensures share / ancestors * payees <= share
  {
    DivBounds(share, ancestors);
    MulMonotone(payees, ancestors, share / ancestors);
    assert share / ancestors * payees == payees * (share / ancestors);
  }

  /** Each address gains what its ancestors earn, the dev fund at least half the fee besides. */
  lemma {:induction false} SplitFeeShare(ctx: Context, db: Names, ns: NameState, fee: nat, before: Payments, to: Address)
    ensures Get(before, to) + (if to == ctx.devFund then fee - fee / 2 else 0)
         <= Get(SplitFee(ctx, db, ns, fee, before), to)
  {
    hide Payees, AncestorHashes, PayEach, Times;
    var share := fee / 2;
    var ancestors := AncestorHashes(ctx.rules, ns.name);
    if !(ns.parentHash == ZERO_HASH || ancestors == [] || share == 0) {
      var each := share / |ancestors|;
      var payees := if each == 0 then [] else Payees(ctx, db, ancestors);
      SharesFit(share, |ancestors|, |payees|);
      PayEachShare(before, payees, each, to);
      MulMonotone(0, each, Times(payees, to));
      var shared := PayEach(before, payees, each);
      assert Get(before, to) <= Get(shared, to);
      assert fee - fee / 2 <= fee - each * |payees|;
    }
  }

  lemma {:induction false} PayeesStep(ctx: Context, db: Names, ancestors: seq<Hash>, i: nat)
    requires i < |ancestors|
    ensures Payees(ctx, db, ancestors[..i + 1])
         == Payees(ctx, db, ancestors[..i])
            + match AncestorPayee(ctx, db, ancestors[i]) case None => [] case Some(payee) => [payee]
  {
    hide AncestorPayee;
    assert ancestors[..i + 1][..i] == ancestors[..i];
  }

  lemma {:induction false} PayEachStep(payments: Payments, payees: seq<Address>, payee: Address, amount: int)
    ensures PayEach(payments, payees + [payee], amount) == Pay(PayEach(payments, payees, amount), payee, amount)
    ensures amount * |payees + [payee]| == amount * |payees| + amount
  {
    assert (payees + [payee])[..|payees|] == payees;
  }

  /** Equal shares to the payable ancestors; what nobody can claim is left over. */
  method PayAncestors(ctx: Context, db: NameDB, each: nat, ancestors: seq<Hash>, before: Payments)
    returns (payments: Payments, claimed: nat)
    ensures var payees := if each == 0 then [] else Payees(ctx, db.View(), ancestors);
      payments == PayEach(before, payees, each) && claimed == each * |payees|
  {
    hide AncestorPayee, Pay;
    payments, claimed := before, 0;
    ghost var payees := [];
    var i := 0;
    while i < |ancestors|
      invariant 0 <= i <= |ancestors|
      invariant payees == if each == 0 then [] else Payees(ctx, db.View(), ancestors[..i])
      invariant payments == PayEach(before, payees, each) && claimed == each * |payees|
    {
      PayeesStep(ctx, db.View(), ancestors, i);
      var payee := AncestorPayee(ctx, db.View(), ancestors[i]);
      if each > 0 && payee.Some? {
        PayEachStep(before, payees, payee.value, each);
        payments := Pay(payments, payee.value, each);
        claimed := claimed + each;
        payees := payees + [payee.value];
      }
      i := i + 1;
    }
    assert ancestors[..i] == ancestors;
  }

  method AddFee(ctx: Context, db: NameDB, ns: NameState, fee: nat, before: Payments) returns (payments: Payments)
    ensures payments == SplitFee(ctx, db.View(), ns, fee, before)
  {
    hide AncestorHashes, Payees, PayEach, Pay;
    var share := fee / 2;
    var ancestors := AncestorHashes(ctx.rules, ns.name);
    if ns.parentHash != ZERO_HASH && ancestors != [] && share > 0 {
      var claimed;
      payments, claimed := PayAncestors(ctx, db, share / |ancestors|, ancestors, before);
      payments := Pay(payments, ctx.devFund, fee - claimed);
    } else {
      payments := Pay(before, ctx.devFund, fee);
    }
  }

  /** What a REGISTER costs: the second price, or the minimum bid if that is higher. */
  function RegistrationPrice(ctx: Context, ns: NameState): nat {
    Max(ns.value, MinimumBid(ctx.rules.params, ctx.height, ns.name))
  }

  /** What a RENEW costs: a percentage of the registration value, at least the minimum bid. */
  function RenewalFee(ctx: Context, ns: NameState): nat {
    Max(ns.value * ctx.rules.params.renewalFeePercent / 100,
        MinimumBid(ctx.rules.params, ctx.height, ns.name))
  }

  /** The price of an operation on a name in state `ns`. */
  function Price(ctx: Context, kind: CovenantType, ns: NameState): nat {
    match kind
    case Register => RegistrationPrice(ctx, ns)
    case Renew => RenewalFee(ctx, ns)
    case _ => 0
  }

  function BurnShare(ctx: Context, price: nat): (share: nat)
    ensures share <= price
  {
    assert price * ctx.rules.params.registrationBurnPercent <= price * 100;
    price * ctx.rules.params.registrationBurnPercent / 100
  }

  /** Add the price of one operation to what the transaction owes. */
  function Charge(ctx: Context, db: Names, kind: CovenantType, ns: NameState, dues: Dues): Dues {
    var price := Price(ctx, kind, ns);
    if price == 0 then dues
    else if kind == Register then
      var burn := BurnShare(ctx, price);
      Dues(dues.burn + burn, SplitFee(ctx, db, ns, price - burn, dues.payments))
    else dues.(payments := SplitFee(ctx, db, ns, price, dues.payments))
  }

  /** Burn and payments together grow by exactly the price. */
  lemma {:induction false} ChargeConserves(ctx: Context, db: Names, kind: CovenantType, ns: NameState, dues: Dues)
    ensures Charge(ctx, db, kind, ns, dues).Total() == dues.Total() + Price(ctx, kind, ns)
  {
    hide SplitFee, Sum, RegistrationPrice, RenewalFee;
    var price := Price(ctx, kind, ns);
    SplitFeeConserves(ctx, db, ns, price - BurnShare(ctx, price), dues.payments);
    SplitFeeConserves(ctx, db, ns, price, dues.payments);
  }

  predicate NonNegative(dues: Dues) {
    0 <= dues.burn && forall a :: a in dues.payments ==> 0 <= dues.payments[a]
  }

  lemma {:induction false} ChargeNonNegative(ctx: Context, db: Names, kind: CovenantType, ns: NameState, dues: Dues)
    requires NonNegative(dues)
    ensures NonNegative(Charge(ctx, db, kind, ns, dues))
  {
    hide SplitFee, RegistrationPrice, RenewalFee;
    var price, after := Price(ctx, kind, ns), Charge(ctx, db, kind, ns, dues);
    forall a | a in after.payments
      ensures 0 <= after.payments[a]
    {
      SplitFeeShare(ctx, db, ns, price - BurnShare(ctx, price), dues.payments, a);
      SplitFeeShare(ctx, db, ns, price, dues.payments, a);
    }
  }

  // ---- Paying ----

  /** The value of the outputs without a covenant. */
  function PlainValue(outputs: seq<Output>): nat {
    if outputs == [] then 0
    else
      var last := outputs[|outputs| - 1];
      PlainValue(outputs[..|outputs| - 1]) + if last.covenant.kind == Nothing then last.value else 0
  }

  /** ... per address. */
  function Available(outputs: seq<Output>): Payments {
    if outputs == [] then map[]
    else
      var before, last := Available(outputs[..|outputs| - 1]), outputs[|outputs| - 1];
      if last.covenant.kind == Nothing then Pay(before, last.address, last.value) else before
  }

  lemma {:induction false} AvailableTotal(outputs: seq<Output>)
    ensures Sum(Available(outputs)) == PlainValue(outputs)
    ensures forall a :: a in Available(outputs) ==> 0 <= Available(outputs)[a]
  {
    if outputs != [] {
      var before, last := outputs[..|outputs| - 1], outputs[|outputs| - 1];
      AvailableTotal(before);
      PayTotal(Available(before), last.address, last.value);
    }
  }

  method SumAvailable(outputs: seq<Output>) returns (available: Payments)
    ensures available == Available(outputs)
  {
    available := map[];
    for i := 0 to |outputs|
      invariant available == Available(outputs[..i])
    {
      assert outputs[..i + 1][..i] == outputs[..i];
      if outputs[i].covenant.kind == Nothing {
        available := Pay(available, outputs[i].address, outputs[i].value);
      }
    }
    assert outputs[..|outputs|] == outputs;
  }

  /** The burn is covered by the null address and every payment by its own address. */
  predicate Covers(available: Payments, dues: Dues) {
    && (dues.burn > 0 ==> dues.burn <= Get(available, NULL_ADDRESS))
    && forall a :: a in dues.payments && dues.payments[a] > 0 ==> dues.payments[a] <= Get(available, a)
  }

  method CheckPayments(outputs: seq<Output>, dues: Dues) returns (r: Outcome<Error>)
    ensures r.Pass? <==> Covers(Available(outputs), dues)
  {
    if dues.payments == map[] && dues.burn <= 0 {
      return Pass;
    }
    var available := SumAvailable(outputs);
    if dues.burn > 0 && Get(available, NULL_ADDRESS) < dues.burn {
      return Throw(BurnPaymentInsufficient);
    }
    var addresses := dues.payments.Keys;
    while addresses != {}
      invariant addresses <= dues.payments.Keys
      invariant forall a :: a in dues.payments.Keys - addresses ==>
                  dues.payments[a] <= 0 || dues.payments[a] <= Get(available, a)
      decreases addresses
    {
      var a :| a in addresses;
      if dues.payments[a] > 0 && Get(available, a) < dues.payments[a] {
        return Throw(DevFundPaymentInsufficient);
      }
      addresses := addresses - {a};
    }
    return Pass;
  }

  /** With nobody paid at the null address, accepted outputs cover burn and payments together. */
  lemma {:induction false} CoveredInFull(outputs: seq<Output>, dues: Dues)
    requires NonNegative(dues)
    requires dues.burn == 0 || Get(dues.payments, NULL_ADDRESS) == 0
    requires Covers(Available(outputs), dues)
    ensures dues.Total() <= PlainValue(outputs)
  {
    hide Sum, Available;
    AvailableTotal(outputs);
    var sink := NULL_ADDRESS;
    var owed := dues.payments[sink := Get(dues.payments, sink) + dues.burn];
    SumUpdate(dues.payments, sink, Get(dues.payments, sink) + dues.burn);
    SumMonotone(owed, Available(outputs));
  }

  /**
   * When the null address is also paid, one output can serve as burn and payment at once: some
   * accepted balance falls short of the total. So the condition above is exact.
   */
  lemma {:induction false} DoubleUseOtherwise(dues: Dues) returns (available: Payments)
    requires NonNegative(dues) && 0 < dues.burn && 0 < Get(dues.payments, NULL_ADDRESS)
    ensures NonNegative(Dues(0, available)) && Covers(available, dues) && Sum(available) < dues.Total()
  {
    hide Sum;
    var enough := Max(dues.burn, dues.payments[NULL_ADDRESS]);
    available := dues.payments[NULL_ADDRESS := enough];
    SumUpdate(dues.payments, NULL_ADDRESS, enough);
  }
}
