/**
 * What a name covenant costs and who is paid, in numbers: prices from the schedule, the burned part,
 * and the share of each owner of an enclosing name (Sources/Chain/CovenantProcessor.swift, lines 278
 * to 321 and 445 to 481; Sources/Covenants/NameParams.swift, lines 108 to 121).
 */
module FeeShares {
  import opened Arith
  import opened Base
  import opened BlockReward
  import opened Sums
  import opened Covenants
  import opened NameState
  import opened NameDB
  import opened CovenantContext
  import opened CovenantFees

  // ---- Prices ----

  /** `q` is n / d rounded down; 0 when d is. */
  predicate IsShare(q: nat, n: nat, d: nat) {
    if d == 0 then q == 0 else q * d <= n < q * d + d
  }

  /** The minimum bid is a fraction of the block reward, by the length of the name and its dots. */
  lemma {:induction false} MinimumBidLaw(p: NameParams, h: nat, name: Bytes)
    ensures var bid, reward := MinimumBid(p, h, name), GetReward(h, HALVING_INTERVAL);
      && (DOT in name ==> IsShare(bid, reward * p.subNumerator, p.subDenominator))
      && (DOT !in name && 1 <= |name| <= 6 ==> IsShare(bid, reward * p.premiumNumerator, p.premiumDenominator))
      && (DOT !in name && !(1 <= |name| <= 6) ==> IsShare(bid, reward * p.tldNumerator, p.tldDenominator))
  {
    hide GetReward;
    var tier := PriceTier(p, name);
    if tier.den != 0 {
      DivBounds(GetReward(h, HALVING_INTERVAL) * tier.num, tier.den);
    }
  }

  /** The larger of two amounts. */
  predicate IsLarger(x: nat, a: nat, b: nat) {
    a <= x && b <= x && (x == a || x == b)
  }

  /** A REGISTER costs the recorded price, a RENEW its percentage, both at least the minimum bid; nothing else costs. */
  lemma {:induction false} PriceLaw(ctx: Context, kind: CovenantType, ns: NameState)
    ensures var price, floor := Price(ctx, kind, ns), MinimumBid(ctx.rules.params, ctx.height, ns.name);
      && (kind == Register ==> IsLarger(price, ns.value, floor))
      && (kind == Renew ==> exists share: nat ::
            IsShare(share, ns.value * ctx.rules.params.renewalFeePercent, 100) && IsLarger(price, share, floor))
      && (kind !in {Register, Renew} ==> price == 0)
  {
    hide MinimumBid;
    var share := ns.value * ctx.rules.params.renewalFeePercent / 100;
    DivBounds(ns.value * ctx.rules.params.renewalFeePercent, 100);
    assert IsShare(share, ns.value * ctx.rules.params.renewalFeePercent, 100);
  }

  // ---- Shares ----

  /** The name is stored, not expired, and its owner's coin pays `to`; the view hides the stored coin. */
  predicate OwnedAt(ctx: Context, db: Names, key: Hash, to: Address) {
    db.Get(key).Some? && db.Get(key).value.owner.Some? && !db.Get(key).value.IsExpired(ctx.height, ctx.rules.params) &&
    var coin := db.Get(key).value.owner.value;
    if coin in ctx.view then ctx.view[coin].address == to else coin in ctx.utxo && ctx.utxo[coin].address == to
  }

  /** How many enclosing names, one behind each dot, are owned at `to`. */
  function OwnedAbove(ctx: Context, db: Names, name: Bytes, to: Address): nat {
    if name == [] then 0
    else
      OwnedAbove(ctx, db, name[1..], to)
      + if name[0] == DOT && OwnedAt(ctx, db, ctx.rules.hashName(name[1..]), to) then 1 else 0
  }

  /** How many of them are owned at any address. */
  ghost function PayableAbove(ctx: Context, db: Names, name: Bytes): nat {
    if name == [] then 0
    else
      PayableAbove(ctx, db, name[1..])
      + if name[0] == DOT && exists to :: OwnedAt(ctx, db, ctx.rules.hashName(name[1..]), to) then 1 else 0
  }

  function Dots(name: Bytes): nat {
    if name == [] then 0 else Dots(name[1..]) + if name[0] == DOT then 1 else 0
  }

  lemma {:induction false} PayeeOwns(ctx: Context, db: Names, key: Hash, to: Address)
    ensures AncestorPayee(ctx, db, key) == Some(to) <==> OwnedAt(ctx, db, key, to)
  {
    hide NameState.IsExpired;
  }

  lemma {:induction false} AncestorsNext(rules: Rules, name: Bytes)
    requires name != []
    ensures AncestorHashes(rules, name)
      == (if name[0] == DOT then [rules.hashName(name[1..])] else []) + AncestorHashes(rules, name[1..])
  {
    assert [] + AncestorHashes(rules, name[1..]) == AncestorHashes(rules, name[1..]);
  }

  /** One ancestor more in front. */
  lemma {:induction false} PayeesFront(ctx: Context, db: Names, first: Hash, rest: seq<Hash>)
    ensures Payees(ctx, db, [first] + rest)
      == (match AncestorPayee(ctx, db, first) case None => [] case Some(a) => [a]) + Payees(ctx, db, rest)
  {
    hide AncestorPayee;
    var all := [first] + rest;
    if rest == [] {
      assert all == [first] && all[..0] == [];
      assert Payees(ctx, db, all[..0]) == [];
    } else {
      PayeesFront(ctx, db, first, rest[..|rest| - 1]);
      assert all[..|all| - 1] == [first] + rest[..|rest| - 1];
      assert all[|all| - 1] == rest[|rest| - 1];
    }
  }

  lemma {:induction false} TimesJoin(a: seq<Address>, b: seq<Address>, to: Address)
    ensures Times(a + b, to) == Times(a, to) + Times(b, to)
  {
    if b == [] {
      assert a + b == a;
    } else {
      TimesJoin(a, b[..|b| - 1], to);
      assert (a + b)[..|a + b| - 1] == a + b[..|b| - 1];
    }
  }

  lemma {:induction false} TimesOne(a: Address, to: Address)
    ensures Times([a], to) == if a == to then 1 else 0
  {
    assert [a][..0] == [];
  }

  /** The payees are the owners of the enclosing names, each as often as it owns one. */
  lemma {:induction false} PayeesAreOwners(ctx: Context, db: Names, name: Bytes, to: Address)
    ensures var payees := Payees(ctx, db, AncestorHashes(ctx.rules, name));
      Times(payees, to) == OwnedAbove(ctx, db, name, to) && |payees| == PayableAbove(ctx, db, name)
    ensures |AncestorHashes(ctx.rules, name)| == Dots(name)
  {
    hide AncestorPayee, OwnedAt, Payees, Times, AncestorHashes;
    if name == [] {
      NoAncestors(ctx, db, to);
    } else {
      PayeesAreOwners(ctx, db, name[1..], to);
      AncestorsNext(ctx.rules, name);
      if name[0] == DOT {
        var key := ctx.rules.hashName(name[1..]);
        var rest := AncestorHashes(ctx.rules, name[1..]);
        PayeesFront(ctx, db, key, rest);
        PayeeOwns(ctx, db, key, to);
        forall a
          ensures AncestorPayee(ctx, db, key) == Some(a) <==> OwnedAt(ctx, db, key, a)
        {
          PayeeOwns(ctx, db, key, a);
        }
        var payee := AncestorPayee(ctx, db, key);
        var front := match payee case None => [] case Some(a) => [a];
        TimesJoin(front, Payees(ctx, db, rest), to);
        if payee.Some? {
          TimesOne(payee.value, to);
        } else {
          TimesNone(to);
        }
      } else {
        assert [] + AncestorHashes(ctx.rules, name[1..]) == AncestorHashes(ctx.rules, name[1..]);
      }
    }
  }

  lemma {:induction false} TimesNone(to: Address)
    ensures Times([], to) == 0
  {
  }

  lemma {:induction false} NoAncestors(ctx: Context, db: Names, to: Address)
    ensures AncestorHashes(ctx.rules, []) == [] && Payees(ctx, db, []) == [] && Times([], to) == 0
  {
  }

  /** `gain` is what `to` gets of a fee on a name with this parent. */
  ghost predicate IsGain(ctx: Context, db: Names, ns: NameState, fee: nat, to: Address, gain: int) {
    if ns.parentHash == ZERO_HASH || Dots(ns.name) == 0 || fee < 2 then gain == if to == ctx.devFund then fee else 0
    else exists each: nat {:trigger IsShare(each, fee / 2, Dots(ns.name))} ::
      && IsShare(each, fee / 2, Dots(ns.name))
      && gain == each * OwnedAbove(ctx, db, ns.name, to)
                 + if to == ctx.devFund then fee - each * PayableAbove(ctx, db, ns.name) else 0
  }

  lemma {:induction false} Shared(before: Payments, payees: seq<Address>, each: nat, devFund: Address, rest: int, to: Address)
    ensures Get(Pay(PayEach(before, payees, each), devFund, rest), to)
      == Get(before, to) + each * Times(payees, to) + if to == devFund then rest else 0
  {
    hide PayEach, Times;
    PayEachShare(before, payees, each, to);
  }

  /**
   * A fee on a top-level name goes to the dev fund. On a subdomain half of it is divided equally among
   * the enclosing names, each part going to the address its owner's coin is at; the other half and the
   * parts of names nobody holds go to the dev fund.
   */
  lemma {:induction false} SplitLaw(ctx: Context, db: Names, ns: NameState, fee: nat, before: Payments, to: Address)
    ensures IsGain(ctx, db, ns, fee, to, Get(SplitFee(ctx, db, ns, fee, before), to) - Get(before, to))
  {
    hide OwnedAt, Payees, Times, AncestorHashes, OwnedAbove, PayableAbove, Dots, PayEach;
    PayeesAreOwners(ctx, db, ns.name, to);
    var share, ancestors := fee / 2, AncestorHashes(ctx.rules, ns.name);
    if !(ns.parentHash == ZERO_HASH || ancestors == [] || share == 0) {
      var each := share / |ancestors|;
      DivBounds(share, |ancestors|);
      assert IsShare(each, share, |ancestors|);
      var payees := if each == 0 then [] else Payees(ctx, db, ancestors);
      Shared(before, payees, each, ctx.devFund, fee - each * |payees|, to);
      if each == 0 {
        TimesNone(to);
      }
    }
  }

  /** A REGISTER burns its percentage, rounded down, and shares out the rest; a RENEW burns nothing. */
  lemma {:induction false} ChargeLaw(ctx: Context, db: Names, kind: CovenantType, ns: NameState, dues: Dues, to: Address)
    ensures var after, price := Charge(ctx, db, kind, ns, dues), Price(ctx, kind, ns);
      var burned := after.burn - dues.burn;
      && 0 <= burned <= price
      && (kind == Register ==> IsShare(burned, price * ctx.rules.params.registrationBurnPercent, 100))
      && (kind != Register ==> burned == 0)
      && IsGain(ctx, db, ns, price - burned, to, Get(after.payments, to) - Get(dues.payments, to))
  {
    hide SplitFee, IsGain, RegistrationPrice, RenewalFee;
    var price := Price(ctx, kind, ns);
    var burn := if kind == Register then BurnShare(ctx, price) else 0;
    DivBounds(price * ctx.rules.params.registrationBurnPercent, 100);
    if price == 0 {
      NoGain(ctx, db, ns, to);
    } else {
      SplitLaw(ctx, db, ns, price - burn, dues.payments, to);
    }
  }

  lemma {:induction false} NoGain(ctx: Context, db: Names, ns: NameState, to: Address)
    ensures IsGain(ctx, db, ns, 0, to, 0)
  {
  }
}
