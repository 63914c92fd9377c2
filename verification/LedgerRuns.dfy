/** The share price over whole runs. */
module LedgerRuns {
  import opened FixedPoint
  import opened Ledger
  import opened LedgerPrice
  import opened LedgerDilution
  import opened LedgerShares

  function LongAmount(c: Call): nat {
    if c.SettleMintCall? || c.SettleBurnCall? then c.long else 0
  }

  /** A settlement of a long amount that burns no commission: nothing makes up for the rounding of the credit. */
  predicate MayDilute(c: Call) {
    LongAmount(c) > 0
    && (c.SettleMintCall? ==> c.risk.feeRecipient != 0 || c.risk.notionalFee == 0)
    && (c.SettleBurnCall? ==>
          var x := Settlement(c.owner, false, c.long, c.short, c.ammDelta, c.premium);
          c.premium == 0 || !CommissionBurned(ClosingFee(x, c.risk), c.risk))
  }

  /** A liquidation whose shares cover everything taken from the liquidatee. */
  predicate LossFree(s: Vault, c: Call) {
    c.SettleLiquidationCall? ==>
      var l := SettleLiquidation(s, c.liquidator, c.liquidatee, c.bonus);
      l.Ok? ==> l.value.loss == 0
  }

  lemma LossFreeLiquidationKeepsPrice(s: Vault, liquidator: Address, liquidatee: Address, bonus: int)
    requires SettleLiquidation(s, liquidator, liquidatee, bonus).Ok?
    requires SettleLiquidation(s, liquidator, liquidatee, bonus).value.loss == 0
    ensures PriceKept(s, SettleLiquidation(s, liquidator, liquidatee, bonus).value.vault)
  {
    var v := SettleLiquidation(s, liquidator, liquidatee, bonus).value.vault;
    if bonus < 0 {
      var shares := ConvertToShares(s, -bonus).value;
      if TotalSupply(s) == 0 {
        CreditOfNothing(-bonus, TotalAssets(s));
      }
      FairExchange(s, v, -bonus, shares);
    } else {
      SameTotalsKeepPrice(s, v);
    }
  }

  lemma StepKeepsPrice(s: Vault, t: Tick, c: Call)
    requires Step(s, t, c).Ok? && !MayDilute(c) && LossFree(s, c)
    ensures PriceKept(s, Step(s, t, c).value)
  {
    hide Accrue, Deposit, Mint, Withdraw, WithdrawWithPositions, Redeem, Transfer, TransferFrom, SettleMint;
    hide SettleBurn, SettleLiquidation, PriceKept;
    match c
    case AccrueCall(owner) => AccrueKeepsPrice(s, t, owner, false);
    case DepositCall(caller, assets, receiver) => DepositKeepsPrice(s, t, caller, assets, receiver);
    case MintCall(caller, shares, receiver) => MintKeepsPrice(s, t, caller, shares, receiver);
    case WithdrawCall(caller, assets, owner, legs) => WithdrawKeepsPrice(s, t, caller, assets, owner, legs);
    case WithdrawWithPositionsCall(caller, assets, owner, solvent) =>
      WithdrawWithPositionsKeepsPrice(s, t, caller, assets, owner, solvent);
    case RedeemCall(caller, shares, owner, legs) => RedeemKeepsPrice(s, t, caller, shares, owner, legs);
    case TransferCall(caller, to, amount, legs) => TransferKeepsPrice(s, t, caller, to, amount, legs);
    case TransferFromCall(caller, from, to, amount, legs) =>
      TransferFromKeepsPrice(s, t, caller, from, to, amount, legs);
    case SettleMintCall(owner, long, short, ammDelta, r) => SettleMintDilution(s, t, owner, long, short, ammDelta, r);
    case SettleBurnCall(owner, long, short, ammDelta, premium, r) =>
      SettleBurnDilution(s, t, owner, long, short, ammDelta, premium, r);
    case SettleLiquidationCall(liquidator, liquidatee, bonus) =>
      LossFreeLiquidationKeepsPrice(s, liquidator, liquidatee, bonus);
    case _ => SameTotalsKeepPrice(s, Step(s, t, c).value);
  }

  lemma TransferKeepsPrice(s: Vault, t: Tick, caller: Address, to: Address, amount: nat, legs: nat)
    requires Transfer(s, t, caller, to, amount, legs).Ok?
    ensures PriceKept(s, Transfer(s, t, caller, to, amount, legs).value)
  {
    AccrueKeepsPrice(s, t, caller, false);
    SameTotals(s, Accrue(s, t, caller, false).value, Transfer(s, t, caller, to, amount, legs).value);
  }

  lemma TransferFromKeepsPrice(s: Vault, t: Tick, caller: Address, from: Address, to: Address, amount: nat, legs: nat)
    requires TransferFrom(s, t, caller, from, to, amount, legs).Ok?
    ensures PriceKept(s, TransferFrom(s, t, caller, from, to, amount, legs).value)
  {
    AccrueKeepsPrice(s, t, from, false);
    SameTotals(s, Accrue(s, t, from, false).value, TransferFrom(s, t, caller, from, to, amount, legs).value);
  }

  lemma SameTotals(s: Vault, a: Vault, v: Vault)
    requires PriceKept(s, a) && TotalAssets(v) == TotalAssets(a) && TotalSupply(v) == TotalSupply(a)
    ensures PriceKept(s, v)
  {
  }

  /** The share price never falls in a run of any calls by any users, settlements and delegations
      included, as long as every long amount settled burns a commission and no liquidation realizes a loss. */
  lemma {:induction false} PriceNeverFalls(s: Vault, calls: seq<(Tick, Call)>)
    requires Run(s, calls).Ok?
    requires forall i :: 0 <= i < |calls| ==>
      !MayDilute(calls[i].1) && (Run(s, calls[..i]).Ok? ==> LossFree(Run(s, calls[..i]).value, calls[i].1))
    ensures PriceKept(s, Run(s, calls).value)
  {
    if calls == [] {
    } else {
      var n := |calls| - 1;
      var before := calls[..n];
      forall i | 0 <= i < n
        ensures before[..i] == calls[..i]
      {
      }
      PriceNeverFalls(s, before);
      StepKeepsPrice(Run(s, before).value, calls[n].0, calls[n].1);
      PriceKeptTransitive(s, Run(s, before).value, Run(s, calls).value);
    }
  }

  /** Nobody, alone or with others, takes value out: when the supply is back where it started, so are the assets. */
  lemma NoValueExtracted(s: Vault, calls: seq<(Tick, Call)>)
    requires Run(s, calls).Ok?
    requires forall i :: 0 <= i < |calls| ==>
      !MayDilute(calls[i].1) && (Run(s, calls[..i]).Ok? ==> LossFree(Run(s, calls[..i]).value, calls[i].1))
    requires TotalSupply(Run(s, calls).value) == TotalSupply(s) > 0
    ensures TotalAssets(Run(s, calls).value) >= TotalAssets(s)
  {
    PriceNeverFalls(s, calls);
    Cancel(TotalAssets(s), TotalAssets(Run(s, calls).value), TotalSupply(s));
  }

  // ---------- runs with long amounts ----------

  function Dilutions(calls: seq<(Tick, Call)>): nat {
    if calls == [] then 0
    else Dilutions(calls[..|calls| - 1]) + (if MayDilute(calls[|calls| - 1].1) then 1 else 0)
  }

  /** The price falls from `s` to `v` by no more than the factor p / q. */
  ghost predicate FallsAtMost(s: Vault, v: Vault, p: nat, q: nat) {
    && TotalAssets(s) * TotalSupply(v) * p <= TotalAssets(v) * TotalSupply(s) * q
    && (TotalSupply(s) == 0 ==> TotalSupply(v) == 0)
  }

  lemma OneLongSettlement(s: Vault, a: Vault, v: Vault, m: nat)
    requires PriceKept(s, a) && DilutedByLessThanOneShare(a, v)
    requires 1 <= m <= TotalSupply(v) && TotalSupply(a) > 0
    ensures FallsAtMost(s, v, m - 1, m)
  {
    OneShareLess(TotalAssets(a), TotalSupply(a), TotalAssets(v), TotalSupply(v));
    OneShareOff(TotalAssets(s), TotalSupply(s), TotalAssets(a), TotalSupply(a), TotalAssets(v), TotalSupply(v), m);
    hide TotalAssets, TotalSupply;
  }

  lemma OneShareLess(aa: int, sa: int, av: int, sv: int)
    requires aa * (sv - sa) < (av - aa) * sa + aa
    ensures aa * (sv - 1) <= av * sa
  {
    assert aa * (sv - sa) == aa * sv - aa * sa;
    assert (av - aa) * sa == av * sa - aa * sa;
    assert aa * (sv - 1) == aa * sv - aa;
  }

  lemma OneShareOff(a0: nat, s0: nat, aa: nat, sa: nat, av: nat, sv: nat, m: nat)
    requires a0 * sa <= aa * s0 && aa * (sv - 1) <= av * sa && 1 <= m <= sv && sa > 0
    ensures a0 * sv * (m - 1) <= av * s0 * m
  {
    Shave(aa, sv, av * sa, m);
    Swap(av, sa, m);
    ThroughPrice(a0, s0, aa, sa, sv * (m - 1), av * m);
    Regrouped(a0, sv, m - 1);
    Swap(av, m, s0);
  }

  lemma Swap(x: nat, y: nat, z: nat)
    ensures x * y * z == x * z * y
  {
  }

  lemma Regrouped(x: nat, y: nat, z: nat)
    ensures x * (y * z) == x * y * z
  {
  }

  lemma Shave(aa: nat, sv: nat, value: nat, m: nat)
    requires aa * (sv - 1) <= value && 1 <= m <= sv
    ensures aa * (sv * (m - 1)) <= value * m
  {
    assert sv * (m - 1) <= (sv - 1) * m;
    MulLe(sv * (m - 1), (sv - 1) * m, aa);
    MulLe(aa * (sv - 1), value, m);
    assert aa * ((sv - 1) * m) == aa * (sv - 1) * m;
    assert aa * (sv * (m - 1)) == sv * (m - 1) * aa;
    assert aa * ((sv - 1) * m) == (sv - 1) * m * aa;
  }

  /** As composition of prices, for scaled totals of the last state. */
  lemma ThroughPrice(a0: nat, s0: nat, a1: nat, s1: nat, x: nat, y: nat)
    requires a0 * s1 <= a1 * s0 && a1 * x <= y * s1 && s1 > 0
    ensures a0 * x <= y * s0
  {
    MulLe(a0 * s1, a1 * s0, x);
    MulLe(a1 * x, y * s1, s0);
    assert a0 * x * s1 == a0 * s1 * x;
    assert a1 * s0 * x == a1 * x * s0;
    assert y * s1 * s0 == y * s0 * s1;
    Cancel(a0 * x, y * s0, s1);
  }

  lemma ComposeFalls(s: Vault, b: Vault, v: Vault, p0: nat, q0: nat, p1: nat, q1: nat)
    requires FallsAtMost(s, b, p0, q0) && FallsAtMost(b, v, p1, q1)
    ensures FallsAtMost(s, v, p1 * p0, q1 * q0)
  {
    ComposeFactors(TotalAssets(s), TotalSupply(s), TotalAssets(b), TotalSupply(b), TotalAssets(v), TotalSupply(v),
                   p0, q0, p1, q1);
  }

  lemma ComposeFactors(a0: nat, s0: nat, a1: nat, s1: nat, a2: nat, s2: nat, p0: nat, q0: nat, p1: nat, q1: nat)
    requires a0 * s1 * p0 <= a1 * s0 * q0 && a1 * s2 * p1 <= a2 * s1 * q1
    requires s1 == 0 ==> s2 == 0
    ensures a0 * s2 * (p1 * p0) <= a2 * s0 * (q1 * q0)
  {
    if s1 > 0 {
      assert a0 * p0 * s1 == a0 * s1 * p0 && a1 * (s0 * q0) == a1 * s0 * q0;
      assert a1 * (s2 * p1) == a1 * s2 * p1 && a2 * q1 * s1 == a2 * s1 * q1;
      ThroughPrice(a0 * p0, s0 * q0, a1, s1, s2 * p1, a2 * q1);
      Regroup(a0, p0, s2, p1);
      Regroup(a2, q1, s0, q0);
      assert a2 * s0 * (q0 * q1) == a2 * s0 * (q1 * q0);
    }
  }

  lemma Regroup(a: nat, p: nat, b: nat, q: nat)
    ensures a * p * (b * q) == a * b * (q * p)
  {
    assert a * p * (b * q) == a * b * (p * q);
    assert p * q == q * p;
  }

  /** What one call may take off the price: one share in `m` when it may dilute, else nothing. */
  function Least(c: Call, m: nat): nat
    requires m >= 1
  {
    if MayDilute(c) then m - 1 else 1
  }

  function Whole(c: Call, m: nat): nat {
    if MayDilute(c) then m else 1
  }

  /** A call that may dilute leaves at least `m` shares. */
  predicate LeavesSupply(b: Vault, t: Tick, c: Call, m: nat) {
    MayDilute(c) && Step(b, t, c).Ok? ==> TotalSupply(Step(b, t, c).value) >= m
  }

  lemma StepFalls(b: Vault, t: Tick, c: Call, m: nat)
    requires m >= 1 && Step(b, t, c).Ok? && LossFree(b, c) && LeavesSupply(b, t, c, m)
    ensures FallsAtMost(b, Step(b, t, c).value, Least(c, m), Whole(c, m))
  {
    hide Step, LossFree;
    if !MayDilute(c) {
      StepKeepsPrice(b, t, c);
    } else {
      LongStep(b, t, c, m);
    }
  }

  lemma LongStep(b: Vault, t: Tick, c: Call, m: nat)
    requires m >= 1 && Step(b, t, c).Ok? && MayDilute(c) && LeavesSupply(b, t, c, m)
    ensures FallsAtMost(b, Step(b, t, c).value, m - 1, m)
  {
    hide Accrue, SettleMint, SettleBurn, DilutedByLessThanOneShare, FallsAtMost;
    LongAccrues(b, t, c);
    var a := Accrue(b, t, c.owner, false).value;
    var v := Step(b, t, c).value;
    AccrueKeepsPrice(b, t, c.owner, false);
    if c.SettleMintCall? {
      SettleMintDilution(b, t, c.owner, c.long, c.short, c.ammDelta, c.risk);
    } else {
      SettleBurnDilution(b, t, c.owner, c.long, c.short, c.ammDelta, c.premium, c.risk);
    }
    OneLongSettlement(b, a, v, m);
  }

  lemma LongAccrues(b: Vault, t: Tick, c: Call)
    requires Step(b, t, c).Ok? && MayDilute(c)
    ensures Accrue(b, t, c.owner, false).Ok?
  {
    hide Accrue;
  }

  lemma LastFactor(calls: seq<(Tick, Call)>, m: nat)
    requires calls != [] && m >= 1
    ensures var k := Dilutions(calls[..|calls| - 1]);
            var c := calls[|calls| - 1].1;
            && Pow(m - 1, Dilutions(calls)) == Least(c, m) * Pow(m - 1, k)
            && Pow(m, Dilutions(calls)) == Whole(c, m) * Pow(m, k)
  {
  }

  /** In a run, every call that may dilute leaves at least `m` shares, and no liquidation realizes a loss. */
  ghost predicate SupplyStays(s: Vault, calls: seq<(Tick, Call)>, m: nat) {
    forall i :: 0 <= i < |calls| && Run(s, calls[..i]).Ok? ==>
      var b := Run(s, calls[..i]).value;
      LossFree(b, calls[i].1) && LeavesSupply(b, calls[i].0, calls[i].1, m)
  }

  lemma SupplyStaysBefore(s: Vault, calls: seq<(Tick, Call)>, m: nat, n: nat)
    requires SupplyStays(s, calls, m) && n <= |calls|
    ensures SupplyStays(s, calls[..n], m)
  {
    hide Run, LossFree, LeavesSupply;
    forall i | 0 <= i < n
      ensures calls[..n][..i] == calls[..i]
    {
    }
  }

  /** In every run, delegations and loss-free liquidations included, a settlement that may dilute lowers the price by at
      most one part in the number of shares it leaves, and nothing else lowers it. */
  lemma {:induction false} PriceFallsWithSupply(s: Vault, calls: seq<(Tick, Call)>, m: nat)
    requires m >= 1 && Run(s, calls).Ok? && SupplyStays(s, calls, m)
    ensures FallsAtMost(s, Run(s, calls).value, Pow(m - 1, Dilutions(calls)), Pow(m, Dilutions(calls)))
  {
    if calls == [] {
    } else {
      var n := |calls| - 1;
      var before := calls[..n];
      SupplyStaysBefore(s, calls, m, n);
      PriceFallsWithSupply(s, before, m);
      var b, t, c := Run(s, before).value, calls[n].0, calls[n].1;
      hide Step, FallsAtMost, LossFree, LeavesSupply, Pow, Dilutions, Least, Whole;
      assert LossFree(b, c) && LeavesSupply(b, t, c, m);
      StepFalls(b, t, c, m);
      LastFactor(calls, m);
      ComposeFalls(s, b, Step(b, t, c).value, Pow(m - 1, Dilutions(before)), Pow(m, Dilutions(before)), Least(c, m),
                   Whole(c, m));
    }
  }

  /** Without delegations the supply never falls below the virtual shares. */
  lemma {:induction false} BackedRun(s: Vault, calls: seq<(Tick, Call)>)
    requires Backed(s) && Run(s, calls).Ok?
    requires forall i :: 0 <= i < |calls| ==> Delegations(calls[i].1) == 0
    ensures Backed(Run(s, calls).value)
    ensures SupplyStays(s, calls, VIRTUAL_SHARES)
  {
    if calls == [] {
    } else {
      var n := |calls| - 1;
      var b, t, c := Run(s, calls[..n]).value, calls[n].0, calls[n].1;
      hide Step, Backed, LossFree, LeavesSupply, Delegations, SupplyStays;
      BackedRun(s, calls[..n]);
      BackedStep(b, t, c);
      SupplyStaysNext(s, calls, VIRTUAL_SHARES);
    }
  }

  lemma SupplyStaysNext(s: Vault, calls: seq<(Tick, Call)>, m: nat)
    requires |calls| > 0 && Run(s, calls).Ok? && SupplyStays(s, calls[..|calls| - 1], m)
    requires var b, last := Run(s, calls[..|calls| - 1]).value, calls[|calls| - 1];
      LossFree(b, last.1) && LeavesSupply(b, last.0, last.1, m)
    ensures SupplyStays(s, calls, m)
  {
    hide Step, LossFree, LeavesSupply, Run;
    var n := |calls| - 1;
    forall i | 0 <= i < n
      ensures calls[..n][..i] == calls[..i]
    {
    }
  }

  lemma BackedStep(b: Vault, t: Tick, c: Call)
    requires Backed(b) && Step(b, t, c).Ok? && Delegations(c) == 0
    ensures Backed(Step(b, t, c).value) && LossFree(b, c) && LeavesSupply(b, t, c, VIRTUAL_SHARES)
  {
    hide Step;
    StepKeepsBacking(b, t, c);
    BackedSupply(Step(b, t, c).value);
  }

  /** In a run without delegations, a settlement that may dilute lowers the price by at most one part in a
      million and nothing else lowers it. */
  lemma PriceFallsSlowly(s: Vault, calls: seq<(Tick, Call)>)
    requires Backed(s) && Run(s, calls).Ok?
    requires forall i :: 0 <= i < |calls| ==> Delegations(calls[i].1) == 0
    ensures Backed(Run(s, calls).value)
    ensures FallsAtMost(s, Run(s, calls).value,
                        Pow(VIRTUAL_SHARES - 1, Dilutions(calls)), Pow(VIRTUAL_SHARES, Dilutions(calls)))
  {
    BackedRun(s, calls);
    PriceFallsWithSupply(s, calls, VIRTUAL_SHARES);
    hide Run, Backed, FallsAtMost, Pow;
  }
}
