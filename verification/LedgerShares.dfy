/** Conservation of shares: every share outside the virtual ones is in some balance, and phantom
    shares are in balances exactly while a delegation is outstanding. */
module LedgerShares {
  import opened FixedPoint
  import opened Sums
  import opened Ledger

  const Amount: (Address, nat) -> real := (a: Address, n: nat) => n as real

  /** The shares in balances beyond the internal supply. */
  ghost function Surplus(s: Vault): real {
    Total(s.balances, Amount) - s.supply as real
  }

  /** How a call changes the number of delegations not yet revoked or settled. */
  function Delegations(c: Call): int {
    if c.DelegateCall? then 1
    else if c.RevokeCall? || c.SettleLiquidationCall? then -1
    else 0
  }

  function Outstanding(calls: seq<(Tick, Call)>): int {
    if calls == [] then 0
    else Outstanding(calls[..|calls| - 1]) + Delegations(calls[|calls| - 1].1)
  }

  /** Writing one balance. */
  lemma SetBalance(s: Vault, v: Vault, a: Address)
    requires v.balances == s.balances[a := BalanceOf(v, a)]
    ensures Surplus(v) == Surplus(s) + (BalanceOf(v, a) - BalanceOf(s, a)) as real - (v.supply - s.supply) as real
  {
    TotalUpdate(s.balances, Amount, a, BalanceOf(v, a));
    assert WeightAt(s.balances, Amount, a) == BalanceOf(s, a) as real;
  }

  lemma MintSurplus(s: Vault, to: Address, amount: nat)
    requires MintShares(s, to, amount).Ok?
    ensures Surplus(MintShares(s, to, amount).value) == Surplus(s)
  {
    SetBalance(s, MintShares(s, to, amount).value, to);
  }

  lemma BurnSurplus(s: Vault, from: Address, amount: nat)
    requires BurnShares(s, from, amount).Ok?
    ensures Surplus(BurnShares(s, from, amount).value) == Surplus(s)
  {
    SetBalance(s, BurnShares(s, from, amount).value, from);
  }

  lemma MoveSurplus(s: Vault, from: Address, to: Address, amount: nat)
    requires MoveShares(s, from, to, amount).Ok?
    ensures Surplus(MoveShares(s, from, to, amount).value) == Surplus(s)
  {
    var taken := s.(balances := s.balances[from := BalanceOf(s, from) - amount]);
    SetBalance(s, taken, from);
    SetBalance(taken, MoveShares(s, from, to, amount).value, to);
  }

  lemma TakePhantomSurplus(s: Vault, a: Address)
    ensures Surplus(TakePhantom(s, a).0) == Surplus(s) - PHANTOM as real
  {
    SetBalance(s, TakePhantom(s, a).0, a);
  }

  lemma AccrueSurplus(s: Vault, t: Tick, owner: Address, skip: bool)
    requires Accrue(s, t, owner, skip).Ok?
    ensures Surplus(Accrue(s, t, owner, skip).value) == Surplus(s)
  {
    var c := Compound(s, t);
    var shares := PaymentOf(c, owner, skip).value.shares;
    if shares > 0 {
      BurnSurplus(c, owner, shares);
    }
  }

  lemma ChargeSurplus(a: Vault, s: Vault, owner: Address, due: int)
    requires ChargeOwner(a, s, owner, due).Ok?
    ensures Surplus(ChargeOwner(a, s, owner, due).value) == Surplus(s)
  {
    var assets, shares := TotalAssets(a), TotalSupply(a);
    if due > 0 {
      BurnSurplus(s, owner, DivUp(due, shares, assets).value);
    } else if due < 0 {
      MintSurplus(s, owner, Div(-due, shares, assets).value);
    }
  }

  lemma SettleSurplus(s: Vault, t: Tick, x: Settlement)
    requires UpdateBalancesAndSettle(s, t, x).Ok?
    ensures Surplus(UpdateBalancesAndSettle(s, t, x).value.vault) == Surplus(s)
  {
    var a := Accrue(s, t, x.owner, false).value;
    var (credited, haircut) := CreditAfter(a, x).value;
    var due := x.ammDelta - NetBorrows(x) - x.premium + haircut;
    AccrueSurplus(s, t, x.owner, false);
    ChargeSurplus(a, a.(credited := credited), x.owner, due);
  }

  lemma CommissionSurplus(d: Settled, owner: Address, fee: nat, r: RiskParameters)
    requires TakeCommission(d, owner, fee, r).Ok?
    ensures Surplus(TakeCommission(d, owner, fee, r).value) == Surplus(d.vault)
  {
    hide MulDivUp, Surplus, BurnShares, MoveShares;
    var shares := DivUp(fee, d.shares, d.assets).value;
    if r.feeRecipient == 0 {
      BurnSurplus(d.vault, owner, shares);
    } else {
      var toProtocol, toBuilder := shares * r.protocolSplit / DECIMALS, shares * r.builderSplit / DECIMALS;
      MoveSurplus(d.vault, owner, r.riskEngine, toProtocol);
      MoveSurplus(MoveShares(d.vault, owner, r.riskEngine, toProtocol).value, owner, r.feeRecipient, toBuilder);
    }
  }

  lemma LiquidationSurplus(s: Vault, liquidator: Address, liquidatee: Address, bonus: int)
    requires SettleLiquidation(s, liquidator, liquidatee, bonus).Ok?
    ensures Surplus(SettleLiquidation(s, liquidator, liquidatee, bonus).value.vault) == Surplus(s) - PHANTOM as real
  {
    if bonus < 0 {
      var shares := ConvertToShares(s, -bonus).value;
      var m := MintShares(s, liquidatee, shares).value;
      MintSurplus(s, liquidatee, shares);
      TakePhantomSurplus(AddDeposit(m, -bonus).value, liquidatee);
    } else {
      var v := TakePhantom(s, liquidatee).0;
      var kept := BalanceOf(v, liquidatee);
      var shares := ConvertToShares(v, bonus).value;
      TakePhantomSurplus(s, liquidatee);
      MoveSurplus(v, liquidatee, liquidator, Min(shares, kept));
      if shares > kept {
        var moved := MoveShares(v, liquidatee, liquidator, kept).value;
        MintSurplus(moved, liquidator, BonusMint(moved, bonus, kept));
      }
    }
  }

  lemma DepositSurplus(s: Vault, t: Tick, caller: Address, assets: nat, receiver: Address)
    requires Deposit(s, t, caller, assets, receiver).Ok?
    ensures Surplus(Deposit(s, t, caller, assets, receiver).value.0) == Surplus(s)
  {
    AccrueSurplus(s, t, caller, true);
    var a := Accrue(s, t, caller, true).value;
    MintSurplus(a, receiver, ConvertToShares(a, assets).value);
  }

  lemma MintCallSurplus(s: Vault, t: Tick, caller: Address, shares: nat, receiver: Address)
    requires Mint(s, t, caller, shares, receiver).Ok?
    ensures Surplus(Mint(s, t, caller, shares, receiver).value.0) == Surplus(s)
  {
    AccrueSurplus(s, t, caller, true);
    MintSurplus(Accrue(s, t, caller, true).value, receiver, shares);
  }

  lemma WithdrawSurplus(s: Vault, t: Tick, caller: Address, assets: nat, owner: Address, legs: nat)
    requires Withdraw(s, t, caller, assets, owner, legs).Ok?
    ensures Surplus(Withdraw(s, t, caller, assets, owner, legs).value.0) == Surplus(s)
  {
    AccrueSurplus(s, t, owner, false);
    PayOutSurplus(Accrue(s, t, owner, false).value, caller, assets, owner);
  }

  lemma WithdrawWithPositionsSurplus(s: Vault, t: Tick, caller: Address, assets: nat, owner: Address, solvent: bool)
    requires WithdrawWithPositions(s, t, caller, assets, owner, solvent).Ok?
    ensures Surplus(WithdrawWithPositions(s, t, caller, assets, owner, solvent).value.0) == Surplus(s)
  {
    AccrueSurplus(s, t, owner, false);
    PayOutSurplus(Accrue(s, t, owner, false).value, caller, assets, owner);
  }

  lemma RedeemSurplus(s: Vault, t: Tick, caller: Address, shares: nat, owner: Address, legs: nat)
    requires Redeem(s, t, caller, shares, owner, legs).Ok?
    ensures Surplus(Redeem(s, t, caller, shares, owner, legs).value.0) == Surplus(s)
  {
    AccrueSurplus(s, t, owner, false);
    var a := Accrue(s, t, owner, false).value;
    BurnSurplus(SpendIfThirdParty(a, owner, caller, shares).value, owner, shares);
  }

  lemma TransferSurplus(s: Vault, t: Tick, caller: Address, to: Address, amount: nat, legs: nat)
    requires Transfer(s, t, caller, to, amount, legs).Ok?
    ensures Surplus(Transfer(s, t, caller, to, amount, legs).value) == Surplus(s)
  {
    AccrueSurplus(s, t, caller, false);
    MoveSurplus(Accrue(s, t, caller, false).value, caller, to, amount);
  }

  lemma TransferFromSurplus(s: Vault, t: Tick, caller: Address, from: Address, to: Address, amount: nat, legs: nat)
    requires TransferFrom(s, t, caller, from, to, amount, legs).Ok?
    ensures Surplus(TransferFrom(s, t, caller, from, to, amount, legs).value) == Surplus(s)
  {
    AccrueSurplus(s, t, from, false);
    MoveSurplus(SpendAllowance(Accrue(s, t, from, false).value, from, caller, amount).value, from, to, amount);
  }

  lemma RefundSurplus(s: Vault, refunder: Address, refundee: Address, owed: int)
    requires Refund(s, refunder, refundee, owed).Ok?
    ensures Surplus(Refund(s, refunder, refundee, owed).value) == Surplus(s)
  {
    if owed > 0 {
      MoveSurplus(s, refunder, refundee, ConvertToShares(s, owed).value);
    } else {
      MoveSurplus(s, refundee, refunder, ConvertToShares(s, -owed).value);
    }
  }

  lemma SettleMintSurplus(s: Vault, t: Tick, owner: Address, long: nat, short: nat, ammDelta: int, r: RiskParameters)
    requires SettleMint(s, t, owner, long, short, ammDelta, r).Ok?
    ensures Surplus(SettleMint(s, t, owner, long, short, ammDelta, r).value.0) == Surplus(s)
  {
    var x := Settlement(owner, true, long, short, ammDelta, 0);
    SettleSurplus(s, t, x);
    CommissionSurplus(UpdateBalancesAndSettle(s, t, x).value, owner, OpeningFee(x, r), r);
  }

  lemma SettleBurnSurplus(s: Vault, t: Tick, owner: Address, long: nat, short: nat, ammDelta: int, premium: int,
                          r: RiskParameters)
    requires SettleBurn(s, t, owner, long, short, ammDelta, premium, r).Ok?
    ensures Surplus(SettleBurn(s, t, owner, long, short, ammDelta, premium, r).value.0) == Surplus(s)
  {
    var x := Settlement(owner, false, long, short, ammDelta, premium);
    SettleSurplus(s, t, x);
    if premium != 0 {
      CommissionSurplus(UpdateBalancesAndSettle(s, t, x).value, owner, ClosingFee(x, r), r);
    }
  }

  lemma PayOutSurplus(a: Vault, caller: Address, assets: nat, owner: Address)
    requires PayOut(a, caller, assets, owner).Ok?
    ensures Surplus(PayOut(a, caller, assets, owner).value.0) == Surplus(a)
  {
    var shares := PayOut(a, caller, assets, owner).value.1;
    BurnSurplus(SpendIfThirdParty(a, owner, caller, shares).value, owner, shares);
  }

  lemma StepSurplus(s: Vault, t: Tick, c: Call)
    requires Step(s, t, c).Ok?
    ensures Surplus(Step(s, t, c).value) == Surplus(s) + PHANTOM as real * Delegations(c) as real
  {
    hide Accrue, Deposit, Mint, Withdraw, WithdrawWithPositions, Redeem, Transfer, TransferFrom, Refund;
    hide SettleMint, SettleBurn, SettleLiquidation;
    match c
    case AccrueCall(owner) => AccrueSurplus(s, t, owner, false);
    case DepositCall(caller, assets, receiver) => DepositSurplus(s, t, caller, assets, receiver);
    case MintCall(caller, shares, receiver) => MintCallSurplus(s, t, caller, shares, receiver);
    case WithdrawCall(caller, assets, owner, legs) => WithdrawSurplus(s, t, caller, assets, owner, legs);
    case WithdrawWithPositionsCall(caller, assets, owner, solvent) =>
      WithdrawWithPositionsSurplus(s, t, caller, assets, owner, solvent);
    case RedeemCall(caller, shares, owner, legs) => RedeemSurplus(s, t, caller, shares, owner, legs);
    case TransferCall(caller, to, amount, legs) => TransferSurplus(s, t, caller, to, amount, legs);
    case TransferFromCall(caller, from, to, amount, legs) => TransferFromSurplus(s, t, caller, from, to, amount, legs);
    case ApproveCall(owner, spender, amount) =>
    case DelegateCall(a) => SetBalance(s, Delegate(s, a).value, a);
    case RevokeCall(a) => SetBalance(s, Revoke(s, a).value, a);
    case RefundCall(refunder, refundee, owed) => RefundSurplus(s, refunder, refundee, owed);
    case SettleMintCall(owner, long, short, ammDelta, r) => SettleMintSurplus(s, t, owner, long, short, ammDelta, r);
    case SettleBurnCall(owner, long, short, ammDelta, premium, r) =>
      SettleBurnSurplus(s, t, owner, long, short, ammDelta, premium, r);
    case SettleLiquidationCall(liquidator, liquidatee, bonus) =>
      LiquidationSurplus(s, liquidator, liquidatee, bonus);
  }

  /** In every reachable state the balances and the virtual shares together are the internal supply
      plus one bundle of phantom shares for every delegation not yet revoked or settled. */
  lemma {:induction false} PhantomConservation(epoch: nat, calls: seq<(Tick, Call)>)
    requires Run(Initial(epoch), calls).Ok?
    ensures var s := Run(Initial(epoch), calls).value;
            Total(s.balances, Amount) + VIRTUAL_SHARES as real
              == s.supply as real + PHANTOM as real * Outstanding(calls) as real
  {
    if calls == [] {
      assert Total(Initial(epoch).balances, Amount) == 0.0;
    } else {
      var n := |calls| - 1;
      PhantomConservation(epoch, calls[..n]);
      StepSurplus(Run(Initial(epoch), calls[..n]).value, calls[n].0, calls[n].1);
    }
  }

  /** Every share is backed and nobody holds phantom shares. */
  ghost predicate Backed(s: Vault) {
    Total(s.balances, Amount) + VIRTUAL_SHARES as real == s.supply as real
  }

  /** While no delegation is outstanding, the virtual shares are still there and no balance exceeds
      the rest, so that no burn of a held amount underflows the supply. */
  lemma BackedSupply(s: Vault)
    requires Backed(s)
    ensures s.supply >= VIRTUAL_SHARES
    ensures forall a :: BalanceOf(s, a) + VIRTUAL_SHARES <= s.supply
    ensures forall a, n: nat :: BurnShares(s, a, n).Ok? <==> n <= BalanceOf(s, a)
  {
    TotalNonNegative(s.balances, Amount);
    forall a
      ensures BalanceOf(s, a) + VIRTUAL_SHARES <= s.supply
    {
      if a in s.balances {
        assert Amount(a, s.balances[a]) <= Total(s.balances, Amount);
      }
    }
  }

  lemma StepKeepsBacking(s: Vault, t: Tick, c: Call)
    requires Backed(s) && Step(s, t, c).Ok? && Delegations(c) == 0
    ensures Backed(Step(s, t, c).value)
  {
    StepSurplus(s, t, c);
  }
}
