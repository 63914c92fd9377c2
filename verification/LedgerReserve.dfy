/** Withdrawals: they are covered by the owner's shares, keep back what is credited, and a round
    trip through the vault never gains. */
module LedgerReserve {
  import opened Results
  import opened FixedPoint
  import opened Ledger
  import opened LedgerShares
  import opened LedgerInterest
  import opened LedgerScenarios

  /** The assets that must stay: the virtual asset and the value of the credited shares, rounded down. */
  function Reserve(a: Vault): nat
    requires TotalSupply(a) > 0
  {
    1 + MulDiv(a.credited, TotalAssets(a), TotalSupply(a))
  }

  /** Rounding down to assets and up again to shares never exceeds the shares started from. */
  lemma RoundTripShares(held: nat, assets: nat, shares: nat, paid: nat)
    requires assets > 0 && shares > 0 && paid <= MulDiv(held, assets, shares)
    ensures MulDivUp(paid, shares, assets) <= held
  {
    var q, n := MulDiv(held, assets, shares), MulDivUp(paid, shares, assets);
    MulLe(paid, q, shares);
    if n > held {
      MulLe(held + 1, n, assets);
    }
  }

  lemma PayOutCovered(a: Vault, caller: Address, assets: nat, owner: Address)
    requires TotalSupply(a) > 0 && MaxWithdrawWithPositions(a, owner).Ok?
    requires 0 < assets <= MaxWithdrawWithPositions(a, owner).value
    requires PayOut(a, caller, assets, owner).Ok?
    ensures var (v, shares) := PayOut(a, caller, assets, owner).value;
            && shares <= BalanceOf(a, owner)
            && v.deposited == a.deposited - assets && v.deposited >= Reserve(a)
            && BalanceOf(v, owner) == BalanceOf(a, owner) - shares
            && assets <= MulDiv(BalanceOf(a, owner), TotalAssets(a), TotalSupply(a))
  {
    RoundTripShares(BalanceOf(a, owner), TotalAssets(a), TotalSupply(a), assets);
    hide MulDiv, MulDivUp;
  }

  /** A successful withdrawal leaves the reserve, at the price it was paid at, and takes no more shares
      than the owner has. */
  lemma WithdrawKeepsReserve(s: Vault, t: Tick, caller: Address, assets: nat, owner: Address, legs: nat)
    requires Withdraw(s, t, caller, assets, owner, legs).Ok?
    ensures var a := Accrue(s, t, owner, false).value;
            var (v, shares) := Withdraw(s, t, caller, assets, owner, legs).value;
            && legs == 0 && TotalSupply(a) > 0
            && shares <= BalanceOf(a, owner)
            && v.deposited == a.deposited - assets && v.deposited >= Reserve(a)
  {
    hide Accrue, MulDiv, MulDivUp, PayOut;
    PayOutCovered(Accrue(s, t, owner, false).value, caller, assets, owner);
  }

  lemma WithdrawWithPositionsKeepsReserve(s: Vault, t: Tick, caller: Address, assets: nat, owner: Address,
                                          solvent: bool)
    requires WithdrawWithPositions(s, t, caller, assets, owner, solvent).Ok?
    ensures var a := Accrue(s, t, owner, false).value;
            var (v, shares) := WithdrawWithPositions(s, t, caller, assets, owner, solvent).value;
            && solvent && TotalSupply(a) > 0
            && shares <= BalanceOf(a, owner)
            && v.deposited == a.deposited - assets && v.deposited >= Reserve(a)
  {
    hide Accrue, MulDiv, MulDivUp, PayOut;
    PayOutCovered(Accrue(s, t, owner, false).value, caller, assets, owner);
  }

  /** Floors of parts add up to no more than the floor of the whole. */
  lemma FloorsOfParts(x: nat, y: nat, assets: nat, shares: nat, available: nat)
    requires assets > 0 && shares > 0 && x + y <= MulDiv(available, shares, assets)
    ensures MulDiv(x, assets, shares) + MulDiv(y, assets, shares) <= available
  {
    var p, q, r := MulDiv(x, assets, shares), MulDiv(y, assets, shares), MulDiv(available, shares, assets);
    MulLe(x + y, r, assets);
    assert (x + y) * assets == x * assets + y * assets;
    assert (p + q) * shares == p * shares + q * shares;
    Cancel(p + q, available, shares);
  }

  lemma RedeemKeepsReserve(s: Vault, t: Tick, caller: Address, shares: nat, owner: Address, legs: nat)
    requires Redeem(s, t, caller, shares, owner, legs).Ok?
    ensures var a := Accrue(s, t, owner, false).value;
            var (v, assets) := Redeem(s, t, caller, shares, owner, legs).value;
            && legs == 0 && TotalSupply(a) > 0
            && shares <= BalanceOf(a, owner)
            && v.deposited == a.deposited - assets && v.deposited >= Reserve(a)
  {
    var a := Accrue(s, t, owner, false).value;
    hide Accrue, MulDiv, Reserve, Minus;
    RedeemRoom(a, shares, MulDiv(Minus(a.deposited, 1), TotalSupply(a), TotalAssets(a)));
  }

  lemma RedeemRoom(a: Vault, shares: nat, available: nat)
    requires TotalAssets(a) > 0 && TotalSupply(a) > 0
    requires available == MulDiv(Minus(a.deposited, 1), TotalSupply(a), TotalAssets(a))
    requires shares <= Minus(available, a.credited) && MulDiv(shares, TotalAssets(a), TotalSupply(a)) > 0
    ensures MulDiv(shares, TotalAssets(a), TotalSupply(a)) + Reserve(a) <= a.deposited
  {
    if shares == 0 {
      Cancel(MulDiv(0, TotalAssets(a), TotalSupply(a)), 0, TotalSupply(a));
    } else {
      FloorsOfParts(shares, a.credited, TotalAssets(a), TotalSupply(a), Minus(a.deposited, 1));
    }
  }

  // ---------- what can be taken out ----------

  lemma AccrueKeepsBacking(s: Vault, t: Tick, u: Address)
    requires Backed(s) && Accrue(s, t, u, false).Ok?
    ensures Backed(Accrue(s, t, u, false).value)
  {
    StepKeepsBacking(s, t, AccrueCall(u));
    hide Accrue;
  }

  /** Paying an owner out succeeds up to the maximum: the shares it costs are there, and so are the assets. */
  lemma PayOutSucceeds(a: Vault, assets: nat, u: Address)
    requires Backed(a) && MaxWithdrawWithPositions(a, u).Ok? && 0 < assets <= MaxWithdrawWithPositions(a, u).value
    ensures PayOut(a, u, assets, u).Ok?
  {
    BackedSupply(a);
    RoundTripShares(BalanceOf(a, u), TotalAssets(a), TotalSupply(a), assets);
    hide MulDiv, MulDivUp, Backed;
  }

  lemma MaximumIsDefined(a: Vault, u: Address)
    requires Backed(a)
    ensures TotalSupply(a) > 0 && MaxWithdrawWithPositions(a, u).Ok?
  {
    BackedSupply(a);
    hide MulDiv;
  }

  /** While all shares are backed, an owner can withdraw a positive amount if and only if it is at most its maximum:
      the documented maximum never reverts. */
  lemma MaxWithdrawExactly(s: Vault, t: Tick, u: Address, assets: nat, legs: nat)
    requires Backed(s) && Accrue(s, t, u, false).Ok?
    ensures var most := MaxWithdraw(Accrue(s, t, u, false).value, u, legs);
            most.Ok? && (Withdraw(s, t, u, assets, u, legs).Ok? <==> 0 < assets <= most.value)
  {
    var a := Accrue(s, t, u, false).value;
    AccrueKeepsBacking(s, t, u);
    MaximumIsDefined(a, u);
    if 0 < assets <= MaxWithdrawWithPositions(a, u).value {
      PayOutSucceeds(a, assets, u);
    }
    hide Accrue, MaxWithdrawWithPositions, PayOut, Backed;
  }

  /** The same with open positions, when the pool finds what is left solvent. */
  lemma MaxWithdrawWithPositionsExactly(s: Vault, t: Tick, u: Address, assets: nat, solvent: bool)
    requires Backed(s) && Accrue(s, t, u, false).Ok?
    ensures var most := MaxWithdrawWithPositions(Accrue(s, t, u, false).value, u);
            most.Ok? && (WithdrawWithPositions(s, t, u, assets, u, solvent).Ok?
                         <==> 0 < assets <= most.value && solvent)
  {
    var a := Accrue(s, t, u, false).value;
    AccrueKeepsBacking(s, t, u);
    MaximumIsDefined(a, u);
    if 0 < assets <= MaxWithdrawWithPositions(a, u).value {
      PayOutSucceeds(a, assets, u);
    }
    hide Accrue, MaxWithdrawWithPositions, PayOut, Backed;
  }

  lemma RedeemSucceeds(a: Vault, shares: nat, u: Address)
    requires Backed(a) && TotalAssets(a) > 0 && MaxRedeem(a, u, 0).Ok? && shares <= MaxRedeem(a, u, 0).value
    requires TotalSupply(a) > 0 && MulDiv(shares, TotalAssets(a), TotalSupply(a)) > 0
    ensures BurnShares(a, u, shares).Ok? && MulDiv(shares, TotalAssets(a), TotalSupply(a)) <= a.deposited
  {
    BackedSupply(a);
    hide MulDiv, Backed;
    RedeemRoom(a, shares, MulDiv(Minus(a.deposited, 1), TotalSupply(a), TotalAssets(a)));
  }

  lemma WorthSomething(shares: nat, assets: nat, supply: nat)
    requires supply > 0
    ensures MulDiv(shares, assets, supply) > 0 <==> shares * assets >= supply
  {
    var q := MulDiv(shares, assets, supply);
    hide MulDiv;
    if q > 0 {
      MulLe(1, q, supply);
    }
  }

  /** While all shares are backed, an owner can redeem shares if and only if they are at most its maximum and worth at
      least one asset. */
  lemma MaxRedeemExactly(s: Vault, t: Tick, u: Address, shares: nat, legs: nat)
    requires Backed(s) && Accrue(s, t, u, false).Ok?
    ensures var a := Accrue(s, t, u, false).value;
            Redeem(s, t, u, shares, u, legs).Ok?
            <==> TotalAssets(a) > 0 && shares <= MaxRedeem(a, u, legs).value
                 && shares * TotalAssets(a) >= TotalSupply(a)
  {
    var a := Accrue(s, t, u, false).value;
    AccrueKeepsBacking(s, t, u);
    MaximumIsDefined(a, u);
    WorthSomething(shares, TotalAssets(a), TotalSupply(a));
    hide Accrue, MulDiv, Backed;
    if TotalAssets(a) > 0 && shares <= MaxRedeem(a, u, 0).value && MulDiv(shares, TotalAssets(a), TotalSupply(a)) > 0 {
      RedeemSucceeds(a, shares, u);
    }
  }

  /** So the documented maximum of a redemption can revert: a single share, a millionth of an asset, cannot be
      redeemed. */
  lemma MaxRedeemCanRevert(rate: nat)
    ensures var t := Tick(0, rate);
            var v := Transfer(Deposited(1000), t, 1, 5, 1, 0);
            && v.Ok? && MaxRedeem(v.value, 5, 0) == Ok(1)
            && Redeem(v.value, t, 5, 1, 5, 0) == Revert(BelowMinimumRedemption)
  {
    var s, t := Deposited(1000), Tick(0, rate);
    SameEpoch(s, t);
    AccrueNothing(s, t, 1, false);
    hide Accrue, Compound;
    var v := Transfer(s, t, 1, 5, 1, 0).value;
    SameEpoch(v, t);
    AccrueNothing(v, t, 5, false);
    assert MulDiv(1000, 1_001_000_000, 1001) == 1_000_000_000 && MulDiv(1, 1001, 1_001_000_000) == 0;
    hide MulDiv;
  }

  // ---------- round trips ----------

  lemma TradeProducts(x: int, y: int, n: int, assets: int)
    ensures n * (x + assets) == n * x + n * assets
    ensures assets * (y + n) == assets * y + n * assets
  {
  }

  /** Depositing and redeeming the shares received, with nothing in between, never returns more. */
  lemma DepositThenRedeemNeverGains(a: Vault, assets: nat)
    requires TotalAssets(a) > 0
    requires TotalSupply(a) > 0
    ensures var shares := MulDiv(assets, TotalSupply(a), TotalAssets(a));
            MulDiv(shares, TotalAssets(a) + assets, TotalSupply(a) + shares) <= assets
  {
    var x, y := TotalAssets(a), TotalSupply(a);
    var n := MulDiv(assets, y, x);
    var back := MulDiv(n, x + assets, y + n);
    TradeProducts(x, y, n, assets);
    hide MulDiv;
    Cancel(back, assets, y + n);
  }

  /** Withdrawing exactly what a deposit brought in costs at least the shares it gave. */
  lemma DepositThenWithdrawNeverGains(a: Vault, assets: nat)
    requires TotalAssets(a) > 0
    ensures var shares := MulDiv(assets, TotalSupply(a), TotalAssets(a));
            shares <= MulDivUp(assets, TotalSupply(a) + shares, TotalAssets(a) + assets)
  {
    var x, y := TotalAssets(a), TotalSupply(a);
    var n := MulDiv(assets, y, x);
    var cost := MulDivUp(assets, y + n, x + assets);
    TradeProducts(x, y, n, assets);
    hide MulDiv, MulDivUp;
    Cancel(n, cost, x + assets);
  }

  /** Nothing is owed, so that paying interest changes only the checkpoint. */
  lemma NothingOwed(s: Vault, t: Tick, u: Address, skip: bool)
    requires UserInterest(BorrowerOf(s, u), Compound(s, t).borrowIndex) == Ok(0) && Accrue(s, t, u, skip).Ok?
    ensures var c := Compound(s, t);
            Accrue(s, t, u, skip)
            == Ok(c.(borrowers := c.borrowers[u := Borrower(c.borrowIndex, BorrowerOf(c, u).net)]))
    ensures Compound(s, t).borrowers == s.borrowers
  {
    hide TaylorCompounded, MulDivUp;
  }

  /** After a deposit by a user who owes nothing, another accrual in the same epoch changes nothing. */
  lemma AccruedAlready(s: Vault, t: Tick, u: Address, assets: nat)
    requires UserInterest(BorrowerOf(s, u), Compound(s, t).borrowIndex) == Ok(0) && Deposit(s, t, u, assets, u).Ok?
    ensures Accrue(s, t, u, true).Ok?
    ensures var a, (d, shares) := Accrue(s, t, u, true).value, Deposit(s, t, u, assets, u).value;
            && TotalAssets(a) > 0 && shares == MulDiv(assets, TotalSupply(a), TotalAssets(a))
            && TotalAssets(d) == TotalAssets(a) + assets && TotalSupply(d) == TotalSupply(a) + shares
            && BalanceOf(d, u) == BalanceOf(a, u) + shares
            && Accrue(d, t, u, false) == Ok(d)
  {
    NothingOwed(s, t, u, true);
    var a, d := Accrue(s, t, u, true).value, Deposit(s, t, u, assets, u).value.0;
    CompoundedEpoch(s, t);
    DepositFrame(s, t, u, assets);
    hide Accrue, Deposit, Compound, MulDiv;
    SameEpoch(d, t);
    UpToDate(d, t, u);
  }

  lemma CompoundedEpoch(s: Vault, t: Tick)
    ensures Compound(s, t).epoch == t.epoch
  {
    hide TaylorCompounded, MulDivUp;
  }

  lemma DepositFrame(s: Vault, t: Tick, u: Address, assets: nat)
    requires Deposit(s, t, u, assets, u).Ok?
    ensures Accrue(s, t, u, true).Ok?
    ensures var a, (d, shares) := Accrue(s, t, u, true).value, Deposit(s, t, u, assets, u).value;
            && TotalAssets(a) > 0 && shares == MulDiv(assets, TotalSupply(a), TotalAssets(a))
            && d == a.(balances := a.balances[u := BalanceOf(a, u) + shares], supply := a.supply + shares,
                       deposited := a.deposited + assets)
  {
    hide Accrue, MulDiv;
  }

  /** A user whose checkpoint is current has nothing to pay. */
  lemma UpToDate(d: Vault, t: Tick, u: Address)
    requires Compound(d, t) == d && TotalAssets(d) > 0 && u in d.borrowers && d.borrowers[u].index == d.borrowIndex
    ensures Accrue(d, t, u, false) == Ok(d)
  {
    hide Compound;
    assert d.borrowers[u := d.borrowers[u]] == d.borrowers;
  }

  /** A user who owes no interest deposits and redeems the shares in the same epoch: it never receives more than it
      put in. */
  lemma DepositThenRedeem(s: Vault, t: Tick, u: Address, assets: nat, legs: nat)
    requires UserInterest(BorrowerOf(s, u), Compound(s, t).borrowIndex) == Ok(0) && Deposit(s, t, u, assets, u).Ok?
    requires var (d, shares) := Deposit(s, t, u, assets, u).value; Redeem(d, t, u, shares, u, legs).Ok?
    ensures var (d, shares) := Deposit(s, t, u, assets, u).value;
            Redeem(d, t, u, shares, u, legs).value.1 <= assets
  {
    hide Accrue, Deposit, Redeem, Compound, MulDiv, UserInterest, TotalAssets, TotalSupply;
    AccruedAlready(s, t, u, assets);
    var a := Accrue(s, t, u, true).value;
    var (d, shares) := Deposit(s, t, u, assets, u).value;
    RedeemPays(d, t, u, shares, legs, d);
    DepositThenRedeemNeverGains(a, assets);
  }

  lemma RedeemPays(d: Vault, t: Tick, u: Address, shares: nat, legs: nat, b: Vault)
    requires Redeem(d, t, u, shares, u, legs).Ok? && Accrue(d, t, u, false) == Ok(b)
    ensures TotalSupply(b) > 0
            && Redeem(d, t, u, shares, u, legs).value.1 == MulDiv(shares, TotalAssets(b), TotalSupply(b))
  {
    hide Accrue, MulDiv;
  }

  /** A user who owes no interest deposits and withdraws the same assets in the same epoch: it burns at least the
      shares it received. */
  lemma DepositThenWithdraw(s: Vault, t: Tick, u: Address, assets: nat, legs: nat)
    requires UserInterest(BorrowerOf(s, u), Compound(s, t).borrowIndex) == Ok(0) && Deposit(s, t, u, assets, u).Ok?
    requires Withdraw(Deposit(s, t, u, assets, u).value.0, t, u, assets, u, legs).Ok?
    ensures var (d, shares) := Deposit(s, t, u, assets, u).value;
            shares <= Withdraw(d, t, u, assets, u, legs).value.1
  {
    hide Accrue, Deposit, Withdraw, Compound, MulDiv, MulDivUp, UserInterest, TotalAssets, TotalSupply;
    AccruedAlready(s, t, u, assets);
    var a := Accrue(s, t, u, true).value;
    var (d, shares) := Deposit(s, t, u, assets, u).value;
    WithdrawCosts(d, t, u, assets, legs, d);
    DepositThenWithdrawNeverGains(a, assets);
  }

  lemma WithdrawCosts(d: Vault, t: Tick, u: Address, assets: nat, legs: nat, b: Vault)
    requires Withdraw(d, t, u, assets, u, legs).Ok? && Accrue(d, t, u, false) == Ok(b)
    ensures TotalAssets(b) > 0
            && Withdraw(d, t, u, assets, u, legs).value.1 == MulDivUp(assets, TotalSupply(b), TotalAssets(b))
  {
    hide Accrue, MulDiv, MulDivUp;
  }

  // ---------- the last asset ----------

  lemma AccrueKeepsDeposits(s: Vault, t: Tick, owner: Address, skip: bool)
    requires Accrue(s, t, owner, skip).Ok?
    ensures Accrue(s, t, owner, skip).value.deposited == s.deposited
  {
    hide TaylorCompounded, MulDivUp, UserInterest, PaymentOf;
  }

  /** A settlement leaves the last deposited asset exactly when what it moves into the AMM, less the premium paid
      in, does: nothing else checks it. */
  lemma SettlementKeepsLastAsset(s: Vault, t: Tick, x: Settlement)
    requires UpdateBalancesAndSettle(s, t, x).Ok?
    ensures UpdateBalancesAndSettle(s, t, x).value.vault.deposited >= 1 <==> x.ammDelta - x.premium <= s.deposited - 1
  {
    AccrueKeepsDeposits(s, t, x.owner, false);
    hide Accrue, CreditAfter, MulDiv, MulDivUp;
  }

  lemma SettleCallKeepsLastAsset(s: Vault, t: Tick, c: Call)
    requires Step(s, t, c).Ok? && (c.SettleMintCall? || c.SettleBurnCall?)
    ensures Step(s, t, c).value.deposited >= 1
            <==> SettlementOf(c).ammDelta - SettlementOf(c).premium <= s.deposited - 1
  {
    hide UpdateBalancesAndSettle, OpeningFee, ClosingFee, MulDivUp;
    SettlementKeepsLastAsset(s, t, SettlementOf(c));
  }

  /** Calls that are not settlements. */
  lemma OtherCallsKeepLastAsset(s: Vault, t: Tick, c: Call)
    requires Step(s, t, c).Ok? && s.deposited >= 1 && !c.SettleMintCall? && !c.SettleBurnCall?
    ensures Step(s, t, c).value.deposited >= 1
  {
    hide Accrue, Withdraw, WithdrawWithPositions, Redeem, SettleLiquidation, Deposit, Mint, Reserve, DivUp, MulDivUp;
    match c
    case AccrueCall(owner) => AccrueKeepsDeposits(s, t, owner, false);
    case DepositCall(caller, assets, receiver) =>
      AccruedDeposits(s, t, c, caller, true);
      DepositAdds(s, t, caller, assets, receiver);
    case MintCall(caller, shares, receiver) =>
      AccruedDeposits(s, t, c, caller, true);
      MintAdds(s, t, caller, shares, receiver);
    case WithdrawCall(caller, assets, owner, legs) =>
      WithdrawLeavesOne(s, t, caller, assets, owner, legs);
    case WithdrawWithPositionsCall(caller, assets, owner, solvent) =>
      WithdrawWithPositionsLeavesOne(s, t, caller, assets, owner, solvent);
    case RedeemCall(caller, shares, owner, legs) =>
      RedeemLeavesOne(s, t, caller, shares, owner, legs);
    case TransferCall(caller, to, amount, legs) => AccrueKeepsDeposits(s, t, caller, false);
    case TransferFromCall(caller, from, to, amount, legs) => AccrueKeepsDeposits(s, t, from, false);
    case SettleLiquidationCall(liquidator, liquidatee, bonus) => LiquidationAdds(s, liquidator, liquidatee, bonus);
    case _ =>
  }

  lemma AccruedDeposits(s: Vault, t: Tick, c: Call, owner: Address, skip: bool)
    requires Step(s, t, c).Ok? && (c.DepositCall? || c.MintCall?) && owner == c.caller && skip
    ensures Accrue(s, t, owner, skip).Ok? && Accrue(s, t, owner, skip).value.deposited == s.deposited
  {
    hide Accrue, MulDiv, MulDivUp;
    AccrueKeepsDeposits(s, t, owner, skip);
  }

  lemma DepositAdds(s: Vault, t: Tick, caller: Address, assets: nat, receiver: Address)
    requires Deposit(s, t, caller, assets, receiver).Ok?
    ensures Deposit(s, t, caller, assets, receiver).value.0.deposited
            == Accrue(s, t, caller, true).value.deposited + assets
  {
    hide Accrue, MulDiv;
  }

  lemma MintAdds(s: Vault, t: Tick, caller: Address, shares: nat, receiver: Address)
    requires Mint(s, t, caller, shares, receiver).Ok?
    ensures Mint(s, t, caller, shares, receiver).value.0.deposited >= Accrue(s, t, caller, true).value.deposited
  {
    hide Accrue, MulDivUp;
  }

  lemma LiquidationAdds(s: Vault, liquidator: Address, liquidatee: Address, bonus: int)
    requires SettleLiquidation(s, liquidator, liquidatee, bonus).Ok?
    ensures SettleLiquidation(s, liquidator, liquidatee, bonus).value.vault.deposited >= s.deposited
  {
    hide MulDiv, BonusMint;
  }

  lemma WithdrawLeavesOne(s: Vault, t: Tick, caller: Address, assets: nat, owner: Address, legs: nat)
    requires Withdraw(s, t, caller, assets, owner, legs).Ok?
    ensures Withdraw(s, t, caller, assets, owner, legs).value.0.deposited >= 1
  {
    WithdrawKeepsReserve(s, t, caller, assets, owner, legs);
    hide Accrue, MulDiv, PayOut, MaxWithdraw;
  }

  lemma WithdrawWithPositionsLeavesOne(s: Vault, t: Tick, caller: Address, assets: nat, owner: Address, solvent: bool)
    requires WithdrawWithPositions(s, t, caller, assets, owner, solvent).Ok?
    ensures WithdrawWithPositions(s, t, caller, assets, owner, solvent).value.0.deposited >= 1
  {
    WithdrawWithPositionsKeepsReserve(s, t, caller, assets, owner, solvent);
    hide Accrue, MulDiv, PayOut, MaxWithdrawWithPositions;
  }

  lemma RedeemLeavesOne(s: Vault, t: Tick, caller: Address, shares: nat, owner: Address, legs: nat)
    requires Redeem(s, t, caller, shares, owner, legs).Ok?
    ensures Redeem(s, t, caller, shares, owner, legs).value.0.deposited >= 1
  {
    RedeemKeepsReserve(s, t, caller, shares, owner, legs);
    hide Accrue, MulDiv, MaxRedeem;
  }

  /** The documented floor of one deposited asset, exactly: of all calls, only a settlement can break it, and it does
      if and only if it moves more into the AMM, less the premium paid in, than leaves one. */
  lemma LastAssetStaysExactly(s: Vault, t: Tick, c: Call)
    requires Step(s, t, c).Ok? && s.deposited >= 1
    ensures Step(s, t, c).value.deposited >= 1
            <==> (c.SettleMintCall? || c.SettleBurnCall? ==>
                  SettlementOf(c).ammDelta - SettlementOf(c).premium <= s.deposited - 1)
  {
    hide Step;
    if c.SettleMintCall? || c.SettleBurnCall? {
      SettleCallKeepsLastAsset(s, t, c);
    } else {
      OtherCallsKeepLastAsset(s, t, c);
    }
  }

  /** Every vault can be emptied by one opening, as far as its own checks go: the virtual asset has no token behind it,
      so the pool must hold one that the vault does not count, such as a donation. */
  lemma AnyVaultCanBeEmptied(s: Vault, t: Tick, owner: Address)
    requires Accrue(s, t, owner, false).Ok? && s.deposited <= MAX_UINT128 && s.inAMM + s.deposited <= MAX_UINT128
    requires TotalAssets(Accrue(s, t, owner, false).value) > 0
    ensures var r := UpdateBalancesAndSettle(s, t, Settlement(owner, true, 0, s.deposited, s.deposited, 0));
            r.Ok? && r.value.vault.deposited == 0 && r.value.paid == 0
  {
    AccrueKeepsDeposits(s, t, owner, false);
    AccrueKeepsAMM(s, t, owner);
    hide Accrue, UpdateBalancesAndSettle;
    OpenAfter(s, t, Settlement(owner, true, 0, s.deposited, s.deposited, 0), Accrue(s, t, owner, false).value, 0);
  }

  lemma AccrueKeepsAMM(s: Vault, t: Tick, owner: Address)
    requires Accrue(s, t, owner, false).Ok?
    ensures Accrue(s, t, owner, false).value.inAMM == s.inAMM
  {
    hide TaylorCompounded, MulDivUp, UserInterest, PaymentOf;
  }

  const NoFees := RiskParameters(0, 0, 0, 0, 0, 0)

  /** A reachable case: on a fresh vault, the first opening without fees moves the virtual asset out. */
  lemma LastAssetCanLeave(epoch: nat)
    ensures SettleMint(Initial(epoch), Tick(epoch, 0), 1, 0, 1, 1, NoFees).Ok?
    ensures SettleMint(Initial(epoch), Tick(epoch, 0), 1, 0, 1, 1, NoFees).value.0.deposited == 0
  {
    var s, t := Initial(epoch), Tick(epoch, 0);
    assert Compound(s, t) == s;
    AccrueNothing(s, t, 1, false);
    hide Accrue, UpdateBalancesAndSettle;
    OpenAfter(s, t, Settlement(1, true, 0, 1, 1, 0), Accrue(s, t, 1, false).value, 0);
  }
}
