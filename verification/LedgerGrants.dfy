/** Grants over whole runs: nobody takes more of another's shares than was approved, and nobody else takes any. */
module LedgerGrants {
  import opened FixedPoint
  import opened Ledger
  import opened LedgerInterest
  import opened LedgerAccrual
  import opened LedgerCalls

  /** The shares of `owner` that a call takes on behalf of `spender`: by withdrawing or redeeming for another, or by
      transferring from an owner. */
  function TakenIn(s: Vault, t: Tick, c: Call, owner: Address, spender: Address): nat {
    match c
    case WithdrawCall(caller, assets, from, legs) =>
      var r := Withdraw(s, t, caller, assets, from, legs);
      if (from, caller) == (owner, spender) && owner != spender && r.Ok? then r.value.1 else 0
    case WithdrawWithPositionsCall(caller, assets, from, solvent) =>
      var r := WithdrawWithPositions(s, t, caller, assets, from, solvent);
      if (from, caller) == (owner, spender) && owner != spender && r.Ok? then r.value.1 else 0
    case RedeemCall(caller, shares, from, _) =>
      if (from, caller) == (owner, spender) && owner != spender then shares else 0
    case TransferFromCall(caller, from, _, amount, _) => if (from, caller) == (owner, spender) then amount else 0
    case _ => 0
  }

  /** What a call approves. */
  function ApprovedIn(c: Call, owner: Address, spender: Address): nat {
    if c.ApproveCall? && (c.owner, c.spender) == (owner, spender) then c.amount else 0
  }

  /** A call sets a grant, or takes shares within it and lowers it by them, or leaves it alone. */
  ghost predicate GrantStep(before: nat, after: nat, taken: nat, approval: bool, approved: nat) {
    if approval then after == approved && taken == 0
    else Covers(before, taken) && after == if before == MAX_UINT256 then before else before - taken
  }

  predicate Approves(c: Call, owner: Address, spender: Address) {
    c.ApproveCall? && (c.owner, c.spender) == (owner, spender)
  }

  lemma StepUsesGrant(s: Vault, t: Tick, c: Call, owner: Address, spender: Address)
    requires Step(s, t, c).Ok?
    ensures GrantStep(Grant(s, owner, spender), Grant(Step(s, t, c).value, owner, spender),
                      TakenIn(s, t, c, owner, spender), Approves(c, owner, spender), ApprovedIn(c, owner, spender))
  {
    hide Accrue, Deposit, Mint, Withdraw, WithdrawWithPositions, Redeem, Transfer, TransferFrom, Refund;
    hide SettleMint, SettleBurn, SettleLiquidation, MulDivUp, MulDiv, Withdrawable, Redeemable, Gains, Hands;
    match c
    case WithdrawCall(caller, assets, from, legs) =>
      WithdrawExactly(s, t, caller, assets, from, legs);
      GrantsStay(s, t, from, false);
    case WithdrawWithPositionsCall(caller, assets, from, solvent) =>
      WithdrawWithPositionsExactly(s, t, caller, assets, from, solvent);
      GrantsStay(s, t, from, false);
    case RedeemCall(caller, shares, from, legs) =>
      RedeemExactly(s, t, caller, shares, from, legs);
      GrantsStay(s, t, from, false);
    case TransferFromCall(caller, from, to, amount, legs) =>
      TransferFromExactly(s, t, caller, from, to, amount, legs);
      GrantsStay(s, t, from, false);
    case ApproveCall(from, p, amount) => ApproveExactly(s, t, from, p, amount);
    case _ => OtherCallsKeepGrants(s, t, c);
  }

  lemma OtherCallsKeepGrants(s: Vault, t: Tick, c: Call)
    requires Step(s, t, c).Ok?
    requires !c.WithdrawCall? && !c.WithdrawWithPositionsCall? && !c.RedeemCall?
    requires !c.TransferFromCall? && !c.ApproveCall?
    ensures Step(s, t, c).value.allowances == s.allowances
  {
    hide Accrue, Deposit, Mint, Transfer, SettleMint, SettleBurn, MulDivUp, MulDiv, Gains, Hands, SettleLiquidation;
    match c
    case AccrueCall(owner) => GrantsStay(s, t, owner, false);
    case DepositCall(caller, assets, receiver) =>
      DepositExactly(s, t, caller, assets, receiver);
      GrantsStay(s, t, caller, true);
    case MintCall(caller, shares, receiver) =>
      MintExactly(s, t, caller, shares, receiver);
      GrantsStay(s, t, caller, true);
    case TransferCall(caller, to, amount, legs) =>
      TransferExactly(s, t, caller, to, amount, legs);
      GrantsStay(s, t, caller, false);
    case SettleMintCall(owner, _, _, _, _) => SettlementKeepsGrants(s, t, c);
    case SettleBurnCall(owner, _, _, _, _, _) => SettlementKeepsGrants(s, t, c);
    case SettleLiquidationCall(liquidator, liquidatee, bonus) =>
      LiquidationKeepsGrants(s, liquidator, liquidatee, bonus);
    case _ =>
  }

  lemma SettlementKeepsGrants(s: Vault, t: Tick, c: Call)
    requires Step(s, t, c).Ok? && (c.SettleMintCall? || c.SettleBurnCall?)
    ensures Step(s, t, c).value.allowances == s.allowances
  {
    var x := SettlementOf(c);
    var d := UpdateBalancesAndSettle(s, t, x).value;
    SettledKeepsGrants(s, t, x);
    hide UpdateBalancesAndSettle, TakeCommission;
    if c.SettleMintCall? {
      CommissionKeepsGrants(d, c.owner, OpeningFee(x, c.risk), c.risk);
    } else if c.premium != 0 {
      CommissionKeepsGrants(d, c.owner, ClosingFee(x, c.risk), c.risk);
    }
    hide OpeningFee, ClosingFee;
  }

  lemma SettledKeepsGrants(s: Vault, t: Tick, x: Settlement)
    requires UpdateBalancesAndSettle(s, t, x).Ok?
    ensures UpdateBalancesAndSettle(s, t, x).value.vault.allowances == s.allowances
  {
    GrantsStay(s, t, x.owner, false);
    hide Accrue, CreditAfter, MulDiv, MulDivUp;
  }

  lemma CommissionKeepsGrants(d: Settled, owner: Address, fee: nat, r: RiskParameters)
    requires TakeCommission(d, owner, fee, r).Ok?
    ensures TakeCommission(d, owner, fee, r).value.allowances == d.vault.allowances
  {
    hide MulDivUp;
  }

  lemma LiquidationKeepsGrants(s: Vault, liquidator: Address, liquidatee: Address, bonus: int)
    requires SettleLiquidation(s, liquidator, liquidatee, bonus).Ok?
    ensures SettleLiquidation(s, liquidator, liquidatee, bonus).value.vault.allowances == s.allowances
  {
    hide MulDiv, BonusMint;
  }

  // ---------- over a run ----------

  ghost function Taken(s: Vault, calls: seq<(Tick, Call)>, owner: Address, spender: Address): nat {
    if calls == [] then 0
    else
      var before, last := calls[..|calls| - 1], calls[|calls| - 1];
      Taken(s, before, owner, spender)
        + (if Run(s, before).Ok? then TakenIn(Run(s, before).value, last.0, last.1, owner, spender) else 0)
  }

  function Approved(calls: seq<(Tick, Call)>, owner: Address, spender: Address): nat {
    if calls == [] then 0
    else Approved(calls[..|calls| - 1], owner, spender) + ApprovedIn(calls[|calls| - 1].1, owner, spender)
  }

  /** Over every run without an unlimited approval, what a spender took of an owner's shares and what it may still take
      are together at most all the owner ever approved for it. */
  lemma {:induction false} NeverTakesMoreThanApproved(epoch: nat, calls: seq<(Tick, Call)>, owner: Address,
                                                      spender: Address)
    requires Run(Initial(epoch), calls).Ok?
    requires forall i :: 0 <= i < |calls| && Approves(calls[i].1, owner, spender) ==> calls[i].1.amount < MAX_UINT256
    ensures var s := Run(Initial(epoch), calls).value;
            && Grant(s, owner, spender) < MAX_UINT256
            && Taken(Initial(epoch), calls, owner, spender) + Grant(s, owner, spender)
               <= Approved(calls, owner, spender)
  {
    if calls != [] {
      var n := |calls| - 1;
      var s := Run(Initial(epoch), calls[..n]).value;
      NeverTakesMoreThanApproved(epoch, calls[..n], owner, spender);
      hide Step, Initial, Grant, TakenIn;
      StepUsesGrant(s, calls[n].0, calls[n].1, owner, spender);
      hide Run;
    }
  }

  // ---------- one's own shares ----------

  /** Calls that only the pool makes. */
  predicate IsPoolCall(c: Call) {
    || c.DelegateCall? || c.RevokeCall? || c.RefundCall?
    || c.SettleMintCall? || c.SettleBurnCall? || c.SettleLiquidationCall?
  }

  /** Who makes a call. */
  function CallerOf(c: Call): Address
    requires !IsPoolCall(c)
  {
    if c.AccrueCall? || c.ApproveCall? then c.owner else c.caller
  }

  /** A call of anybody else takes no more shares of a user who owes no interest than the user granted the caller. */
  lemma OthersTakeOnlyGrants(s: Vault, t: Tick, c: Call, u: Address)
    requires Indexed(s) && Step(s, t, c).Ok? && !IsPoolCall(c) && CallerOf(c) != u && BorrowerOf(s, u).net <= 0
    ensures BalanceOf(Step(s, t, c).value, u) >= BalanceOf(s, u) - TakenIn(s, t, c, u, CallerOf(c))
    ensures Covers(Grant(s, u, CallerOf(c)), TakenIn(s, t, c, u, CallerOf(c)))
  {
    StepUsesGrant(s, t, c, u, CallerOf(c));
    hide Step, Grant, Covers, GrantStep, Indexed, TakenIn;
    if c.WithdrawCall? || c.WithdrawWithPositionsCall? || c.RedeemCall? {
      PayingCallTakesGrant(s, t, c, u);
    } else {
      OtherCallTakesGrant(s, t, c, u);
    }
  }

  lemma PayingCallTakesGrant(s: Vault, t: Tick, c: Call, u: Address)
    requires Indexed(s) && Step(s, t, c).Ok? && BorrowerOf(s, u).net <= 0
    requires c.WithdrawCall? || c.WithdrawWithPositionsCall? || c.RedeemCall?
    requires CallerOf(c) != u
    ensures BalanceOf(Step(s, t, c).value, u) >= BalanceOf(s, u) - TakenIn(s, t, c, u, CallerOf(c))
  {
    AccrualSpares(s, t, c.owner, false, u);
    hide Accrue, Withdraw, WithdrawWithPositions, Redeem, MulDivUp, MulDiv;
    hide Withdrawable, Redeemable, GrantUsedByOthers, Granted, Indexed;
    match c
    case WithdrawCall(caller, assets, from, legs) => WithdrawExactly(s, t, caller, assets, from, legs);
    case WithdrawWithPositionsCall(caller, assets, from, solvent) =>
      WithdrawWithPositionsExactly(s, t, caller, assets, from, solvent);
    case RedeemCall(caller, shares, from, legs) => RedeemExactly(s, t, caller, shares, from, legs);
  }

  lemma OtherCallTakesGrant(s: Vault, t: Tick, c: Call, u: Address)
    requires Indexed(s) && Step(s, t, c).Ok? && BorrowerOf(s, u).net <= 0
    requires !IsPoolCall(c) && !c.WithdrawCall? && !c.WithdrawWithPositionsCall? && !c.RedeemCall?
    requires CallerOf(c) != u
    ensures BalanceOf(Step(s, t, c).value, u) >= BalanceOf(s, u) - TakenIn(s, t, c, u, CallerOf(c))
  {
    hide Accrue, Deposit, Mint, Transfer, TransferFrom, MulDivUp, MulDiv, GrantUsed, Indexed;
    match c
    case AccrueCall(owner) => AccrualSpares(s, t, owner, false, u);
    case DepositCall(caller, assets, receiver) =>
      DepositExactly(s, t, caller, assets, receiver);
      AccrualSpares(s, t, caller, true, u);
    case MintCall(caller, shares, receiver) =>
      MintExactly(s, t, caller, shares, receiver);
      AccrualSpares(s, t, caller, true, u);
    case TransferCall(caller, to, amount, legs) =>
      TransferExactly(s, t, caller, to, amount, legs);
      AccrualSpares(s, t, caller, false, u);
    case TransferFromCall(caller, from, to, amount, legs) =>
      TransferFromExactly(s, t, caller, from, to, amount, legs);
      AccrualSpares(s, t, from, false, u);
    case ApproveCall(from, p, amount) => ApproveExactly(s, t, from, p, amount);
  }

  /** Accruing takes no shares of a user who borrows nothing. */
  lemma AccrualSpares(s: Vault, t: Tick, owner: Address, skip: bool, u: Address)
    requires Indexed(s) && Accrue(s, t, owner, skip).Ok? && BorrowerOf(s, u).net <= 0
    ensures BalanceOf(Accrue(s, t, owner, skip).value, u) == BalanceOf(s, u)
  {
    AccrualExactly(s, t, owner, skip);
    CompoundExactly(s, t);
    hide Accrue, Compound, Indexed;
    assert BorrowerOf(Compound(s, t), u) == BorrowerOf(s, u) && BalanceOf(Compound(s, t), u) == BalanceOf(s, u);
  }
}
