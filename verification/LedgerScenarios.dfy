/** How particular calls turn out, for runs that show what can happen. */
module LedgerScenarios {
  import opened Results
  import opened FixedPoint
  import opened Ledger
  import opened LedgerDilution
  import opened LedgerInterest
  import opened LedgerBucket

  /** The fees as they are deployed, with a builder to be paid. */
  const Deployed := RiskParameters(3, 250, 5000, 4000, 9, 8)

  lemma AppendCall(s: Vault, before: seq<(Tick, Call)>, t: Tick, c: Call)
    requires Run(s, before).Ok?
    ensures Run(s, before + [(t, c)]) == Step(Run(s, before).value, t, c)
    ensures ElapsedAccruals(s, before + [(t, c)]) == ElapsedAccruals(s, before) + Ticks(Run(s, before).value, t, c)
  {
    var calls := before + [(t, c)];
    assert calls[..|calls| - 1] == before;
    hide Step, Ticks;
  }

  lemma FirstCall(s: Vault, t: Tick, c: Call)
    ensures Run(s, [(t, c)]) == Step(s, t, c) && ElapsedAccruals(s, [(t, c)]) == Ticks(s, t, c)
  {
    assert [] + [(t, c)] == [(t, c)];
    AppendCall(s, [], t, c);
    hide Step, Ticks;
  }

  // ---------- accrual ----------

  /** Who borrows nothing pays nothing. */
  lemma PayNothing(c: Vault, owner: Address, skip: bool)
    requires BorrowerOf(c, owner).net <= 0
    ensures PayInterest(c, owner, skip)
            == Ok(c.(borrowers := c.borrowers[owner := Borrower(c.borrowIndex, BorrowerOf(c, owner).net)]))
  {
  }

  lemma AccrueNothing(s: Vault, t: Tick, owner: Address, skip: bool)
    requires BorrowerOf(s, owner).net <= 0 && TotalAssets(s) > 0
    ensures var c := Compound(s, t);
            Accrue(s, t, owner, skip)
            == Ok(c.(borrowers := c.borrowers[owner := Borrower(c.borrowIndex, BorrowerOf(c, owner).net)]))
  {
    PayNothing(Compound(s, t), owner, skip);
    hide PayInterest;
  }

  /** In the same epoch nothing accrues. */
  lemma SameEpoch(s: Vault, t: Tick)
    requires s.epoch == t.epoch
    ensures Compound(s, t) == s
  {
  }

  // ---------- deposits ----------

  lemma DepositAfter(s: Vault, t: Tick, caller: Address, assets: nat, a: Vault, shares: nat)
    requires Accrue(s, t, caller, true) == Ok(a) && ConvertToShares(a, assets) == Ok(shares)
    requires 0 < assets <= MAX_DEPOSIT && a.supply + shares <= MAX_UINT256 && a.deposited + assets <= MAX_UINT128
    ensures Deposit(s, t, caller, assets, caller)
            == Ok((a.(balances := a.balances[caller := BalanceOf(a, caller) + shares],
                      supply := a.supply + shares, deposited := a.deposited + assets), shares))
  {
    hide Accrue, ConvertToShares;
  }

  /** The vault after a first deposit by user 1: a million shares for each asset. */
  function Deposited(assets: nat): Vault {
    Vault(assets + 1, 0, 0, (assets + 1) * VIRTUAL_SHARES, 0, WAD, 0,
          map[1 := assets * VIRTUAL_SHARES], map[], map[1 := Borrower(WAD, 0)])
  }

  lemma FirstDeposit(assets: nat, rate: nat)
    requires 0 < assets <= MAX_DEPOSIT
    ensures Deposit(Initial(0), Tick(0, rate), 1, assets, 1) == Ok((Deposited(assets), assets * VIRTUAL_SHARES))
  {
    hide Accrue, Deposit;
    var s0, t := Initial(0), Tick(0, rate);
    var a := s0.(borrowers := map[1 := Borrower(WAD, 0)]);
    SameEpoch(s0, t);
    AccrueNothing(s0, t, 1, true);
    assert Accrue(s0, t, 1, true) == Ok(a);
    assert MulDiv(assets, VIRTUAL_SHARES, 1) == assets * VIRTUAL_SHARES;
    DepositAfter(s0, t, 1, assets, a, assets * VIRTUAL_SHARES);
    assert a.balances[1 := assets * VIRTUAL_SHARES] == map[1 := assets * VIRTUAL_SHARES];
  }

  // ---------- openings ----------

  /** An opening with nothing due. */
  lemma OpenAfter(s: Vault, t: Tick, x: Settlement, a: Vault, credit: nat)
    requires x.opening && x.ammDelta == NetBorrows(x) && x.premium == 0
    requires Accrue(s, t, x.owner, false) == Ok(a) && CreditOf(a, x) == Ok(credit)
    requires 0 <= a.deposited - x.ammDelta <= MAX_UINT128 && a.inAMM + x.short <= MAX_UINT128
    requires TotalAssets(a) + x.long > 0
    ensures UpdateBalancesAndSettle(s, t, x)
            == Ok(Settled(a.(credited := a.credited + credit, deposited := a.deposited - x.ammDelta,
                             inAMM := a.inAMM + x.short, borrowers := a.borrowers[x.owner := Lent(a, x)]),
                          0, TotalAssets(a), TotalSupply(a)))
  {
    hide Accrue, CreditOf;
  }

  function Lent(a: Vault, x: Settlement): Borrower {
    Borrower(BorrowerOf(a, x.owner).index, BorrowerOf(a, x.owner).net + NetBorrows(x))
  }

  /** What is moved of `n` shares of commission. */
  function Moved(n: nat, r: RiskParameters): nat {
    n * r.protocolSplit / DECIMALS + n * r.builderSplit / DECIMALS
  }

  /** A commission that is moved leaves all but the balances alone, and takes its parts from the owner. */
  lemma MovedCommission(d: Settled, owner: Address, fee: nat, r: RiskParameters)
    requires d.assets > 0 && r.feeRecipient != 0 && r.protocolSplit + r.builderSplit <= DECIMALS
    requires owner != r.riskEngine && owner != r.feeRecipient
    requires BalanceOf(d.vault, owner) >= MulDivUp(fee, d.shares, d.assets)
    ensures TakeCommission(d, owner, fee, r).Ok?
    ensures var v := TakeCommission(d, owner, fee, r).value;
            && v == d.vault.(balances := v.balances)
            && BalanceOf(v, owner) == BalanceOf(d.vault, owner) - Moved(MulDivUp(fee, d.shares, d.assets), r)
  {
    CommissionSplitNeverOverdraws(d, owner, fee, r);
    SplitFits(MulDivUp(fee, d.shares, d.assets), r.protocolSplit, r.builderSplit);
    hide MulDivUp;
  }

  /** An opening whose commission goes to a builder. */
  lemma MintAfter(s: Vault, t: Tick, x: Settlement, r: RiskParameters, d: Settled)
    requires x.opening && x.premium == 0 && UpdateBalancesAndSettle(s, t, x) == Ok(d)
    requires d.assets > 0 && r.feeRecipient != 0 && r.protocolSplit + r.builderSplit <= DECIMALS
    requires x.owner != r.riskEngine && x.owner != r.feeRecipient
    requires BalanceOf(d.vault, x.owner) >= MulDivUp(OpeningFee(x, r), d.shares, d.assets)
    ensures SettleMint(s, t, x.owner, x.long, x.short, x.ammDelta, r).Ok?
    ensures var v := SettleMint(s, t, x.owner, x.long, x.short, x.ammDelta, r).value.0;
            && v == d.vault.(balances := v.balances)
            && BalanceOf(v, x.owner)
                 == BalanceOf(d.vault, x.owner) - Moved(MulDivUp(OpeningFee(x, r), d.shares, d.assets), r)
  {
    MovedCommission(d, x.owner, OpeningFee(x, r), r);
    hide UpdateBalancesAndSettle, TakeCommission, OpeningFee, MulDivUp;
  }
}
