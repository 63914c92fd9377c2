/** Interest: the borrow index, the users' checkpoints, and how far the bucket of unrealized
    interest may run ahead of what borrowers owe. */
module LedgerInterest {
  import opened Results
  import opened FixedPoint
  import opened Ledger

  // ---------- the index invariant ----------

  /** Checkpoints lie between the initial and the current index. */
  ghost predicate Indexed(s: Vault) {
    && WAD <= s.borrowIndex
    && forall u :: u in s.borrowers ==> WAD <= s.borrowers[u].index <= s.borrowIndex
  }

  /** The parts of the state that interest depends on are untouched. */
  ghost predicate SameInterest(s: Vault, v: Vault) {
    && v.unrealized == s.unrealized && v.inAMM == s.inAMM
    && v.borrowIndex == s.borrowIndex && v.borrowers == s.borrowers
  }

  lemma CompoundIndex(s: Vault, t: Tick)
    requires Indexed(s)
    ensures var c := Compound(s, t);
            && Indexed(c) && s.borrowIndex <= c.borrowIndex
            && c.borrowers == s.borrowers && c.inAMM == s.inAMM
            && s.borrowIndex * (WAD + Growth(s, t)) <= c.borrowIndex * WAD
            && (if Elapsed(s, t) > 0 then c.unrealized * WAD < s.unrealized * WAD + s.inAMM * Growth(s, t) + WAD
                else c.unrealized == s.unrealized)
  {
    hide TaylorCompounded;
    var c, g := Compound(s, t), Growth(s, t);
    if Elapsed(s, t) > 0 {
      Grows(s.borrowIndex, g, c.borrowIndex);
    }
  }

  function Growth(s: Vault, t: Tick): nat {
    if Elapsed(s, t) == 0 then 0 else TaylorCompounded(t.rate, Elapsed(s, t))
  }

  lemma Grows(index: nat, growth: nat, next: nat)
    requires index * (WAD + growth) <= next * WAD
    ensures index <= next
  {
    assert index * (WAD + growth) == index * WAD + index * growth;
  }

  /** The owner's entry afterwards, and nobody else's changed. */
  lemma PayInterestFrame(c: Vault, owner: Address, skip: bool)
    requires PayInterest(c, owner, skip).Ok?
    ensures var v := PayInterest(c, owner, skip).value;
            var p := PaymentOf(c, owner, skip).value;
            && v.borrowers == c.borrowers[owner := Checkpoint(c, owner, p.cleared)]
            && v.borrowIndex == c.borrowIndex && v.inAMM == c.inAMM
            && v.unrealized == Minus(c.unrealized, p.worth)
  {
  }

  /** Only a borrower who does not clear the debt keeps an old checkpoint. */
  lemma UnclearedIsBorrower(c: Vault, owner: Address, skip: bool)
    requires PaymentOf(c, owner, skip).Ok? && !PaymentOf(c, owner, skip).value.cleared
    ensures owner in c.borrowers && c.borrowers[owner].net > 0
  {
  }

  lemma PayInterestIndex(c: Vault, owner: Address, skip: bool)
    requires Indexed(c) && PayInterest(c, owner, skip).Ok?
    ensures Indexed(PayInterest(c, owner, skip).value)
  {
    PayInterestFrame(c, owner, skip);
    if !PaymentOf(c, owner, skip).value.cleared {
      UnclearedIsBorrower(c, owner, skip);
    }
  }

  lemma AccrueIndex(s: Vault, t: Tick, owner: Address, skip: bool)
    requires Indexed(s) && Accrue(s, t, owner, skip).Ok?
    ensures var v := Accrue(s, t, owner, skip).value;
            && Indexed(v) && s.borrowIndex <= v.borrowIndex && owner in v.borrowers
  {
    hide PayInterest, Compound;
    CompoundIndex(s, t);
    PayInterestIndex(Compound(s, t), owner, skip);
    PayInterestFrame(Compound(s, t), owner, skip);
  }

  /** The interest of a borrower is always the rounded-up growth since the checkpoint: neither the
      zero-index guard nor the revert on an index ahead of the vault's is ever reached. */
  lemma InterestIsDefined(s: Vault, u: Address)
    requires Indexed(s)
    ensures var b := BorrowerOf(s, u);
            && UserInterest(b, s.borrowIndex).Ok?
            && (b.net > 0 ==> b.index >= WAD && b.index <= s.borrowIndex
                              && UserInterest(b, s.borrowIndex).value
                                 == MulDivUp(b.net, s.borrowIndex - b.index, b.index))
  {
  }

  // ---------- calls in terms of accrual ----------

  /** Whose interest a call settles first, and whether payment is skipped. */
  datatype Accrual = NoAccrual | AccrualOf(owner: Address, skip: bool)

  function AccrualIn(c: Call): Accrual {
    match c
    case AccrueCall(owner) => AccrualOf(owner, false)
    case DepositCall(caller, _, _) => AccrualOf(caller, true)
    case MintCall(caller, _, _) => AccrualOf(caller, true)
    case WithdrawCall(_, _, owner, _) => AccrualOf(owner, false)
    case WithdrawWithPositionsCall(_, _, owner, _) => AccrualOf(owner, false)
    case RedeemCall(_, _, owner, _) => AccrualOf(owner, false)
    case TransferCall(caller, _, _, _) => AccrualOf(caller, false)
    case TransferFromCall(_, from, _, _, _) => AccrualOf(from, false)
    case SettleMintCall(owner, _, _, _, _) => AccrualOf(owner, false)
    case SettleBurnCall(owner, _, _, _, _, _) => AccrualOf(owner, false)
    case _ => NoAccrual
  }

  /** The vault a call works on once interest has been accrued. */
  function Accrued(s: Vault, t: Tick, c: Call): Result<Vault> {
    match AccrualIn(c)
    case NoAccrual => Ok(s)
    case AccrualOf(owner, skip) => Accrue(s, t, owner, skip)
  }

  function SettlementOf(c: Call): Settlement
    requires c.SettleMintCall? || c.SettleBurnCall?
  {
    if c.SettleMintCall? then Settlement(c.owner, true, c.long, c.short, c.ammDelta, 0)
    else Settlement(c.owner, false, c.long, c.short, c.ammDelta, c.premium)
  }

  /** After accrual, calls other than settlements leave interest alone. */
  lemma OtherCallsFrame(s: Vault, t: Tick, c: Call)
    requires Step(s, t, c).Ok? && !c.SettleMintCall? && !c.SettleBurnCall?
    ensures Accrued(s, t, c).Ok? && SameInterest(Accrued(s, t, c).value, Step(s, t, c).value)
  {
    hide Accrue, ConvertToShares, ConvertToAssets, DivUp, MulDivUp, MaxWithdrawWithPositions, MaxRedeem;
    hide SettleLiquidation;
    if c.SettleLiquidationCall? {
      LiquidationFrame(s, c.liquidator, c.liquidatee, c.bonus);
    }
  }

  lemma LiquidationFrame(s: Vault, liquidator: Address, liquidatee: Address, bonus: int)
    requires SettleLiquidation(s, liquidator, liquidatee, bonus).Ok?
    ensures SameInterest(s, SettleLiquidation(s, liquidator, liquidatee, bonus).value.vault)
  {
    hide ConvertToShares, BonusMint, Min, Minus;
  }

  /** A settlement books the net borrowed amount and the assets in the AMM. */
  ghost predicate Books(a: Vault, v: Vault, x: Settlement) {
    && v.unrealized == a.unrealized && v.borrowIndex == a.borrowIndex
    && v.inAMM == (if x.opening then a.inAMM + x.short else a.inAMM - x.short)
    && v.borrowers == a.borrowers[x.owner := Borrower(BorrowerOf(a, x.owner).index,
                                                      BorrowerOf(a, x.owner).net + NetBorrows(x))]
  }

  lemma SettlementFrame(s: Vault, t: Tick, c: Call)
    requires Step(s, t, c).Ok? && (c.SettleMintCall? || c.SettleBurnCall?)
    ensures Accrued(s, t, c).Ok? && Books(Accrued(s, t, c).value, Step(s, t, c).value, SettlementOf(c))
  {
    hide Accrue, SettleMint, SettleBurn, Books;
    if c.SettleMintCall? {
      SettleMintFrame(s, t, c.owner, c.long, c.short, c.ammDelta, c.risk);
    } else {
      SettleBurnFrame(s, t, c.owner, c.long, c.short, c.ammDelta, c.premium, c.risk);
    }
  }

  lemma SettleMintFrame(s: Vault, t: Tick, owner: Address, long: nat, short: nat, ammDelta: int, r: RiskParameters)
    requires SettleMint(s, t, owner, long, short, ammDelta, r).Ok?
    ensures Accrue(s, t, owner, false).Ok?
    ensures Books(Accrue(s, t, owner, false).value, SettleMint(s, t, owner, long, short, ammDelta, r).value.0,
                  Settlement(owner, true, long, short, ammDelta, 0))
  {
    hide Accrue, UpdateBalancesAndSettle, TakeCommission, OpeningFee;
    var x := Settlement(owner, true, long, short, ammDelta, 0);
    UpdateFrame(s, t, x);
    CommissionFrame(UpdateBalancesAndSettle(s, t, x).value, owner, OpeningFee(x, r), r);
  }

  lemma SettleBurnFrame(s: Vault, t: Tick, owner: Address, long: nat, short: nat, ammDelta: int, premium: int,
                        r: RiskParameters)
    requires SettleBurn(s, t, owner, long, short, ammDelta, premium, r).Ok?
    ensures Accrue(s, t, owner, false).Ok?
    ensures Books(Accrue(s, t, owner, false).value, SettleBurn(s, t, owner, long, short, ammDelta, premium, r).value.0,
                  Settlement(owner, false, long, short, ammDelta, premium))
  {
    hide Accrue, UpdateBalancesAndSettle, TakeCommission, ClosingFee;
    var x := Settlement(owner, false, long, short, ammDelta, premium);
    UpdateFrame(s, t, x);
    if premium != 0 {
      CommissionFrame(UpdateBalancesAndSettle(s, t, x).value, owner, ClosingFee(x, r), r);
    }
  }

  lemma UpdateFrame(s: Vault, t: Tick, x: Settlement)
    requires UpdateBalancesAndSettle(s, t, x).Ok?
    ensures Accrue(s, t, x.owner, false).Ok?
    ensures Books(Accrue(s, t, x.owner, false).value, UpdateBalancesAndSettle(s, t, x).value.vault, x)
  {
    hide Accrue, DivUp, Div;
  }

  lemma CommissionFrame(d: Settled, owner: Address, fee: nat, r: RiskParameters)
    requires TakeCommission(d, owner, fee, r).Ok?
    ensures SameInterest(d.vault, TakeCommission(d, owner, fee, r).value)
  {
    hide DivUp;
  }

  lemma StepIndex(s: Vault, t: Tick, c: Call)
    requires Indexed(s) && Step(s, t, c).Ok?
    ensures Indexed(Step(s, t, c).value) && s.borrowIndex <= Step(s, t, c).value.borrowIndex
  {
    hide Accrue, Step;
    if c.SettleMintCall? || c.SettleBurnCall? {
      SettlementFrame(s, t, c);
      AccrueIndex(s, t, c.owner, false);
    } else {
      OtherCallsFrame(s, t, c);
      match AccrualIn(c)
      case NoAccrual =>
      case AccrualOf(owner, skip) => AccrueIndex(s, t, owner, skip);
    }
  }

  /** In every reachable state every checkpoint lies between 1e18 and the borrow index. */
  lemma {:induction false} IndexInvariant(epoch: nat, calls: seq<(Tick, Call)>)
    requires Run(Initial(epoch), calls).Ok?
    ensures Indexed(Run(Initial(epoch), calls).value)
  {
    if calls == [] {
    } else {
      var n := |calls| - 1;
      IndexInvariant(epoch, calls[..n]);
      StepIndex(Run(Initial(epoch), calls[..n]).value, calls[n].0, calls[n].1);
    }
  }

  /** The borrow index never decreases along a run. */
  lemma {:induction false} IndexNeverDecreases(s: Vault, calls: seq<(Tick, Call)>)
    requires Indexed(s) && Run(s, calls).Ok?
    ensures Indexed(Run(s, calls).value) && s.borrowIndex <= Run(s, calls).value.borrowIndex
  {
    if calls == [] {
    } else {
      var n := |calls| - 1;
      IndexNeverDecreases(s, calls[..n]);
      StepIndex(Run(s, calls[..n]).value, calls[n].0, calls[n].1);
    }
  }
}
