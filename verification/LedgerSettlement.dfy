/** What a settlement and its commission do, in amounts: shares, credit, loans and who is paid. `a` is the vault once
    interest has been accrued. */
module LedgerSettlement {
  import opened Results
  import opened FixedPoint
  import opened Ledger
  import opened LedgerDilution
  import opened LedgerCalls

  /** `n` is the largest number of `d`s within `x`; both may be negative. */
  predicate RoundsDown(n: int, x: int, d: nat) {
    n * d <= x < n * d + d
  }

  /** `n` is the smallest number of `d`s that reach `x`. */
  predicate RoundsUp(n: int, x: int, d: nat) {
    n * d - d < x <= n * d
  }

  // ---------- settlement ----------

  /** Opening credits a long amount in shares rounded up; closing takes it off rounded down, as far as there is credit.
      Shares beyond the credit are owed as `haircut`, in assets rounded up. */
  ghost predicate Credits(a: Vault, v: Vault, x: Settlement, haircut: nat) {
    var assets, shares := TotalAssets(a), TotalSupply(a);
    if x.long == 0 then v.credited == a.credited && haircut == 0
    else if x.opening then RoundsUp(v.credited - a.credited, x.long * shares, assets) && haircut == 0
    else
      exists credit: nat ::
        && RoundsDown(credit, x.long * shares, assets)
        && v.credited == Minus(a.credited, credit)
        && if credit <= a.credited then haircut == 0 else RoundsUp(haircut, (credit - a.credited) * assets, shares)
  }

  /** The owner alone is charged, or paid: its shares change by the largest number worth at most what it is due. */
  ghost predicate Charges(a: Vault, v: Vault, owner: Address, due: int) {
    if due == 0 then Gains(a, v, owner, 0)
    else
      && RoundsDown(v.supply - a.supply, (0 - due) * TotalSupply(a), TotalAssets(a))
      && Gains(a, v, owner, v.supply - a.supply)
  }

  /** Deposited assets give what goes into the AMM and take the premium; the AMM's assets and the owner's loan move by
      the short amount, the loan also by the long one. */
  ghost predicate Books(a: Vault, v: Vault, x: Settlement) {
    && v.deposited == a.deposited - x.ammDelta + x.premium
    && v.inAMM == (if x.opening then a.inAMM + x.short else a.inAMM - x.short)
    && (var b := BorrowerOf(a, x.owner);
        var change := if x.opening then x.short - x.long else x.long - x.short;
        v.borrowers == a.borrowers[x.owner := Borrower(b.index, b.net + change)])
    && v == a.(deposited := v.deposited, inAMM := v.inAMM, credited := v.credited, supply := v.supply,
               balances := v.balances, borrowers := v.borrowers)
  }

  /** The whole outcome, with what the owner pays. */
  ghost predicate Settles(a: Vault, v: Vault, x: Settlement, paid: int) {
    var change := if x.opening then x.short - x.long else x.long - x.short;
    var haircut := paid - (x.ammDelta - change - x.premium);
    && haircut >= 0 && Credits(a, v, x, haircut) && Charges(a, v, x.owner, paid) && Books(a, v, x)
  }

  lemma SettlementExactly(s: Vault, t: Tick, x: Settlement)
    requires UpdateBalancesAndSettle(s, t, x).Ok?
    ensures Accrue(s, t, x.owner, false).Ok?
    ensures var a, d := Accrue(s, t, x.owner, false).value, UpdateBalancesAndSettle(s, t, x).value;
            && Settles(a, d.vault, x, d.paid) && d.assets == TotalAssets(a) && d.shares == TotalSupply(a)
            && d.vault.deposited <= MAX_UINT128 && d.vault.inAMM <= MAX_UINT128 && TotalAssets(d.vault) > 0
  {
    hide Accrue, CreditAfter, ChargeOwner;
    var a := Accrue(s, t, x.owner, false).value;
    var (credited, haircut) := CreditAfter(a, x).value;
    CreditExactly(a, x);
    var d := UpdateBalancesAndSettle(s, t, x).value;
    var c := a.(credited := credited);
    ChargeExactly(a, c, x.owner, d.paid);
    hide Credits, Charges, Gains;
    SameCredit(a, c, d.vault, x, haircut);
    SameCharge(a, c, ChargeOwner(a, c, x.owner, d.paid).value, d.vault, x.owner, d.paid);
  }

  lemma SameCredit(a: Vault, c: Vault, v: Vault, x: Settlement, haircut: nat)
    requires Credits(a, c, x, haircut) && v.credited == c.credited
    ensures Credits(a, v, x, haircut)
  {
  }

  lemma SameCharge(a: Vault, c: Vault, v: Vault, w: Vault, owner: Address, due: int)
    requires c == a.(credited := c.credited) && ChargedAt(a, c, v, owner, due)
    requires w.balances == v.balances && w.supply == v.supply
    ensures Charges(a, w, owner, due)
  {
    forall u
      ensures BalanceOf(w, u) == BalanceOf(v, u) && BalanceOf(c, u) == BalanceOf(a, u)
    {
    }
  }

  ghost predicate ChargedAt(a: Vault, s: Vault, v: Vault, owner: Address, due: int) {
    && (if due == 0 then v.supply == s.supply
        else RoundsDown(v.supply - s.supply, (0 - due) * TotalSupply(a), TotalAssets(a)))
    && Gains(s, v, owner, v.supply - s.supply)
  }

  lemma CreditExactly(a: Vault, x: Settlement)
    requires CreditAfter(a, x).Ok?
    ensures Credits(a, a.(credited := CreditAfter(a, x).value.0), x, CreditAfter(a, x).value.1)
    ensures CreditAfter(a, x).value.1 <= MAX_UINT128
  {
    var credit := CreditOf(a, x).value;
    if x.long > 0 && !x.opening {
      assert RoundsDown(credit, x.long * TotalSupply(a), TotalAssets(a));
    }
    hide MulDiv, MulDivUp;
  }

  lemma ChargeExactly(a: Vault, s: Vault, owner: Address, due: int)
    requires ChargeOwner(a, s, owner, due).Ok?
    ensures ChargedAt(a, s, ChargeOwner(a, s, owner, due).value, owner, due)
    ensures ChargeOwner(a, s, owner, due).value == s.(balances := ChargeOwner(a, s, owner, due).value.balances,
                                                      supply := ChargeOwner(a, s, owner, due).value.supply)
  {
    hide MulDiv, MulDivUp;
    if due > 0 {
      var n := DivUp(due, TotalSupply(a), TotalAssets(a)).value;
      assert (0 - n) * TotalAssets(a) == 0 - n * TotalAssets(a);
      assert (0 - due) * TotalSupply(a) == 0 - due * TotalSupply(a);
    }
  }

  // ---------- when a settlement reverts ----------

  /** The shares that are to leave the owner, or to be created. */
  predicate CanCharge(a: Vault, s: Vault, owner: Address, due: int) {
    && (due != 0 ==> TotalAssets(a) > 0)
    && (due > 0 ==> MulDivUp(due, TotalSupply(a), TotalAssets(a)) <= Min(BalanceOf(s, owner), s.supply))
    && (due < 0 ==> s.supply + MulDiv(0 - due, TotalSupply(a), TotalAssets(a)) <= MAX_UINT256)
  }

  /** A settlement reverts exactly when the price is undefined, the haircut does not fit, the owner lacks the shares,
      a total does not fit its field, or no assets would be left. */
  lemma SettlementReverts(s: Vault, t: Tick, x: Settlement)
    requires Accrue(s, t, x.owner, false).Ok?
    ensures var a := Accrue(s, t, x.owner, false).value;
            var credit := CreditAfter(a, x);
            && (credit.Ok? <==>
                  && (x.long > 0 ==> TotalAssets(a) > 0)
                  && (x.long > 0 && !x.opening && MulDiv(x.long, TotalSupply(a), TotalAssets(a)) > a.credited ==>
                        && TotalSupply(a) > 0
                        && MulDivUp(MulDiv(x.long, TotalSupply(a), TotalAssets(a)) - a.credited, TotalAssets(a),
                                    TotalSupply(a)) <= MAX_UINT128))
            && (UpdateBalancesAndSettle(s, t, x).Ok? <==>
                  && credit.Ok?
                  && CanCharge(a, a, x.owner, x.ammDelta - NetBorrows(x) - x.premium + credit.value.1)
                  && 0 <= a.deposited - x.ammDelta + x.premium <= MAX_UINT128
                  && 0 <= (if x.opening then a.inAMM + x.short else a.inAMM - x.short) <= MAX_UINT128
                  && a.deposited - x.ammDelta + x.premium + a.unrealized
                     + (if x.opening then a.inAMM + x.short else a.inAMM - x.short) > 0)
  {
    var a := Accrue(s, t, x.owner, false).value;
    CreditReverts(a, x);
    hide Accrue, CreditAfter, MulDiv, MulDivUp, CanCharge;
    if CreditAfter(a, x).Ok? {
      var (credited, haircut) := CreditAfter(a, x).value;
      ChargeReverts(a, a.(credited := credited), x.owner, x.ammDelta - NetBorrows(x) - x.premium + haircut);
    }
    hide ChargeOwner;
  }

  lemma CreditReverts(a: Vault, x: Settlement)
    ensures CreditAfter(a, x).Ok? <==>
              && (x.long > 0 ==> TotalAssets(a) > 0)
              && (x.long > 0 && !x.opening && MulDiv(x.long, TotalSupply(a), TotalAssets(a)) > a.credited ==>
                    && TotalSupply(a) > 0
                    && MulDivUp(MulDiv(x.long, TotalSupply(a), TotalAssets(a)) - a.credited, TotalAssets(a),
                                TotalSupply(a)) <= MAX_UINT128)
  {
    hide MulDiv, MulDivUp;
  }

  lemma ChargeReverts(a: Vault, s: Vault, owner: Address, due: int)
    requires s == a.(credited := s.credited)
    ensures ChargeOwner(a, s, owner, due).Ok? <==> CanCharge(a, a, owner, due)
    ensures ChargeOwner(a, s, owner, due).Ok? ==>
      var v := ChargeOwner(a, s, owner, due).value;
      v == s.(balances := v.balances, supply := v.supply)
  {
    hide MulDiv, MulDivUp;
  }

  // ---------- commission ----------

  /** `n` shares of commission leave the owner: all burned without a builder to pay, else split between the protocol
      and the builder, each part rounded down, and what the rounding leaves stays with the owner. */
  ghost predicate Commissions(m: Vault, v: Vault, owner: Address, n: nat, r: RiskParameters) {
    if r.feeRecipient == 0 then Gains(m, v, owner, 0 - n) && v == m.(balances := v.balances, supply := v.supply)
    else
      var toProtocol, toBuilder := n * r.protocolSplit / DECIMALS, n * r.builderSplit / DECIMALS;
      && v == m.(balances := v.balances)
      && forall w ::
           BalanceOf(v, w) == BalanceOf(m, w) - (if w == owner then toProtocol + toBuilder else 0)
                              + (if w == r.riskEngine then toProtocol else 0)
                              + (if w == r.feeRecipient then toBuilder else 0)
  }

  lemma CommissionExactly(d: Settled, owner: Address, fee: nat, r: RiskParameters)
    requires TakeCommission(d, owner, fee, r).Ok?
    ensures d.assets > 0
    ensures exists n: nat ::
              && RoundsUp(n, fee * d.shares, d.assets) && n <= BalanceOf(d.vault, owner)
              && Commissions(d.vault, TakeCommission(d, owner, fee, r).value, owner, n, r)
  {
    var n := MulDivUp(fee, d.shares, d.assets);
    assert RoundsUp(n, fee * d.shares, d.assets);
    hide MulDivUp, RoundsUp;
    if r.feeRecipient == 0 {
      Burned(d, owner, fee, r, n);
    } else {
      TwoMoves(d, owner, fee, r, n, n * r.protocolSplit / DECIMALS, n * r.builderSplit / DECIMALS);
    }
    hide Commissions, BurnShares, MoveShares;
  }

  lemma Burned(d: Settled, owner: Address, fee: nat, r: RiskParameters, n: nat)
    requires TakeCommission(d, owner, fee, r).Ok? && d.assets > 0 && r.feeRecipient == 0
    requires n == MulDivUp(fee, d.shares, d.assets)
    ensures Commissions(d.vault, TakeCommission(d, owner, fee, r).value, owner, n, r)
  {
    BurnExactly(d.vault, owner, n);
    hide BurnShares, Gains, MulDivUp;
  }

  lemma TwoMoves(d: Settled, owner: Address, fee: nat, r: RiskParameters, n: nat, toProtocol: nat, toBuilder: nat)
    requires TakeCommission(d, owner, fee, r).Ok? && d.assets > 0 && r.feeRecipient != 0
    requires n == MulDivUp(fee, d.shares, d.assets)
    requires toProtocol == n * r.protocolSplit / DECIMALS && toBuilder == n * r.builderSplit / DECIMALS
    ensures Commissions(d.vault, TakeCommission(d, owner, fee, r).value, owner, n, r)
  {
    hide MulDivUp;
  }

  /** The fee of an opening: the notional fee on both amounts, rounded up. */
  lemma OpeningFeeExactly(x: Settlement, r: RiskParameters)
    ensures RoundsUp(OpeningFee(x, r), (x.short + x.long) * r.notionalFee, DECIMALS)
  {
  }

  /** The fee of a closing is never above the premium fee and, where there is a notional amount, never above ten times
      the notional fee in its 16 bits; it is one of the two, and the first where there is no notional amount. */
  predicate IsClosingFee(f: nat, x: Settlement, r: RiskParameters) {
    var premium: nat := if x.premium > 0 then x.premium else 0 - x.premium;
    var onPremium := MulDivUp(premium, r.premiumFee, 10_000);
    var onNotional := MulDivUp(x.short + x.long, 10 * r.notionalFee % 0x1_0000, 10_000);
    && f <= onPremium && (f == onPremium || f == onNotional)
    && (if x.short + x.long > 0 then f <= onNotional else f == onPremium)
  }

  lemma ClosingFeeExactly(x: Settlement, r: RiskParameters)
    ensures IsClosingFee(ClosingFee(x, r), x, r)
  {
    hide MulDivUp;
  }

  /** With splits of at most the whole, a commission reverts exactly when the price is undefined or the owner lacks the
      shares. */
  lemma CommissionReverts(d: Settled, owner: Address, fee: nat, r: RiskParameters)
    requires r.protocolSplit + r.builderSplit <= DECIMALS
    ensures TakeCommission(d, owner, fee, r).Ok? <==>
              && d.assets > 0
              && MulDivUp(fee, d.shares, d.assets) <= BalanceOf(d.vault, owner)
              && (r.feeRecipient == 0 ==> MulDivUp(fee, d.shares, d.assets) <= d.vault.supply)
  {
    hide MulDivUp;
    if d.assets > 0 && r.feeRecipient != 0 {
      CommissionSplitNeverOverdraws(d, owner, fee, r);
    }
  }

  /** An opening settles, takes its commission at the price after accrual, and returns what the owner paid in all. */
  lemma SettleMintExactly(s: Vault, t: Tick, owner: Address, long: nat, short: nat, ammDelta: int, r: RiskParameters)
    requires SettleMint(s, t, owner, long, short, ammDelta, r).Ok?
    ensures Step(s, t, SettleMintCall(owner, long, short, ammDelta, r))
            == Ok(SettleMint(s, t, owner, long, short, ammDelta, r).value.0)
    ensures Accrue(s, t, owner, false).Ok?
    ensures var a := Accrue(s, t, owner, false).value;
            var (v, paid) := SettleMint(s, t, owner, long, short, ammDelta, r).value;
            && TotalAssets(a) > 0
            && exists m: Vault, fee: nat, n: nat ::
                 && Settles(a, m, Settlement(owner, true, long, short, ammDelta, 0), paid - fee)
                 && RoundsUp(fee, (short + long) * r.notionalFee, DECIMALS)
                 && RoundsUp(n, fee * TotalSupply(a), TotalAssets(a)) && n <= BalanceOf(m, owner)
                 && Commissions(m, v, owner, n, r)
  {
    var x := Settlement(owner, true, long, short, ammDelta, 0);
    hide UpdateBalancesAndSettle, TakeCommission, Settles, Commissions, OpeningFee, RoundsUp;
    var d := UpdateBalancesAndSettle(s, t, x).value;
    SettlementExactly(s, t, x);
    CommissionExactly(d, owner, OpeningFee(x, r), r);
    OpeningFeeExactly(x, r);
  }

  /** A closing likewise, except that without premium there is no commission. */
  lemma SettleBurnExactly(s: Vault, t: Tick, owner: Address, long: nat, short: nat, ammDelta: int, premium: int,
                          r: RiskParameters)
    requires SettleBurn(s, t, owner, long, short, ammDelta, premium, r).Ok?
    ensures Step(s, t, SettleBurnCall(owner, long, short, ammDelta, premium, r))
            == Ok(SettleBurn(s, t, owner, long, short, ammDelta, premium, r).value.0)
    ensures Accrue(s, t, owner, false).Ok?
    ensures var a := Accrue(s, t, owner, false).value;
            var (v, paid) := SettleBurn(s, t, owner, long, short, ammDelta, premium, r).value;
            var x := Settlement(owner, false, long, short, ammDelta, premium);
            && (premium == 0 ==> Settles(a, v, x, paid))
            && (premium != 0 ==>
                  && TotalAssets(a) > 0
                  && exists m: Vault, fee: nat, n: nat ::
                       && Settles(a, m, x, paid - fee)
                       && IsClosingFee(fee, x, r)
                       && RoundsUp(n, fee * TotalSupply(a), TotalAssets(a)) && n <= BalanceOf(m, owner)
                       && Commissions(m, v, owner, n, r))
  {
    var x := Settlement(owner, false, long, short, ammDelta, premium);
    hide UpdateBalancesAndSettle, TakeCommission, Settles, Commissions, ClosingFee, IsClosingFee, RoundsUp;
    var d := UpdateBalancesAndSettle(s, t, x).value;
    SettlementExactly(s, t, x);
    if premium != 0 {
      CommissionExactly(d, owner, ClosingFee(x, r), r);
      ClosingFeeExactly(x, r);
    }
  }
}
