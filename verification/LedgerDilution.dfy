/** What opening, closing and liquidating positions do to the price of a share. */
module LedgerDilution {
  import opened FixedPoint
  import opened Ledger
  import opened LedgerPrice

  /** The long amount with the sign with which it enters the vault. */
  function SignedLong(x: Settlement): int {
    if x.opening then x.long else 0 - x.long
  }

  /** The settlement moves assets between the owner, the AMM and the credit, and nowhere else. */
  lemma AssetsBalance(s: Vault, t: Tick, x: Settlement)
    requires UpdateBalancesAndSettle(s, t, x).Ok?
    ensures var a := Accrue(s, t, x.owner, false).value;
            var d := UpdateBalancesAndSettle(s, t, x).value;
            && TotalAssets(d.vault) == TotalAssets(a) + SignedLong(x) - d.paid + CreditAfter(a, x).value.1
            && d.assets == TotalAssets(a) && d.shares == TotalSupply(a)
  {
    hide Accrue;
  }

  /** Rounding in the credited shares costs holders less than one share. */
  lemma CreditRounding(a: Vault, x: Settlement)
    requires CreditAfter(a, x).Ok?
    ensures var (credited, haircut) := CreditAfter(a, x).value;
            && (x.long == 0 ==> credited == a.credited && haircut == 0)
            && (x.long > 0 ==> (credited - a.credited) * TotalAssets(a)
                                < (SignedLong(x) + haircut) * TotalSupply(a) + TotalAssets(a))
            && (TotalSupply(a) == 0 ==> credited == 0)
  {
    var (credited, haircut) := CreditAfter(a, x).value;
    var assets, shares := TotalAssets(a), TotalSupply(a);
    if x.long > 0 {
      var credit := CreditOf(a, x).value;
      if shares == 0 {
        CreditOfNothing(x.long, assets);
      }
      if !x.opening {
        if a.credited < credit {
          CreditClosed(credit, a.credited, haircut, x.long, assets, shares);
        } else {
          CreditClosed(credit, credit, 0, x.long, assets, shares);
        }
      }
    }
  }

  lemma CreditClosed(credit: int, removed: int, haircut: int, long: int, assets: int, shares: int)
    requires long * shares < credit * assets + assets
    requires (credit - removed) * assets <= haircut * shares
    ensures (0 - removed) * assets < (0 - long + haircut) * shares + assets
  {
    assert (credit - removed) * assets == credit * assets - removed * assets;
    assert (0 - long + haircut) * shares == haircut * shares - long * shares;
  }

  lemma CreditOfNothing(long: nat, assets: nat)
    requires assets > 0
    ensures MulDivUp(long, 0, assets) == 0 && MulDiv(long, 0, assets) == 0
  {
    NothingBought(long, assets);
    var q := MulDiv(long, 0, assets);
    if q >= 1 {
      MulLe(1, q, assets);
    }
  }

  /** Charging moves only the owner's shares, and the supply with them. */
  lemma ChargeFrame(a: Vault, s: Vault, owner: Address, due: int)
    requires ChargeOwner(a, s, owner, due).Ok?
    ensures var v := ChargeOwner(a, s, owner, due).value;
            && v == s.(balances := v.balances, supply := v.supply)
            && BalanceOf(v, owner) - BalanceOf(s, owner) == v.supply - s.supply
            && forall u :: u != owner ==> BalanceOf(v, u) == BalanceOf(s, u)
  {
  }

  /** Charging the owner never favours the owner. */
  lemma ChargeIsFair(a: Vault, s: Vault, owner: Address, due: int)
    requires ChargeOwner(a, s, owner, due).Ok?
    ensures var v := ChargeOwner(a, s, owner, due).value;
            && (v.supply - s.supply) * TotalAssets(a) <= (0 - due) * TotalSupply(a)
            && (TotalSupply(a) == 0 ==> v.supply == s.supply)
  {
    var assets, shares := TotalAssets(a), TotalSupply(a);
    if due > 0 {
      var n := DivUp(due, shares, assets).value;
      if shares == 0 {
        CreditOfNothing(due, assets);
      }
      BothNegated(n, assets, due, shares);
    } else if due < 0 && shares == 0 {
      CreditOfNothing(-due, assets);
    }
  }

  lemma BothNegated(n: int, assets: int, due: int, shares: int)
    requires due * shares <= n * assets
    ensures (0 - n) * assets <= (0 - due) * shares
  {
  }

  /** What `v` adds to the supply of `a` is paid for but for less than one share, at the price of `a`. */
  ghost predicate DilutedByLessThanOneShare(a: Vault, v: Vault) {
    TotalAssets(a) * (TotalSupply(v) - TotalSupply(a))
      < (TotalAssets(v) - TotalAssets(a)) * TotalSupply(a) + TotalAssets(a)
  }

  /** Opening or closing, with any sign of the amount due and any size of the credit closed,
      dilutes the other holders by strictly less than one share at the price after accrual;
      without a long amount the price does not fall at all. */
  lemma SettlementDilution(s: Vault, t: Tick, x: Settlement)
    requires UpdateBalancesAndSettle(s, t, x).Ok?
    ensures var d := UpdateBalancesAndSettle(s, t, x).value;
            var a := Accrue(s, t, x.owner, false).value;
            && (x.long > 0 || TotalAssets(a) > 0 ==> DilutedByLessThanOneShare(a, d.vault))
            && (x.long == 0 || TotalSupply(a) == 0 ==> PriceKept(a, d.vault))
  {
    hide Accrue, DilutedByLessThanOneShare, PriceKept;
    var a := Accrue(s, t, x.owner, false).value;
    var d := UpdateBalancesAndSettle(s, t, x).value;
    var (credited, haircut) := CreditAfter(a, x).value;
    var c := a.(credited := credited);
    AssetsBalance(s, t, x);
    CreditRounding(a, x);
    ChargeIsFair(a, c, x.owner, d.paid);
    ChargeFrame(a, c, x.owner, d.paid);
    var charged := ChargeOwner(a, c, x.owner, d.paid).value;
    assert TotalSupply(d.vault) == charged.supply + credited;
    FromMoves(a, d.vault, credited - a.credited, charged.supply - a.supply,
              SignedLong(x) + haircut, d.paid, x.long > 0);
  }

  /** Credit and charge, each rounded its own way, add up to the bound of the whole. */
  lemma FromMoves(a: Vault, v: Vault, credit: int, minted: int, long: int, paid: int, slack: bool)
    requires TotalSupply(v) == TotalSupply(a) + credit + minted
    requires TotalAssets(v) == TotalAssets(a) + long - paid
    requires if slack then credit * TotalAssets(a) < long * TotalSupply(a) + TotalAssets(a)
             else credit == 0 && long == 0
    requires minted * TotalAssets(a) <= (0 - paid) * TotalSupply(a)
    requires TotalSupply(a) == 0 ==> credit == 0 && minted == 0
    ensures slack || TotalAssets(a) > 0 ==> DilutedByLessThanOneShare(a, v)
    ensures !slack || TotalSupply(a) == 0 ==> PriceKept(a, v)
  {
    AddUp(TotalAssets(a), TotalSupply(a), credit, minted, long, paid);
    if !slack {
      FairExchange(a, v, long - paid, credit + minted);
    }
    hide TotalAssets, TotalSupply;
  }

  lemma AddUp(assets: int, shares: int, credit: int, minted: int, long: int, paid: int)
    ensures assets * (credit + minted) == credit * assets + minted * assets
    ensures (long - paid) * shares == long * shares + (0 - paid) * shares
  {
  }

  /** The commission leaves assets alone and only ever lowers the supply. */
  lemma CommissionKeepsBound(d: Settled, owner: Address, fee: nat, r: RiskParameters)
    requires TakeCommission(d, owner, fee, r).Ok?
    ensures var v := TakeCommission(d, owner, fee, r).value;
            && TotalAssets(v) == TotalAssets(d.vault) && TotalSupply(v) <= TotalSupply(d.vault)
            && v.credited == d.vault.credited
  {
  }

  lemma SmallerSupply(a: Vault, v: Vault, w: Vault)
    requires TotalAssets(w) == TotalAssets(v) && TotalSupply(w) <= TotalSupply(v)
    ensures DilutedByLessThanOneShare(a, v) ==> DilutedByLessThanOneShare(a, w)
    ensures PriceKept(a, v) ==> PriceKept(a, w)
  {
    MulLe(TotalSupply(w) - TotalSupply(a), TotalSupply(v) - TotalSupply(a), TotalAssets(a));
    MulLe(TotalSupply(w), TotalSupply(v), TotalAssets(a));
  }

  /** Splits that add up to at most the whole never overdraw the owner: once the owner
      holds the commission, paying it out cannot revert. */
  lemma CommissionSplitNeverOverdraws(d: Settled, owner: Address, fee: nat, r: RiskParameters)
    requires d.assets > 0 && r.feeRecipient != 0 && r.protocolSplit + r.builderSplit <= DECIMALS
    ensures TakeCommission(d, owner, fee, r).Ok? <==> BalanceOf(d.vault, owner) >= MulDivUp(fee, d.shares, d.assets)
  {
    hide MulDivUp;
    SplitFits(MulDivUp(fee, d.shares, d.assets), r.protocolSplit, r.builderSplit);
  }

  lemma SplitFits(shares: nat, p: nat, b: nat)
    requires p + b <= DECIMALS
    ensures shares * p / DECIMALS + shares * b / DECIMALS <= shares
  {
    MulLe(p + b, DECIMALS, shares);
    assert shares * p + shares * b == shares * (p + b);
  }

  // ---------- burned commission ----------

  /** The commission is burned when no builder is to be paid, and then takes at least one share. */
  predicate CommissionBurned(fee: nat, r: RiskParameters) {
    r.feeRecipient == 0 && fee > 0
  }

  lemma BurnedShares(d: Settled, owner: Address, fee: nat, r: RiskParameters)
    requires TakeCommission(d, owner, fee, r).Ok?
    ensures var v := TakeCommission(d, owner, fee, r).value;
            if CommissionBurned(fee, r) && d.shares > 0 then TotalSupply(v) < TotalSupply(d.vault)
            else TotalSupply(v) == TotalSupply(d.vault)
  {
    var n := DivUp(fee, d.shares, d.assets).value;
    if fee == 0 || d.shares == 0 {
      NoneUp(n, d.assets);
    } else {
      MulLe(1, fee, d.shares);
    }
    hide MulDivUp;
  }

  lemma NoneUp(n: nat, d: nat)
    ensures n * d - d < 0 ==> n == 0
  {
    if n > 0 {
      MulLe(1, n, d);
    }
  }

  /** One share burned makes up for a dilution by less than one. */
  lemma BurnMakesUp(a: Vault, v: Vault, w: Vault)
    requires DilutedByLessThanOneShare(a, v) && TotalSupply(a) > 0
    requires TotalAssets(w) == TotalAssets(v) && TotalSupply(w) < TotalSupply(v)
    ensures PriceKept(a, w)
  {
    MulLe(TotalSupply(w) - TotalSupply(a), TotalSupply(v) - TotalSupply(a) - 1, TotalAssets(a));
    Expand(TotalAssets(a), TotalSupply(a), TotalSupply(v) - TotalSupply(a), TotalSupply(w), TotalAssets(w));
    hide TotalAssets, TotalSupply;
  }

  lemma Expand(assets: int, shares: int, more: int, after: int, total: int)
    ensures (more - 1) * assets == assets * more - assets
    ensures (after - shares) * assets == assets * after - assets * shares
    ensures (total - assets) * shares == total * shares - assets * shares
  {
  }

  /** A settlement and its commission. */
  lemma CommissionedDilution(s: Vault, t: Tick, x: Settlement, fee: nat, r: RiskParameters)
    requires UpdateBalancesAndSettle(s, t, x).Ok?
    requires TakeCommission(UpdateBalancesAndSettle(s, t, x).value, x.owner, fee, r).Ok?
    ensures var a := Accrue(s, t, x.owner, false).value;
            var v := TakeCommission(UpdateBalancesAndSettle(s, t, x).value, x.owner, fee, r).value;
            && DilutedByLessThanOneShare(a, v)
            && (TotalSupply(a) == 0 ==> TotalSupply(v) == 0)
            && (x.long == 0 || CommissionBurned(fee, r) ==> PriceKept(s, v))
  {
    var a := Accrue(s, t, x.owner, false).value;
    var d := UpdateBalancesAndSettle(s, t, x).value;
    var v := TakeCommission(d, x.owner, fee, r).value;
    AccrueKeepsPrice(s, t, x.owner, false);
    AssetsBalance(s, t, x);
    SettlementDilution(s, t, x);
    CommissionKeepsBound(d, x.owner, fee, r);
    BurnedShares(d, x.owner, fee, r);
    CommissionNeedsAssets(d, x.owner, fee, r);
    hide UpdateBalancesAndSettle, Accrue, TakeCommission, PriceKept, DilutedByLessThanOneShare;
    SmallerSupply(a, d.vault, v);
    NoneFromNone(a, d.vault);
    if CommissionBurned(fee, r) && d.shares > 0 {
      BurnMakesUp(a, d.vault, v);
    }
    if x.long == 0 || CommissionBurned(fee, r) {
      PriceKeptTransitive(s, a, v);
    }
  }

  lemma NoneFromNone(a: Vault, v: Vault)
    ensures PriceKept(a, v) && TotalSupply(a) == 0 ==> TotalSupply(v) == 0
  {
  }

  lemma AccruesFirst(s: Vault, t: Tick, x: Settlement)
    requires UpdateBalancesAndSettle(s, t, x).Ok?
    ensures Accrue(s, t, x.owner, false).Ok?
  {
    hide Accrue;
  }

  lemma CommissionNeedsAssets(d: Settled, owner: Address, fee: nat, r: RiskParameters)
    requires TakeCommission(d, owner, fee, r).Ok?
    ensures d.assets > 0
  {
  }

  /** Any positive fee rate makes an opening of anything pay at least one asset. */
  lemma OpeningPays(x: Settlement, r: RiskParameters)
    requires r.notionalFee > 0 && x.short + x.long > 0
    ensures OpeningFee(x, r) > 0
  {
    MulLe(1, r.notionalFee, x.short + x.long);
  }

  /** The whole of an opening, commission included. With the commission burned, at any positive rate, it never lowers
      the price. */
  lemma SettleMintDilution(s: Vault, t: Tick, owner: Address, long: nat, short: nat, ammDelta: int, r: RiskParameters)
    requires SettleMint(s, t, owner, long, short, ammDelta, r).Ok?
    ensures var a := Accrue(s, t, owner, false).value;
            var v := SettleMint(s, t, owner, long, short, ammDelta, r).value.0;
            && DilutedByLessThanOneShare(a, v) && (TotalSupply(a) == 0 ==> TotalSupply(v) == 0)
            && (long == 0 || (r.feeRecipient == 0 && r.notionalFee > 0) ==> PriceKept(s, v))
  {
    var x := Settlement(owner, true, long, short, ammDelta, 0);
    hide UpdateBalancesAndSettle, TakeCommission, OpeningFee, PriceKept, DilutedByLessThanOneShare;
    CommissionedDilution(s, t, x, OpeningFee(x, r), r);
    if long > 0 && r.notionalFee > 0 {
      OpeningPays(x, r);
    }
  }

  /** The whole of a closing, commission included. With a positive commission burned it never lowers the price. */
  lemma SettleBurnDilution(s: Vault, t: Tick, owner: Address, long: nat, short: nat, ammDelta: int, premium: int,
                           r: RiskParameters)
    requires SettleBurn(s, t, owner, long, short, ammDelta, premium, r).Ok?
    ensures var a := Accrue(s, t, owner, false).value;
            var v := SettleBurn(s, t, owner, long, short, ammDelta, premium, r).value.0;
            var fee := ClosingFee(Settlement(owner, false, long, short, ammDelta, premium), r);
            && (long > 0 || TotalAssets(a) > 0 ==> DilutedByLessThanOneShare(a, v))
            && (TotalSupply(a) == 0 ==> TotalSupply(v) == 0)
            && (long == 0 || (premium != 0 && CommissionBurned(fee, r)) ==> PriceKept(s, v))
  {
    var x := Settlement(owner, false, long, short, ammDelta, premium);
    hide UpdateBalancesAndSettle, TakeCommission, ClosingFee, PriceKept, DilutedByLessThanOneShare;
    if premium != 0 {
      CommissionedDilution(s, t, x, ClosingFee(x, r), r);
    } else {
      SettlementDilution(s, t, x);
      AccruesFirst(s, t, x);
      AccrueKeepsPrice(s, t, owner, false);
      NoneFromNone(Accrue(s, t, owner, false).value, UpdateBalancesAndSettle(s, t, x).value.vault);
      if long == 0 {
        PriceKeptTransitive(s, Accrue(s, t, owner, false).value, UpdateBalancesAndSettle(s, t, x).value.vault);
      }
    }
  }
}
