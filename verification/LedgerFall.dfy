/** When a settlement of a long amount lowers the share price, exactly. */
module LedgerFall {
  import opened FixedPoint
  import opened Ledger
  import opened LedgerPrice
  import opened LedgerDilution

  /** What rounding `x / d` up to a whole number adds to `x`; what rounding down takes off `0 - x`. */
  function RoundingUp(x: int, d: nat): (r: nat)
    requires d > 0
    ensures r < d && exists q :: q * d == x + r
  {
    var r := (0 - x) % d;
    assert (x + r) % d == 0 by {
      WholeQuotient(x, d);
    }
    assert (x + r) / d * d == x + r;
    r
  }

  lemma WholeQuotient(x: int, d: nat)
    requires d > 0
    ensures (x + (0 - x) % d) % d == 0
  {
    var q := (0 - x) / d;
    assert x + (0 - x) % d == (0 - q) * d;
    Multiple(0 - q, d);
  }

  lemma Multiple(q: int, d: nat)
    requires d > 0
    ensures q * d % d == 0
  {
    var r, p := q * d % d, q * d / d;
    assert (q - p) * d == r;
    if q - p >= 1 {
      MulLe(1, q - p, d);
    } else if q - p <= -1 {
      MulLe(q - p, -1, d);
    }
  }

  /** There is one way only to round up. */
  lemma RoundsUp(x: int, d: nat, q: int, r: int)
    requires d > 0 && 0 <= r < d && q * d == x + r
    ensures r == RoundingUp(x, d)
  {
    var e := RoundingUp(x, d);
    var p :| p * d == x + e;
    assert (q - p) * d == r - e;
    if q - p >= 1 {
      MulLe(1, q - p, d);
    } else if q - p <= -1 {
      MulLe(q - p, -1, d);
    }
  }

  // ---------- what each rounding is worth ----------

  lemma CeilingRounds(x: nat, y: nat, d: nat)
    requires d > 0
    ensures MulDivUp(x, y, d) * d == x * y + RoundingUp(x * y, d)
  {
    var q := MulDivUp(x, y, d);
    hide MulDivUp, RoundingUp;
    RoundsUp(x * y, d, q, q * d - x * y);
  }

  lemma FloorRounds(x: nat, y: nat, d: nat)
    requires d > 0
    ensures MulDiv(x, y, d) * d == x * y - RoundingUp((0 - x) * y, d)
  {
    var q := MulDiv(x, y, d);
    hide MulDiv, RoundingUp;
    assert (0 - q) * d == 0 - q * d && (0 - x) * y == 0 - x * y;
    RoundsUp((0 - x) * y, d, 0 - q, x * y - q * d);
  }

  /** The credit gains the rounding; a haircut gives the rounding of its own back. */
  lemma CreditRounds(a: Vault, x: Settlement)
    requires CreditAfter(a, x).Ok? && x.long > 0
    ensures TotalAssets(a) > 0
    ensures var (credited, haircut) := CreditAfter(a, x).value;
            (credited - a.credited) * TotalAssets(a)
            == (SignedLong(x) + haircut) * TotalSupply(a)
               + RoundingUp(SignedLong(x) * TotalSupply(a), TotalAssets(a)) - HaircutRounding(a, x)
  {
    var (credited, haircut) := CreditAfter(a, x).value;
    var assets, shares, credit := TotalAssets(a), TotalSupply(a), CreditOf(a, x).value;
    if x.opening {
      CeilingRounds(x.long, shares, assets);
    } else {
      FloorRounds(x.long, shares, assets);
      if a.credited < credit {
        CeilingRounds(credit - a.credited, assets, shares);
      }
    }
    hide MulDiv, MulDivUp, RoundingUp;
    Products(credited - a.credited, credit, assets, SignedLong(x), haircut, shares, a.credited);
  }

  lemma Products(change: int, credit: int, assets: int, long: int, haircut: int, shares: int, had: int)
    ensures (long + haircut) * shares == long * shares + haircut * shares
    ensures (credit - had) * assets == credit * assets - had * assets
    ensures (0 - had) * assets == 0 - had * assets
    ensures (0 - credit) * assets == 0 - credit * assets
    ensures (0 - long) * shares == 0 - long * shares
  {
  }

  /** What rounding up the haircut is worth, when more is closed than is credited. */
  function HaircutRounding(a: Vault, x: Settlement): nat
    requires CreditAfter(a, x).Ok?
  {
    var credit := CreditOf(a, x).value;
    if !x.opening && a.credited < credit then RoundingUp((credit - a.credited) * TotalAssets(a), TotalSupply(a)) else 0
  }

  /** The owner loses the rounding of the charge. */
  lemma ChargeRounds(a: Vault, s: Vault, owner: Address, due: int)
    requires ChargeOwner(a, s, owner, due).Ok? && TotalAssets(a) > 0
    ensures (ChargeOwner(a, s, owner, due).value.supply - s.supply) * TotalAssets(a)
            == (0 - due) * TotalSupply(a) - RoundingUp(due * TotalSupply(a), TotalAssets(a))
  {
    var assets, shares := TotalAssets(a), TotalSupply(a);
    if due > 0 {
      CeilingRounds(due, shares, assets);
    } else if due < 0 {
      FloorRounds(0 - due, shares, assets);
    } else {
      RoundsUp(0 * shares, assets, 0, 0);
    }
    hide MulDiv, MulDivUp, RoundingUp;
    Products(0, if due > 0 then DivUp(due, shares, assets).value else 0, assets, due, 0, shares, 0);
  }

  // ---------- the exact condition ----------

  /** What the owner is due to pay. */
  function Due(a: Vault, x: Settlement): int
    requires CreditAfter(a, x).Ok?
  {
    x.ammDelta - NetBorrows(x) - x.premium + CreditAfter(a, x).value.1
  }

  /** The rounding of the credit, at the expense of the holders, is no more than the roundings at the expense of the
      owner: of the charge, and of the haircut when more is closed than is credited. */
  predicate RoundingIsPaid(a: Vault, x: Settlement)
    requires TotalAssets(a) > 0 && CreditAfter(a, x).Ok?
  {
    RoundingUp(SignedLong(x) * TotalSupply(a), TotalAssets(a))
    <= RoundingUp(Due(a, x) * TotalSupply(a), TotalAssets(a)) + HaircutRounding(a, x)
  }

  /** A settlement of a long amount, opened or closed, keeps the price after accrual if and only if the owner's
      roundings pay for that of the credit. */
  lemma SettlementKeepsPriceExactly(s: Vault, t: Tick, x: Settlement)
    requires x.long > 0 && UpdateBalancesAndSettle(s, t, x).Ok?
    ensures var a := Accrue(s, t, x.owner, false).value;
            && TotalAssets(a) > 0 && CreditAfter(a, x).Ok?
            && (PriceKept(a, UpdateBalancesAndSettle(s, t, x).value.vault) <==> RoundingIsPaid(a, x))
  {
    var a, d := Accrue(s, t, x.owner, false).value, UpdateBalancesAndSettle(s, t, x).value;
    SettlementSupply(s, t, x);
    AssetsBalance(s, t, x);
    SettlementDilution(s, t, x);
    CreditRounds(a, x);
    var (credited, haircut) := CreditAfter(a, x).value;
    var c := a.(credited := credited);
    ChargeRounds(a, c, x.owner, d.paid);
    var charged := ChargeOwner(a, c, x.owner, d.paid).value;
    hide Accrue, UpdateBalancesAndSettle, CreditAfter, ChargeOwner, RoundingUp, HaircutRounding;
    Balance(TotalAssets(a), TotalSupply(a), credited - a.credited, charged.supply - c.supply, SignedLong(x) + haircut,
            d.paid);
  }

  lemma SettlementSupply(s: Vault, t: Tick, x: Settlement)
    requires UpdateBalancesAndSettle(s, t, x).Ok?
    ensures Accrue(s, t, x.owner, false).Ok?
    ensures var a, d := Accrue(s, t, x.owner, false).value, UpdateBalancesAndSettle(s, t, x).value;
            && CreditAfter(a, x).Ok? && d.paid == Due(a, x)
            && var c := a.(credited := CreditAfter(a, x).value.0);
               && ChargeOwner(a, c, x.owner, d.paid).Ok?
               && TotalSupply(d.vault) == ChargeOwner(a, c, x.owner, d.paid).value.supply + c.credited
  {
    hide Accrue, CreditAfter;
    var a := Accrue(s, t, x.owner, false).value;
    ChargeFrame(a, a.(credited := CreditAfter(a, x).value.0), x.owner, Due(a, x));
    hide ChargeOwner;
  }

  lemma Balance(assets: int, shares: int, credit: int, minted: int, long: int, due: int)
    ensures assets * (shares + credit + minted) == assets * shares + credit * assets + minted * assets
    ensures (assets + long - due) * shares == assets * shares + long * shares + (0 - due) * shares
  {
  }

  /** The same for the whole call: the commission makes up for any rounding if it is burned, and for none if it is moved
      to the protocol and a builder. */
  lemma CommissionedExactly(s: Vault, t: Tick, x: Settlement, fee: nat, r: RiskParameters)
    requires x.long > 0 && UpdateBalancesAndSettle(s, t, x).Ok?
    requires TakeCommission(UpdateBalancesAndSettle(s, t, x).value, x.owner, fee, r).Ok?
    ensures var a := Accrue(s, t, x.owner, false).value;
            var v := TakeCommission(UpdateBalancesAndSettle(s, t, x).value, x.owner, fee, r).value;
            && TotalAssets(a) > 0 && CreditAfter(a, x).Ok?
            && (PriceKept(a, v) <==> CommissionBurned(fee, r) || RoundingIsPaid(a, x))
  {
    SettlementKeepsPriceExactly(s, t, x);
    AssetsBalance(s, t, x);
    SettlementDilution(s, t, x);
    hide UpdateBalancesAndSettle, Accrue, TakeCommission, PriceKept, DilutedByLessThanOneShare, RoundingIsPaid;
    hide CreditAfter, TotalAssets, TotalSupply, SignedLong;
    AfterCommission(Accrue(s, t, x.owner, false).value, UpdateBalancesAndSettle(s, t, x).value, x.owner, fee, r);
  }

  lemma AfterCommission(a: Vault, d: Settled, owner: Address, fee: nat, r: RiskParameters)
    requires d.shares == TotalSupply(a) && DilutedByLessThanOneShare(a, d.vault)
    requires TotalSupply(a) == 0 ==> PriceKept(a, d.vault)
    requires TakeCommission(d, owner, fee, r).Ok?
    ensures PriceKept(a, TakeCommission(d, owner, fee, r).value) <==> CommissionBurned(fee, r) || PriceKept(a, d.vault)
  {
    var v := TakeCommission(d, owner, fee, r).value;
    BurnedShares(d, owner, fee, r);
    CommissionKeepsBound(d, owner, fee, r);
    hide TakeCommission, PriceKept, DilutedByLessThanOneShare;
    if CommissionBurned(fee, r) && d.shares > 0 {
      BurnMakesUp(a, d.vault, v);
    } else {
      SamePrice(a, d.vault, v);
    }
  }

  lemma SamePrice(a: Vault, v: Vault, w: Vault)
    requires TotalAssets(v) == TotalAssets(w) && TotalSupply(v) == TotalSupply(w)
    ensures PriceKept(a, v) <==> PriceKept(a, w)
  {
  }

  /** An opening with a long amount keeps the price after accrual if and only if its commission is burned, or the
      owner's rounding pays for that of the credit. */
  lemma OpeningKeepsPriceExactly(s: Vault, t: Tick, owner: Address, long: nat, short: nat, ammDelta: int,
                                 r: RiskParameters)
    requires long > 0 && SettleMint(s, t, owner, long, short, ammDelta, r).Ok?
    ensures var x := Settlement(owner, true, long, short, ammDelta, 0);
            var a := Accrue(s, t, owner, false).value;
            && TotalAssets(a) > 0 && CreditAfter(a, x).Ok?
            && (PriceKept(a, SettleMint(s, t, owner, long, short, ammDelta, r).value.0)
                <==> (r.feeRecipient == 0 && r.notionalFee > 0) || RoundingIsPaid(a, x))
  {
    var x := Settlement(owner, true, long, short, ammDelta, 0);
    hide UpdateBalancesAndSettle, TakeCommission, OpeningFee, PriceKept, RoundingIsPaid, CreditAfter;
    CommissionedExactly(s, t, x, OpeningFee(x, r), r);
    if r.notionalFee > 0 {
      OpeningPays(x, r);
    } else {
      NothingToPay(x, r);
    }
  }

  lemma NothingToPay(x: Settlement, r: RiskParameters)
    requires r.notionalFee == 0
    ensures OpeningFee(x, r) == 0
  {
    NoneUp(OpeningFee(x, r), DECIMALS);
  }

  /** The same for a closing; it pays no commission without premium. */
  lemma ClosingKeepsPriceExactly(s: Vault, t: Tick, owner: Address, long: nat, short: nat, ammDelta: int, premium: int,
                                 r: RiskParameters)
    requires long > 0 && SettleBurn(s, t, owner, long, short, ammDelta, premium, r).Ok?
    ensures var x := Settlement(owner, false, long, short, ammDelta, premium);
            var a := Accrue(s, t, owner, false).value;
            && TotalAssets(a) > 0 && CreditAfter(a, x).Ok?
            && (PriceKept(a, SettleBurn(s, t, owner, long, short, ammDelta, premium, r).value.0)
                <==> (premium != 0 && CommissionBurned(ClosingFee(x, r), r)) || RoundingIsPaid(a, x))
  {
    var x := Settlement(owner, false, long, short, ammDelta, premium);
    hide UpdateBalancesAndSettle, TakeCommission, ClosingFee, PriceKept, RoundingIsPaid, CreditAfter;
    if premium != 0 {
      CommissionedExactly(s, t, x, ClosingFee(x, r), r);
    } else {
      SettlementKeepsPriceExactly(s, t, x);
    }
  }
}
