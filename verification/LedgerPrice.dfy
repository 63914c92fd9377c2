/** The price of a share, total assets over total supply, over single calls and over whole runs. */
module LedgerPrice {
  import opened FixedPoint
  import opened Ledger

  /** Assets over supply does not fall from `s` to `v`, cross-multiplied so that no supply has to be positive. */
  ghost predicate PriceKept(s: Vault, v: Vault) {
    && TotalAssets(s) * TotalSupply(v) <= TotalAssets(v) * TotalSupply(s)
    && (TotalSupply(s) == 0 ==> TotalSupply(v) == 0)
  }

  lemma PriceKeptTransitive(s: Vault, v: Vault, w: Vault)
    requires PriceKept(s, v) && PriceKept(v, w)
    ensures PriceKept(s, w)
  {
    Compose(TotalAssets(s), TotalSupply(s), TotalAssets(v), TotalSupply(v), TotalAssets(w), TotalSupply(w));
  }

  lemma Compose(a0: nat, s0: nat, a1: nat, s1: nat, a2: nat, s2: nat)
    requires a0 * s1 <= a1 * s0 && a1 * s2 <= a2 * s1
    requires s0 == 0 ==> s1 == 0
    requires s1 == 0 ==> s2 == 0
    ensures a0 * s2 <= a2 * s0
  {
    if s1 > 0 {
      MulLe(a0 * s1, a1 * s0, s2);
      MulLe(a1 * s2, a2 * s1, s0);
      assert (a0 * s2) * s1 == (a0 * s1) * s2;
      assert (a2 * s0) * s1 == (a2 * s1) * s0;
      assert (a1 * s0) * s2 == (a1 * s2) * s0;
      Cancel(a0 * s2, a2 * s0, s1);
    }
  }

  /** Exchanging `da` assets for `ds` shares, each possibly negative, at no less than the going price. */
  ghost predicate Exchange(s: Vault, v: Vault, da: int, ds: int) {
    && TotalAssets(v) == TotalAssets(s) + da
    && TotalSupply(v) == TotalSupply(s) + ds
    && ds * TotalAssets(s) <= da * TotalSupply(s)
  }

  lemma FairExchange(s: Vault, v: Vault, da: int, ds: int)
    requires Exchange(s, v, da, ds)
    requires TotalSupply(s) == 0 ==> ds == 0
    ensures PriceKept(s, v)
  {
    var a, n := TotalAssets(s), TotalSupply(s);
    assert a * (n + ds) == a * n + ds * a;
    assert (a + da) * n == a * n + da * n;
  }

  lemma FairSale(s: Vault, v: Vault, assets: int, shares: int)
    requires TotalAssets(v) == TotalAssets(s) - assets && TotalSupply(v) == TotalSupply(s) - shares
    requires assets * TotalSupply(s) <= shares * TotalAssets(s)
    requires TotalSupply(s) == 0 ==> shares == 0
    ensures PriceKept(s, v)
  {
    var da, ds := 0 - assets, 0 - shares;
    assert da * TotalSupply(s) == 0 - assets * TotalSupply(s);
    assert ds * TotalAssets(s) == 0 - shares * TotalAssets(s);
    FairExchange(s, v, da, ds);
  }

  // ---------- interest ----------

  lemma CompoundKeepsPrice(s: Vault, t: Tick)
    ensures PriceKept(s, Compound(s, t))
  {
    var v := Compound(s, t);
    FairExchange(s, v, v.unrealized - s.unrealized, 0);
  }

  lemma PaymentIsFair(c: Vault, owner: Address, skip: bool)
    requires PaymentOf(c, owner, skip).Ok?
    ensures var p := PaymentOf(c, owner, skip).value;
            && p.worth * TotalSupply(c) <= p.shares * TotalAssets(c)
            && (TotalSupply(c) == 0 ==> p.shares == 0)
  {
    var p := PaymentOf(c, owner, skip).value;
    var owed := UserInterest(BorrowerOf(c, owner), c.borrowIndex).value;
    if owed != 0 && TotalSupply(c) == 0 {
      NothingBought(owed, TotalAssets(c));
    }
  }

  lemma NothingBought(owed: nat, assets: nat)
    requires assets > 0
    ensures MulDivUp(owed, 0, assets) == 0
  {
    var q := MulDivUp(owed, 0, assets);
    if q >= 1 {
      MulLe(1, q, assets);
    }
  }

  lemma PayInterestKeepsPrice(c: Vault, owner: Address, skip: bool)
    requires PayInterest(c, owner, skip).Ok?
    ensures PriceKept(c, PayInterest(c, owner, skip).value)
  {
    var p := PaymentOf(c, owner, skip).value;
    var v := PayInterest(c, owner, skip).value;
    PaymentIsFair(c, owner, skip);
    var paid := c.unrealized - v.unrealized;
    MulLe(paid, p.worth, TotalSupply(c));
    FairSale(c, v, paid, p.shares);
  }

  lemma AccrueKeepsPrice(s: Vault, t: Tick, owner: Address, skip: bool)
    requires Accrue(s, t, owner, skip).Ok?
    ensures PriceKept(s, Accrue(s, t, owner, skip).value)
  {
    CompoundKeepsPrice(s, t);
    PayInterestKeepsPrice(Compound(s, t), owner, skip);
    PriceKeptTransitive(s, Compound(s, t), Accrue(s, t, owner, skip).value);
  }

  // ---------- deposits, withdrawals and transfers ----------

  lemma DepositKeepsPrice(s: Vault, t: Tick, caller: Address, assets: nat, receiver: Address)
    requires Deposit(s, t, caller, assets, receiver).Ok?
    ensures PriceKept(s, Deposit(s, t, caller, assets, receiver).value.0)
  {
    AccrueKeepsPrice(s, t, caller, true);
    var a := Accrue(s, t, caller, true).value;
    var (v, shares) := Deposit(s, t, caller, assets, receiver).value;
    if TotalSupply(a) == 0 && shares >= 1 {
      MulLe(1, shares, TotalAssets(a));
    }
    FairExchange(a, v, assets, shares);
    PriceKeptTransitive(s, a, v);
  }

  lemma MintKeepsPrice(s: Vault, t: Tick, caller: Address, shares: nat, receiver: Address)
    requires Mint(s, t, caller, shares, receiver).Ok?
    ensures PriceKept(s, Mint(s, t, caller, shares, receiver).value.0)
  {
    AccrueKeepsPrice(s, t, caller, true);
    var a := Accrue(s, t, caller, true).value;
    var (v, assets) := Mint(s, t, caller, shares, receiver).value;
    FairExchange(a, v, assets, shares);
    PriceKeptTransitive(s, a, v);
  }

  lemma PayOutKeepsPrice(a: Vault, caller: Address, assets: nat, owner: Address)
    requires TotalSupply(a) > 0
    requires PayOut(a, caller, assets, owner).Ok?
    ensures PriceKept(a, PayOut(a, caller, assets, owner).value.0)
  {
    var (v, shares) := PayOut(a, caller, assets, owner).value;
    FairSale(a, v, assets, shares);
  }

  lemma WithdrawKeepsPrice(s: Vault, t: Tick, caller: Address, assets: nat, owner: Address, legs: nat)
    requires Withdraw(s, t, caller, assets, owner, legs).Ok?
    ensures PriceKept(s, Withdraw(s, t, caller, assets, owner, legs).value.0)
  {
    AccrueKeepsPrice(s, t, owner, false);
    var a := Accrue(s, t, owner, false).value;
    PayOutKeepsPrice(a, caller, assets, owner);
    PriceKeptTransitive(s, a, Withdraw(s, t, caller, assets, owner, legs).value.0);
  }

  lemma WithdrawWithPositionsKeepsPrice(s: Vault, t: Tick, caller: Address, assets: nat, owner: Address, solvent: bool)
    requires WithdrawWithPositions(s, t, caller, assets, owner, solvent).Ok?
    ensures PriceKept(s, WithdrawWithPositions(s, t, caller, assets, owner, solvent).value.0)
  {
    AccrueKeepsPrice(s, t, owner, false);
    var a := Accrue(s, t, owner, false).value;
    PayOutKeepsPrice(a, caller, assets, owner);
    PriceKeptTransitive(s, a, WithdrawWithPositions(s, t, caller, assets, owner, solvent).value.0);
  }

  lemma RedeemKeepsPrice(s: Vault, t: Tick, caller: Address, shares: nat, owner: Address, legs: nat)
    requires Redeem(s, t, caller, shares, owner, legs).Ok?
    ensures PriceKept(s, Redeem(s, t, caller, shares, owner, legs).value.0)
  {
    AccrueKeepsPrice(s, t, owner, false);
    var a := Accrue(s, t, owner, false).value;
    var (v, assets) := Redeem(s, t, caller, shares, owner, legs).value;
    FairSale(a, v, assets, shares);
    PriceKeptTransitive(s, a, v);
  }

  lemma SameTotalsKeepPrice(s: Vault, v: Vault)
    requires TotalAssets(v) == TotalAssets(s) && TotalSupply(v) == TotalSupply(s)
    ensures PriceKept(s, v)
  {
  }
}
