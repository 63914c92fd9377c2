/** What a liquidation pays the liquidator and what it costs the other holders. */
module LedgerLiquidation {
  import opened Results
  import opened FixedPoint
  import opened Ledger
  import opened LedgerShares
  import opened LedgerCalls

  /** The loss reported is exactly the supply created without payment; assets change only by a negative bonus. */
  lemma LossIsUnpaidSupply(s: Vault, liquidator: Address, liquidatee: Address, bonus: int)
    requires SettleLiquidation(s, liquidator, liquidatee, bonus).Ok?
    ensures var l := SettleLiquidation(s, liquidator, liquidatee, bonus).value;
            var paidIn: nat := if bonus < 0 then -bonus else 0;
            && TotalAssets(s) > 0 && TotalAssets(l.vault) == TotalAssets(s) + paidIn
            && TotalSupply(l.vault) == TotalSupply(s) + l.loss + MulDiv(paidIn, TotalSupply(s), TotalAssets(s))
  {
    hide MulDiv, BonusMint;
    NothingForNothing(TotalSupply(s), TotalAssets(s));
  }

  lemma NothingForNothing(shares: nat, assets: nat)
    requires assets > 0
    ensures MulDiv(0, shares, assets) == 0
  {
  }

  /** The last outstanding bundle of phantom shares is gone afterwards, whether or not it was spent. */
  lemma LiquidationRestoresBacking(s: Vault, liquidator: Address, liquidatee: Address, bonus: int)
    requires SettleLiquidation(s, liquidator, liquidatee, bonus).Ok?
    requires Surplus(s) == PHANTOM as real - VIRTUAL_SHARES as real
    ensures Backed(SettleLiquidation(s, liquidator, liquidatee, bonus).value.vault)
  {
    LiquidationSurplus(s, liquidator, liquidatee, bonus);
    hide SettleLiquidation;
  }

  /** The liquidatee's own shares cover the bonus: they are handed over, rounded down, and nothing is minted. A
      liquidator that liquidates itself keeps what it has. */
  lemma BonusFromOwnShares(s: Vault, liquidator: Address, liquidatee: Address, bonus: nat)
    requires SettleLiquidation(s, liquidator, liquidatee, bonus).Ok?
    ensures var v := TakePhantom(s, liquidatee).0;
            var l := SettleLiquidation(s, liquidator, liquidatee, bonus).value;
            && TotalAssets(v) > 0
            && var moved := MulDiv(bonus, TotalSupply(v), TotalAssets(v));
               moved <= BalanceOf(v, liquidatee) ==>
                 && (if liquidator != liquidatee then
                       && BalanceOf(l.vault, liquidator) == BalanceOf(v, liquidator) + moved
                       && BalanceOf(l.vault, liquidatee) == BalanceOf(v, liquidatee) - moved
                     else BalanceOf(l.vault, liquidatee) == BalanceOf(v, liquidatee))
                 && l.loss == TakePhantom(s, liquidatee).1 && l.vault.supply == v.supply
  {
    hide MulDiv, BonusMint;
  }

  /** `shares` of a supply of `supply` are worth at most `z`, and with one more share, more than `z`. */
  ghost predicate WorthWithinOneShare(shares: nat, z: nat, assets: nat, supply: nat) {
    shares * assets <= z * supply && (shares + 1) * assets > z * (supply + 1)
  }

  /** N as in N = Z(Y - T) / (X - Z): more than the T shares kept, worth at most Z in the diluted vault,
      while one more share would be worth more. */
  lemma BonusFormula(x: nat, y: nat, z: nat, t: nat, n: nat)
    requires x > z && t < MulDiv(z, y, x)
    ensures t < y
    ensures n == MulDiv(z, y - t, x - z) ==>
              t < n && WorthWithinOneShare(n, z, x, y + n - t)
  {
    var whole := MulDiv(z, y, x);
    MulLe(t + 1, whole, x);
    assert (t + 1) * x == t * x + x;
    MulLe(z, x, y);
    Cancel(t + 1, y, x);
    if n == MulDiv(z, y - t, x - z) {
      FormulaBounds(x, y, z, t, n);
    }
  }

  lemma FormulaBounds(x: int, y: int, z: int, t: int, n: int)
    requires 0 <= z < x && (t + 1) * x <= z * y && 0 <= t
    requires n * (x - z) <= z * (y - t) < n * (x - z) + (x - z)
    ensures t < n && n * x <= z * (y + n - t) && (n + 1) * x > z * (y + n + 1 - t)
  {
    assert n * (x - z) == n * x - n * z && z * (y - t) == z * y - z * t;
    assert z * (y + n - t) == z * y + z * n - z * t;
    assert z * (y + n + 1 - t) == z * (y + n - t) + z;
    assert (n + 1) * x == n * x + x;
    assert n * z == z * n;
    assert (t + 1) * (x - z) <= z * (y - t) by {
      assert (t + 1) * (x - z) == (t + 1) * x - t * z - z;
      assert t * z == z * t;
    }
    assert (n + 1) * (x - z) == n * (x - z) + (x - z);
    CancelLess(t + 1, n + 1, x - z);
  }

  /** What a liquidation leaves a liquidator with: the shares it gained, or, liquidating itself, all it holds. */
  function BonusShares(v: Vault, w: Vault, liquidator: Address, liquidatee: Address): int {
    if liquidator == liquidatee then BalanceOf(w, liquidator) else BalanceOf(w, liquidator) - BalanceOf(v, liquidator)
  }

  /** When the bonus exceeds what the liquidatee's shares are worth, the liquidator ends with shares that pay
      the bonus to within one share, unless one of the caps binds. */
  lemma MintedBonusPaysWithinOneShare(s: Vault, liquidator: Address, liquidatee: Address, bonus: nat)
    requires SettleLiquidation(s, liquidator, liquidatee, bonus).Ok?
    ensures var v := TakePhantom(s, liquidatee).0;
            var kept := BalanceOf(v, liquidatee);
            var w := SettleLiquidation(s, liquidator, liquidatee, bonus).value.vault;
            && TotalAssets(v) > 0
            && (kept < MulDiv(bonus, TotalSupply(v), TotalAssets(v)) && bonus < TotalAssets(v) ==>
                  && kept < TotalSupply(v)
                  && var n := MulDiv(bonus, TotalSupply(v) - kept, TotalAssets(v) - bonus);
                     && kept < n
                     && (n <= MAX_UINT256 && n - kept <= 10 * TotalSupply(v) && TotalSupply(v) <= MAX_UINT256 ==>
                           && BonusShares(v, w, liquidator, liquidatee) == n
                           && (liquidator != liquidatee ==> BalanceOf(w, liquidatee) == 0)
                           && TotalSupply(w) == TotalSupply(v) + n - kept
                           && WorthWithinOneShare(n, bonus, TotalAssets(w), TotalSupply(w))))
  {
    var v := TakePhantom(s, liquidatee).0;
    var kept := BalanceOf(v, liquidatee);
    var x, y := TotalAssets(v), TotalSupply(v);
    MintPath(s, liquidator, liquidatee, bonus);
    hide SettleLiquidation, TakePhantom, BonusMint, WorthWithinOneShare, BonusShares;
    hide BalanceOf, TotalAssets, TotalSupply;
    if kept < MulDiv(bonus, y, x) && bonus < x {
      BonusFormula(x, y, bonus, kept, 0);
      BonusFormula(x, y, bonus, kept, MulDiv(bonus, y - kept, x - bonus));
      hide MulDiv;
      var n := MulDiv(bonus, y - kept, x - bonus);
      if n <= MAX_UINT256 && n - kept <= 10 * y && y <= MAX_UINT256 {
        UncappedMint(v, bonus, kept);
      }
    }
  }

  /** The effect of minting, whatever the amount. */
  lemma MintPath(s: Vault, liquidator: Address, liquidatee: Address, bonus: nat)
    requires SettleLiquidation(s, liquidator, liquidatee, bonus).Ok?
    ensures var v := TakePhantom(s, liquidatee).0;
            var kept := BalanceOf(v, liquidatee);
            var w := SettleLiquidation(s, liquidator, liquidatee, bonus).value.vault;
            && TotalAssets(v) > 0
            && (kept < MulDiv(bonus, TotalSupply(v), TotalAssets(v)) ==>
                  var minted := BonusMint(v, bonus, kept);
                  && TotalAssets(w) == TotalAssets(v) && TotalSupply(w) == TotalSupply(v) + minted
                  && (liquidator != liquidatee ==> BalanceOf(w, liquidatee) == 0)
                  && BonusShares(v, w, liquidator, liquidatee) == kept + minted)
  {
    hide MulDiv, Min;
  }

  lemma UncappedMint(v: Vault, bonus: nat, kept: nat)
    requires bonus < TotalAssets(v) && kept < TotalSupply(v) <= MAX_UINT256
    ensures var n := MulDiv(bonus, TotalSupply(v) - kept, TotalAssets(v) - bonus);
            kept < n <= MAX_UINT256 && n - kept <= 10 * TotalSupply(v) ==> BonusMint(v, bonus, kept) == n - kept
  {
    hide MulDiv;
  }

  /** However little the vault holds, one liquidation mints at most ten times the supply: the supply before it, and
      the phantom shares that were spent and now count. */
  lemma MintIsCapped(s: Vault, liquidator: Address, liquidatee: Address, bonus: nat)
    requires SettleLiquidation(s, liquidator, liquidatee, bonus).Ok?
    ensures TotalSupply(SettleLiquidation(s, liquidator, liquidatee, bonus).value.vault)
            <= 11 * (TotalSupply(s) + TakePhantom(s, liquidatee).1)
  {
    hide MulDiv;
  }

  // ---------- every account ----------

  /** `u` holds `held` shares with the phantom ones among them: those are taken back, and a shortfall is new supply. */
  function Spent(held: nat): nat {
    if held < PHANTOM then PHANTOM - held else 0
  }

  function KeptOf(held: nat): nat {
    if held < PHANTOM then 0 else held - PHANTOM
  }

  /** A negative bonus is paid in by the liquidator and credited, in shares rounded down, to the liquidatee, before its
      phantom shares are taken back. Nobody else's shares change. */
  lemma NegativeBonusExactly(s: Vault, liquidator: Address, liquidatee: Address, bonus: int)
    requires bonus < 0
    ensures var r := SettleLiquidation(s, liquidator, liquidatee, bonus);
            && (TotalAssets(s) == 0 ==> r.Revert?)
            && (TotalAssets(s) > 0 ==>
                  var n := MulDiv(0 - bonus, TotalSupply(s), TotalAssets(s));
                  var held := BalanceOf(s, liquidatee) + n;
                  && (r.Ok? <==> s.supply + n <= MAX_UINT256 && s.deposited + (0 - bonus) <= MAX_UINT128)
                  && (r.Ok? ==>
                        var v := r.value.vault;
                        && r.value.loss == Spent(held) && BalanceOf(v, liquidatee) == KeptOf(held)
                        && (forall w :: w != liquidatee ==> BalanceOf(v, w) == BalanceOf(s, w))
                        && v == s.(balances := v.balances, supply := s.supply + n + Spent(held),
                                   deposited := s.deposited - bonus)))
  {
    hide MulDiv;
  }

  /** The shares a positive bonus is worth, after the phantom shares have been taken back. */
  predicate BonusIsCovered(s: Vault, liquidatee: Address, bonus: nat)
    requires TotalAssets(s) > 0
  {
    var held := BalanceOf(s, liquidatee);
    MulDiv(bonus, TotalSupply(s) + Spent(held), TotalAssets(s)) <= KeptOf(held)
  }

  /** What is created for a bonus the liquidatee cannot pay: N = Z(Y - T) / (X - Z) less the T shares handed over, with
      X - Z at least one, Y - T in 256 bits, and within ten times the supply. */
  predicate IsMinted(m: nat, s: Vault, liquidatee: Address, bonus: nat) {
    var supply, kept := TotalSupply(s) + Spent(BalanceOf(s, liquidatee)), KeptOf(BalanceOf(s, liquidatee));
    var room: nat := if TotalAssets(s) > bonus then TotalAssets(s) - bonus else 1;
    var n := Min(MulDiv(bonus, (supply - kept) % (MAX_UINT256 + 1), room), MAX_UINT256);
    m == Min(if n > kept then n - kept else 0, 10 * supply)
  }

  lemma TakenBack(s: Vault, u: Address)
    ensures var (v, loss) := TakePhantom(s, u);
            && loss == Spent(BalanceOf(s, u)) && v == s.(balances := v.balances, supply := s.supply + loss)
            && forall w :: BalanceOf(v, w) == if w == u then KeptOf(BalanceOf(s, u)) else BalanceOf(s, w)
  {
  }

  lemma HandsExactly(s: Vault, from: Address, to: Address, n: nat)
    ensures var r := MoveShares(s, from, to, n);
            && (r.Ok? <==> n <= BalanceOf(s, from))
            && (r.Ok? ==> Hands(s, r.value, from, to, n) && r.value == s.(balances := r.value.balances))
  {
  }

  lemma MintsExactly(s: Vault, u: Address, n: nat)
    ensures var r := MintShares(s, u, n);
            && (r.Ok? <==> s.supply + n <= MAX_UINT256)
            && (r.Ok? ==>
                  && Gains(s, r.value, u, n)
                  && r.value == s.(balances := r.value.balances, supply := r.value.supply))
  {
  }

  /** What a positive bonus leaves: `handed` shares of the liquidatee and `minted` new ones go to the liquidator. */
  ghost predicate BonusPaid(s: Vault, l: Liquidated, liquidator: Address, liquidatee: Address, handed: nat,
                            minted: nat) {
    var held, v := BalanceOf(s, liquidatee), l.vault;
    && handed <= KeptOf(held) && l.loss == Spent(held) + minted
    && v == s.(balances := v.balances, supply := s.supply + l.loss)
    && forall w ::
         BalanceOf(v, w) == (if w == liquidatee then KeptOf(held) - handed else BalanceOf(s, w))
                            + (if w == liquidator then handed + minted else 0)
  }

  /** A positive bonus comes out of the liquidatee's own shares when they are worth it; otherwise all of them go, and
      the rest is created. The liquidator gets it, and nobody else's shares change. */
  lemma PositiveBonusExactly(s: Vault, liquidator: Address, liquidatee: Address, bonus: nat)
    ensures var r, held := SettleLiquidation(s, liquidator, liquidatee, bonus), BalanceOf(s, liquidatee);
            if TotalAssets(s) == 0 then r.Revert?
            else if BonusIsCovered(s, liquidatee, bonus) then
              && r.Ok?
              && BonusPaid(s, r.value, liquidator, liquidatee,
                           MulDiv(bonus, TotalSupply(s) + Spent(held), TotalAssets(s)), 0)
            else
              exists minted: nat ::
                && IsMinted(minted, s, liquidatee, bonus)
                && (r.Ok? <==> s.supply + Spent(held) + minted <= MAX_UINT256)
                && (r.Ok? ==> BonusPaid(s, r.value, liquidator, liquidatee, KeptOf(held), minted))
  {
    var v := TakePhantom(s, liquidatee).0;
    TakenBack(s, liquidatee);
    if TotalAssets(s) > 0 {
      if BonusIsCovered(s, liquidatee, bonus) {
        HandsExactly(v, liquidatee, liquidator, MulDiv(bonus, TotalSupply(v), TotalAssets(v)));
      } else {
        MintedBonusExactly(s, liquidator, liquidatee, bonus);
        hide SettleLiquidation, IsMinted, BonusPaid;
      }
    }
    hide MulDiv, BonusMint, TakePhantom, MoveShares, MintShares, IsMinted;
  }

  lemma MintedBonusExactly(s: Vault, liquidator: Address, liquidatee: Address, bonus: nat)
    requires TotalAssets(s) > 0 && !BonusIsCovered(s, liquidatee, bonus)
    ensures var r, held := SettleLiquidation(s, liquidator, liquidatee, bonus), BalanceOf(s, liquidatee);
            exists minted: nat ::
              && IsMinted(minted, s, liquidatee, bonus)
              && (r.Ok? <==> s.supply + Spent(held) + minted <= MAX_UINT256)
              && (r.Ok? ==> BonusPaid(s, r.value, liquidator, liquidatee, KeptOf(held), minted))
  {
    var v := TakePhantom(s, liquidatee).0;
    TakenBack(s, liquidatee);
    var kept := BalanceOf(v, liquidatee);
    HandsExactly(v, liquidatee, liquidator, kept);
    MintedExactly(s, liquidator, liquidatee, bonus);
    var moved := MoveShares(v, liquidatee, liquidator, kept).value;
    var minted := BonusMint(moved, bonus, kept);
    MintsExactly(moved, liquidator, minted);
    hide MulDiv, BonusMint, TakePhantom, MoveShares, MintShares, IsMinted;
    var r := SettleLiquidation(s, liquidator, liquidatee, bonus);
    assert r.Ok? ==> BonusPaid(s, r.value, liquidator, liquidatee, kept, minted);
  }

  lemma LiquidationIsStep(s: Vault, t: Tick, liquidator: Address, liquidatee: Address, bonus: int)
    ensures var r, l := Step(s, t, SettleLiquidationCall(liquidator, liquidatee, bonus)),
                        SettleLiquidation(s, liquidator, liquidatee, bonus);
            if l.Ok? then r == Ok(l.value.vault) else r.Revert?
  {
    hide SettleLiquidation;
  }

  lemma MintedExactly(s: Vault, liquidator: Address, liquidatee: Address, bonus: nat)
    ensures var v := TakePhantom(s, liquidatee).0;
            var moved := MoveShares(v, liquidatee, liquidator, BalanceOf(v, liquidatee));
            moved.Ok? && IsMinted(BonusMint(moved.value, bonus, BalanceOf(v, liquidatee)), s, liquidatee, bonus)
  {
    hide MulDiv;
  }
}
