/** What accruing interest does to the vault and to the user that pays, in terms of amounts only. */
module LedgerAccrual {
  import opened Results
  import opened FixedPoint
  import opened Ledger
  import opened LedgerShares
  import opened LedgerInterest

  /** `n` is the smallest number of `d`s that reach `x`. */
  predicate Ceiling(n: nat, x: int, d: nat) {
    x <= n * d && (n > 0 ==> (n - 1) * d < x)
  }

  lemma CeilingIsUp(x: nat, y: nat, d: nat)
    requires d > 0
    ensures Ceiling(MulDivUp(x, y, d), x * y, d)
  {
    var n := MulDivUp(x, y, d);
    hide MulDivUp;
    assert (n - 1) * d == n * d - d;
  }

  // ---------- global interest ----------

  /** Epochs are four seconds long. */
  lemma ElapsedSeconds(s: Vault, t: Tick)
    requires s.epoch <= t.epoch < s.epoch + 0x4000_0000
    ensures Elapsed(s, t) == 4 * (t.epoch - s.epoch)
  {
  }

  /** Six times x + x^2 / 2 + x^3 / 6, in units of 1 / `w`. */
  function ThreeTerms(x: nat, w: nat): nat {
    6 * (w * w * x) + 3 * (w * (x * x)) + x * (x * x)
  }

  /** The growth is the first three terms of e^x - 1 for x = rate times seconds, rounded down by at most two units and
      a third of x. */
  lemma GrowthIsThreeTerms(rate: nat, seconds: nat)
    ensures var x, g := rate * seconds, TaylorCompounded(rate, seconds);
            6 * (WAD * WAD * g) <= ThreeTerms(x, WAD) <= 6 * (WAD * WAD * g) + 12 * (WAD * WAD) + 2 * (WAD * x)
  {
    var x := rate * seconds;
    var second := MulDiv(x, x, 2 * WAD);
    var third := MulDiv(second, x, 3 * WAD);
    GrowthTerms(rate, seconds);
    hide *;
    TermsAddUp(WAD, x, second, third, TaylorCompounded(rate, seconds));
  }

  lemma GrowthTerms(rate: nat, seconds: nat)
    ensures var x := rate * seconds;
            var second := MulDiv(x, x, 2 * WAD);
            TaylorCompounded(rate, seconds) == x + second + MulDiv(second, x, 3 * WAD)
  {
    hide MulDiv;
  }

  lemma TermsAddUp(w: nat, x: nat, second: nat, third: nat, growth: nat)
    requires w > 0 && growth == x + second + third
    requires second * (2 * w) <= x * x < second * (2 * w) + 2 * w
    requires third * (3 * w) <= second * x < third * (3 * w) + 3 * w
    ensures 6 * (w * w * growth) <= ThreeTerms(x, w) <= 6 * (w * w * growth) + 12 * (w * w) + 2 * (w * x)
  {
    SecondTerm(w, x, second);
    ThirdTerm(w, x, second, third);
    Triple(w * w, x, second, third);
    Sum(w * w * x, w * w * second, w * w * third, w * (x * x), x * (x * x), w * w, w * x);
  }

  lemma Sum(first: int, second: int, third: int, square: int, cube: int, unit: int, slack: int)
    requires 6 * second <= 3 * square <= 6 * second + 6 * unit
    requires 6 * third <= cube <= 6 * third + 6 * unit + 2 * slack
    ensures 6 * (first + second + third) <= 6 * first + 3 * square + cube
    ensures 6 * first + 3 * square + cube <= 6 * (first + second + third) + 12 * unit + 2 * slack
  {
  }

  lemma Triple(k: nat, x: nat, y: nat, z: nat)
    ensures k * (x + y + z) == k * x + k * y + k * z
  {
  }

  lemma SecondTerm(w: nat, x: nat, second: nat)
    requires second * (2 * w) <= x * x <= second * (2 * w) + 2 * w
    ensures 6 * (w * w * second) <= 3 * (w * (x * x)) <= 6 * (w * w * second) + 6 * (w * w)
  {
    MulLe(second * (2 * w), x * x, w);
    MulLe(x * x, second * (2 * w) + 2 * w, w);
    Half(w, second);
  }

  lemma Half(w: nat, n: nat)
    ensures n * (2 * w) * w == 2 * (w * w * n)
    ensures (n * (2 * w) + 2 * w) * w == 2 * (w * w * n) + 2 * (w * w)
  {
  }

  lemma ThirdTerm(w: nat, x: nat, second: nat, third: nat)
    requires second * (2 * w) <= x * x <= second * (2 * w) + 2 * w
    requires third * (3 * w) <= second * x <= third * (3 * w) + 3 * w
    ensures 6 * (w * w * third) <= x * (x * x) <= 6 * (w * w * third) + 6 * (w * w) + 2 * (w * x)
  {
    MulLe(second * (2 * w), x * x, x);
    MulLe(x * x, second * (2 * w) + 2 * w, x);
    MulLe(third * (3 * w), second * x, w);
    MulLe(second * x, third * (3 * w) + 3 * w, w);
    Third(w, x, second, third);
    Chain(second * x * w, w * w * third, w * w, w * x, x * (x * x));
  }

  lemma Chain(product: int, third: int, unit: int, slack: int, cube: int)
    requires 3 * third <= product <= 3 * third + 3 * unit && 2 * product <= cube <= 2 * product + 2 * slack
    ensures 6 * third <= cube <= 6 * third + 6 * unit + 2 * slack
  {
  }

  lemma Third(w: nat, x: nat, n: nat, m: nat)
    ensures n * (2 * w) * x == 2 * (n * x * w)
    ensures (n * (2 * w) + 2 * w) * x == 2 * (n * x * w) + 2 * (w * x)
    ensures m * (3 * w) * w == 3 * (w * w * m)
    ensures (m * (3 * w) + 3 * w) * w == 3 * (w * w * m) + 3 * (w * w)
    ensures x * x * x == x * (x * x)
  {
  }

  /** The bucket grows by the interest on the assets in the AMM and the index by the growth factor, both rounded up,
      and nothing else changes but the epoch. */
  lemma CompoundExactly(s: Vault, t: Tick)
    ensures var c, g := Compound(s, t), Growth(s, t);
            && c == s.(unrealized := c.unrealized, borrowIndex := c.borrowIndex, epoch := t.epoch)
            && c.unrealized >= s.unrealized
            && Ceiling(c.unrealized - s.unrealized, s.inAMM * g, WAD)
            && Ceiling(c.borrowIndex, s.borrowIndex * (WAD + g), WAD)
  {
    hide TaylorCompounded;
    if Elapsed(s, t) == 0 {
      assert s.borrowIndex * (WAD + 0) == s.borrowIndex * WAD;
      assert s.inAMM * 0 == 0;
    } else {
      CeilingIsUp(s.inAMM, Growth(s, t), WAD);
      CeilingIsUp(s.borrowIndex, WAD + Growth(s, t), WAD);
    }
  }

  // ---------- what a user pays ----------

  /** The interest on a loan since its checkpoint, rounded up. */
  function InterestOwed(b: Borrower, index: nat): (o: nat)
    requires b.net > 0 ==> 0 < b.index <= index
    ensures if b.net <= 0 then o == 0 else Ceiling(o, b.net * (index - b.index), b.index)
  {
    if b.net <= 0 then 0
    else
      CeilingIsUp(b.net, index - b.index, b.index);
      MulDivUp(b.net, index - b.index, b.index)
  }

  /** User `u` gives up `n` shares, and `paid` assets leave the bucket as far as it holds them. */
  ghost predicate Pays(c: Vault, v: Vault, u: Address, n: nat, paid: nat) {
    && (forall w :: BalanceOf(v, w) == BalanceOf(c, w) - (if w == u then n else 0))
    && v.supply == c.supply - n
    && v.unrealized == (if paid <= c.unrealized then c.unrealized - paid else 0)
  }

  ghost predicate CheckpointIs(c: Vault, v: Vault, u: Address, index: nat) {
    v.borrowers == c.borrowers[u := Borrower(index, BorrowerOf(c, u).net)]
  }

  ghost predicate OnlyInterestMoves(c: Vault, v: Vault) {
    v == c.(balances := v.balances, supply := v.supply, unrealized := v.unrealized, borrowers := v.borrowers)
  }

  /** The shares of a user are worth at least what it owes. */
  predicate CanPay(c: Vault, u: Address, owed: nat) {
    owed * TotalSupply(c) <= BalanceOf(c, u) * TotalAssets(c)
  }

  /** From `c`, where `u` owes `owed`, to `v`. Nothing owed: only the checkpoint moves. Payment skipped: nothing moves.
      Owed and payable: the fewest shares worth it go, and the checkpoint moves. Not payable: all shares go, what they
      are worth leaves the bucket, and the checkpoint stays. */
  ghost predicate Accrues(c: Vault, v: Vault, u: Address, owed: nat, skip: bool) {
    var held, index := BalanceOf(c, u), BorrowerOf(c, u).index;
    && OnlyInterestMoves(c, v)
    && if owed == 0 then Pays(c, v, u, 0, 0) && CheckpointIs(c, v, u, c.borrowIndex)
       else if skip then Pays(c, v, u, 0, 0) && CheckpointIs(c, v, u, index)
       else if CanPay(c, u, owed) then
         && c.supply >= v.supply && Ceiling(c.supply - v.supply, owed * TotalSupply(c), TotalAssets(c))
         && Pays(c, v, u, c.supply - v.supply, owed) && CheckpointIs(c, v, u, c.borrowIndex)
       else
         && TotalSupply(c) > 0
         && exists worth: nat ::
              && worth * TotalSupply(c) <= held * TotalAssets(c) < worth * TotalSupply(c) + TotalSupply(c)
              && Pays(c, v, u, held, worth) && CheckpointIs(c, v, u, index)
  }

  /** How many shares are to be burned. */
  function SharesDue(c: Vault, u: Address, owed: nat): (n: nat)
    requires TotalAssets(c) > 0
    ensures if CanPay(c, u, owed) then Ceiling(n, owed * TotalSupply(c), TotalAssets(c)) else n == BalanceOf(c, u)
  {
    CeilingIsUp(owed, TotalSupply(c), TotalAssets(c));
    if CanPay(c, u, owed) then MulDivUp(owed, TotalSupply(c), TotalAssets(c)) else BalanceOf(c, u)
  }

  /** An accrual reverts only without assets, or when the shares to burn are not in the supply; otherwise it has the
      outcome above. */
  lemma AccrualExactly(s: Vault, t: Tick, u: Address, skip: bool)
    requires Indexed(s)
    ensures var c, r := Compound(s, t), Accrue(s, t, u, skip);
            && Indexed(c) && TotalAssets(c) >= TotalAssets(s)
            && var owed := InterestOwed(BorrowerOf(c, u), c.borrowIndex);
               && (r.Ok? <==> TotalAssets(s) > 0 && (owed == 0 || skip || SharesDue(c, u, owed) <= c.supply))
               && (r.Ok? ==> Accrues(c, r.value, u, owed, skip))
  {
    var c := Compound(s, t);
    CompoundIndex(s, t);
    CompoundExactly(s, t);
    hide Compound, Indexed;
    OwedExactly(c, u);
    if TotalAssets(s) > 0 {
      PaymentExactly(c, u, InterestOwed(BorrowerOf(c, u), c.borrowIndex), skip);
    }
    hide PayInterest, Accrues, UserInterest;
  }

  lemma OwedExactly(c: Vault, u: Address)
    requires Indexed(c)
    ensures var b := BorrowerOf(c, u);
            && (b.net > 0 ==> 0 < b.index <= c.borrowIndex)
            && UserInterest(b, c.borrowIndex) == Ok(InterestOwed(b, c.borrowIndex))
  {
    var b := BorrowerOf(c, u);
    if b.net > 0 && b.index == c.borrowIndex {
      assert b.net * 0 == 0;
      NoMultiple(InterestOwed(b, c.borrowIndex), b.index);
    }
  }

  lemma NoMultiple(o: nat, d: nat)
    requires d > 0 && Ceiling(o, 0, d)
    ensures o == 0
  {
    if o > 0 {
      MulLe(0, o - 1, d);
    }
  }

  lemma PayableExactly(c: Vault, u: Address, owed: nat)
    requires TotalAssets(c) > 0
    ensures CanPay(c, u, owed) <==> MulDivUp(owed, TotalSupply(c), TotalAssets(c)) <= BalanceOf(c, u)
  {
    var n, held := MulDivUp(owed, TotalSupply(c), TotalAssets(c)), BalanceOf(c, u);
    hide MulDivUp;
    if n <= held {
      MulLe(n, held, TotalAssets(c));
    } else {
      MulLe(held, n - 1, TotalAssets(c));
      assert (n - 1) * TotalAssets(c) == n * TotalAssets(c) - TotalAssets(c);
    }
  }

  lemma PaymentExactly(c: Vault, u: Address, owed: nat, skip: bool)
    requires TotalAssets(c) > 0 && UserInterest(BorrowerOf(c, u), c.borrowIndex) == Ok(owed)
    ensures var r := PayInterest(c, u, skip);
            && (r.Ok? <==> owed == 0 || skip || SharesDue(c, u, owed) <= c.supply)
            && (r.Ok? ==> Accrues(c, r.value, u, owed, skip))
  {
    PayableExactly(c, u, owed);
    hide UserInterest;
    if owed != 0 && !skip {
      if CanPay(c, u, owed) {
        PaidInFull(c, u, owed);
      } else {
        PaidInPart(c, u, owed);
      }
    } else {
      hide MulDivUp, MulDiv;
    }
  }

  lemma PaidInFull(c: Vault, u: Address, owed: nat)
    requires TotalAssets(c) > 0 && UserInterest(BorrowerOf(c, u), c.borrowIndex) == Ok(owed) && owed > 0
    requires CanPay(c, u, owed) && MulDivUp(owed, TotalSupply(c), TotalAssets(c)) <= BalanceOf(c, u)
    ensures var r := PayInterest(c, u, false);
            (r.Ok? <==> SharesDue(c, u, owed) <= c.supply) && (r.Ok? ==> Accrues(c, r.value, u, owed, false))
  {
    CeilingIsUp(owed, TotalSupply(c), TotalAssets(c));
    hide UserInterest, MulDivUp;
  }

  lemma PaidInPart(c: Vault, u: Address, owed: nat)
    requires TotalAssets(c) > 0 && UserInterest(BorrowerOf(c, u), c.borrowIndex) == Ok(owed) && owed > 0
    requires !CanPay(c, u, owed) && MulDivUp(owed, TotalSupply(c), TotalAssets(c)) > BalanceOf(c, u)
    ensures var r := PayInterest(c, u, false);
            (r.Ok? <==> SharesDue(c, u, owed) <= c.supply) && (r.Ok? ==> Accrues(c, r.value, u, owed, false))
  {
    var held, worth := BalanceOf(c, u), MulDiv(BalanceOf(c, u), TotalAssets(c), TotalSupply(c));
    hide UserInterest, MulDivUp, MulDiv;
    var r := PayInterest(c, u, false);
    if r.Ok? {
      assert Pays(c, r.value, u, held, worth) && CheckpointIs(c, r.value, u, BorrowerOf(c, u).index);
    }
  }

  /** While all shares are backed, whoever has to pay can: an accrual reverts only without any assets. */
  lemma BackedAccrualSucceeds(s: Vault, t: Tick, u: Address, skip: bool)
    requires Indexed(s) && Backed(s)
    ensures Accrue(s, t, u, skip).Ok? <==> TotalAssets(s) > 0
  {
    AccrualExactly(s, t, u, skip);
    CompoundExactly(s, t);
    BackedSupply(s);
    var c := Compound(s, t);
    assert BalanceOf(c, u) == BalanceOf(s, u) && c.supply == s.supply;
    var owed := InterestOwed(BorrowerOf(c, u), c.borrowIndex);
    hide Accrue, Compound, Backed, Indexed, InterestOwed;
    if TotalAssets(s) > 0 && CanPay(c, u, owed) {
      PayableExactly(c, u, owed);
    }
  }
}
