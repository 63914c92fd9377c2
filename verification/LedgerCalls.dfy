/** What each call of the vault needs and what it does, in amounts: who gives and gets shares, at which rounding, and
    which grant is used. `a` is the vault once interest has been accrued. */
module LedgerCalls {
  import opened FixedPoint
  import opened Ledger
  import opened LedgerAccrual
  import opened LedgerReserve

  /** Only balances, the supply, the deposited assets and grants differ. */
  ghost predicate OnlySharesMove(a: Vault, v: Vault) {
    v == a.(balances := v.balances, supply := v.supply, deposited := v.deposited, allowances := v.allowances)
  }

  /** User `u` gains `n` shares and the supply with it; a negative number is burned. */
  ghost predicate Gains(a: Vault, v: Vault, u: Address, n: int) {
    && (forall w :: BalanceOf(v, w) == BalanceOf(a, w) + (if w == u then n else 0))
    && v.supply == a.supply + n
  }

  /** `n` shares go from one user to another, and the supply stays. */
  ghost predicate Hands(a: Vault, v: Vault, from: Address, to: Address, n: nat) {
    && (forall w ::
          BalanceOf(v, w) == BalanceOf(a, w) - (if w == from then n else 0) + (if w == to then n else 0))
    && v.supply == a.supply
  }

  // ---------- grants ----------

  /** What `owner` has granted `spender`. */
  function Grant(s: Vault, owner: Address, spender: Address): nat {
    if (owner, spender) in s.allowances then s.allowances[(owner, spender)] else 0
  }

  /** A grant of 2^256 - 1 is unlimited. */
  predicate Covers(grant: nat, n: nat) {
    n <= grant || grant == MAX_UINT256
  }

  /** The grant of `owner` to `spender`, and no other one, is lower by `n`, unless it is unlimited. */
  ghost predicate GrantUsed(s: Vault, v: Vault, owner: Address, spender: Address, n: nat)
    requires Covers(Grant(s, owner, spender), n)
  {
    v.allowances == if Grant(s, owner, spender) == MAX_UINT256 then s.allowances
                       else s.allowances[(owner, spender) := Grant(s, owner, spender) - n]
  }

  /** As above, but an owner needs no grant for its own shares. */
  ghost predicate GrantUsedByOthers(s: Vault, v: Vault, owner: Address, spender: Address, n: nat)
    requires Granted(s, owner, spender, n)
  {
    if spender == owner then v.allowances == s.allowances else GrantUsed(s, v, owner, spender, n)
  }

  predicate Granted(s: Vault, owner: Address, spender: Address, n: nat) {
    spender == owner || Covers(Grant(s, owner, spender), n)
  }

  lemma SpendExactly(a: Vault, owner: Address, spender: Address, n: nat)
    ensures var r := SpendAllowance(a, owner, spender, n);
            && (r.Ok? <==> Covers(Grant(a, owner, spender), n))
            && (r.Ok? ==> r.value == a.(allowances := r.value.allowances) && GrantUsed(a, r.value, owner, spender, n))
  {
  }

  lemma BurnExactly(a: Vault, u: Address, n: nat)
    ensures var r := BurnShares(a, u, n);
            && (r.Ok? <==> n <= BalanceOf(a, u) && n <= a.supply)
            && (r.Ok? ==>
                  && Gains(a, r.value, u, 0 - n)
                  && r.value == a.(balances := r.value.balances, supply := r.value.supply))
  {
  }

  /** Shares of an owner are burned on behalf of a caller. */
  lemma SpendAndBurn(a: Vault, owner: Address, caller: Address, n: nat)
    requires n <= BalanceOf(a, owner)
    ensures var spent := SpendIfThirdParty(a, owner, caller, n);
            && (spent.Ok? <==> Granted(a, owner, caller, n))
            && (spent.Ok? ==>
                  var r := BurnShares(spent.value, owner, n);
                  && (r.Ok? <==> n <= a.supply)
                  && (r.Ok? ==>
                        && Gains(a, r.value, owner, 0 - n) && GrantUsedByOthers(a, r.value, owner, caller, n)
                        && r.value.deposited == a.deposited && OnlySharesMove(a, r.value)))
  {
    SpendExactly(a, owner, caller, n);
    hide SpendAllowance, BurnShares;
    var spent := SpendIfThirdParty(a, owner, caller, n);
    if spent.Ok? {
      BurnExactly(spent.value, owner, n);
      assert BalanceOf(spent.value, owner) == BalanceOf(a, owner);
      forall w
        ensures BalanceOf(spent.value, w) == BalanceOf(a, w)
      {
      }
    }
  }

  // ---------- deposits ----------

  /** A deposit goes in whole, and the receiver, not the caller, gets the shares it is worth, rounded down. */
  lemma DepositExactly(s: Vault, t: Tick, caller: Address, assets: nat, receiver: Address)
    ensures Step(s, t, DepositCall(caller, assets, receiver)) == First(Deposit(s, t, caller, assets, receiver))
    ensures var accrued, r := Accrue(s, t, caller, true), Deposit(s, t, caller, assets, receiver);
            && (r.Ok? ==> accrued.Ok?)
            && (accrued.Ok? ==>
                  var a := accrued.value;
                  && TotalAssets(a) > 0
                  && var n := MulDiv(assets, TotalSupply(a), TotalAssets(a));
                     && (r.Ok? <==> 0 < assets <= MAX_DEPOSIT && a.supply + n <= MAX_UINT256
                                    && a.deposited + assets <= MAX_UINT128)
                     && (r.Ok? ==>
                           var (v, shares) := r.value;
                           && shares == n && Gains(a, v, receiver, n) && v.deposited == a.deposited + assets
                           && OnlySharesMove(a, v) && v.allowances == a.allowances))
  {
    if Accrue(s, t, caller, true).Ok? {
      SkippedKeepsAssets(s, t, caller);
    }
    hide Accrue, MulDiv;
  }

  lemma SkippedKeepsAssets(s: Vault, t: Tick, caller: Address)
    requires Accrue(s, t, caller, true).Ok?
    ensures TotalAssets(Accrue(s, t, caller, true).value) > 0
  {
    hide TaylorCompounded, MulDivUp, UserInterest;
  }

  /** A mint gives the receiver exactly the shares asked for, and takes what they are worth, rounded up. */
  lemma MintExactly(s: Vault, t: Tick, caller: Address, shares: nat, receiver: Address)
    ensures Step(s, t, MintCall(caller, shares, receiver)) == First(Mint(s, t, caller, shares, receiver))
    ensures var accrued, r := Accrue(s, t, caller, true), Mint(s, t, caller, shares, receiver);
            && (r.Ok? ==> accrued.Ok?)
            && (accrued.Ok? && TotalSupply(accrued.value) == 0 ==> r.Revert?)
            && (accrued.Ok? && TotalSupply(accrued.value) > 0 ==>
                  var a := accrued.value;
                  var cost := MulDivUp(shares, TotalAssets(a), TotalSupply(a));
                  && (r.Ok? <==> 0 < cost <= MAX_DEPOSIT && a.supply + shares <= MAX_UINT256
                                 && a.deposited + cost <= MAX_UINT128)
                  && (r.Ok? ==>
                        var (v, assets) := r.value;
                        && assets == cost && Gains(a, v, receiver, shares) && v.deposited == a.deposited + cost
                        && OnlySharesMove(a, v) && v.allowances == a.allowances))
  {
    hide Accrue, MulDivUp;
  }

  // ---------- withdrawals ----------

  /** What can be withdrawn from an owner: it is covered by the owner's shares and leaves the reserve. */
  ghost predicate Withdrawable(a: Vault, assets: nat, owner: Address) {
    && TotalSupply(a) > 0 && 0 < assets && assets + Reserve(a) <= a.deposited
    && assets * TotalSupply(a) <= BalanceOf(a, owner) * TotalAssets(a)
  }

  /** What paying `assets` out of the owner's shares leaves. */
  ghost predicate PaidOut(a: Vault, v: Vault, caller: Address, assets: nat, owner: Address, shares: nat) {
    && Gains(a, v, owner, 0 - shares) && v.deposited == a.deposited - assets && OnlySharesMove(a, v)
    && Granted(a, owner, caller, shares) && GrantUsedByOthers(a, v, owner, caller, shares)
  }

  lemma WithinMaximum(a: Vault, assets: nat, owner: Address)
    requires TotalSupply(a) > 0
    ensures MaxWithdrawWithPositions(a, owner).Ok?
    ensures 0 < assets <= MaxWithdrawWithPositions(a, owner).value <==> Withdrawable(a, assets, owner)
  {
    var worth := MulDiv(BalanceOf(a, owner), TotalAssets(a), TotalSupply(a));
    hide MulDiv;
    if assets <= worth {
      MulLe(assets, worth, TotalSupply(a));
    } else {
      MulLe(worth + 1, assets, TotalSupply(a));
    }
  }

  /** Every caller: an owner as far as it may withdraw, anyone else also only within the owner's grant. */
  lemma PayOutExactly(a: Vault, caller: Address, assets: nat, owner: Address)
    requires Withdrawable(a, assets, owner)
    ensures TotalAssets(a) > 0
    ensures var r, n := PayOut(a, caller, assets, owner), MulDivUp(assets, TotalSupply(a), TotalAssets(a));
            && n <= BalanceOf(a, owner)
            && (r.Ok? <==> Granted(a, owner, caller, n) && n <= a.supply)
            && (r.Ok? ==> r.value.1 == n && PaidOut(a, r.value.0, caller, assets, owner, n))
  {
    PayableExactly(a, owner, assets);
    hide MulDivUp, SpendIfThirdParty, BurnShares, Gains, GrantUsedByOthers, Granted;
    SpendAndBurn(a, owner, caller, MulDivUp(assets, TotalSupply(a), TotalAssets(a)));
  }

  lemma WithdrawExactly(s: Vault, t: Tick, caller: Address, assets: nat, owner: Address, legs: nat)
    ensures Step(s, t, WithdrawCall(caller, assets, owner, legs)) == First(Withdraw(s, t, caller, assets, owner, legs))
    ensures var accrued, r := Accrue(s, t, owner, false), Withdraw(s, t, caller, assets, owner, legs);
            && (r.Ok? ==> accrued.Ok? && legs == 0 && Withdrawable(accrued.value, assets, owner))
            && (accrued.Ok? && legs == 0 && Withdrawable(accrued.value, assets, owner) ==>
                  var a := accrued.value;
                  && TotalAssets(a) > 0
                  && var n := MulDivUp(assets, TotalSupply(a), TotalAssets(a));
                     && (r.Ok? <==> Granted(a, owner, caller, n) && n <= a.supply)
                     && (r.Ok? ==> r.value.1 == n && PaidOut(a, r.value.0, caller, assets, owner, n)))
  {
    if Accrue(s, t, owner, false).Ok? && TotalSupply(Accrue(s, t, owner, false).value) > 0 {
      var a := Accrue(s, t, owner, false).value;
      WithinMaximum(a, assets, owner);
      if Withdrawable(a, assets, owner) {
        PayOutExactly(a, caller, assets, owner);
      }
    }
    hide Accrue, PayOut, MaxWithdrawWithPositions, MulDivUp, MulDiv, Withdrawable, PaidOut;
    NoShares(s, t, owner);
  }

  lemma NoShares(s: Vault, t: Tick, owner: Address)
    ensures Accrue(s, t, owner, false).Ok? && TotalSupply(Accrue(s, t, owner, false).value) == 0 ==>
      MaxWithdrawWithPositions(Accrue(s, t, owner, false).value, owner).Revert?
      && forall assets :: !Withdrawable(Accrue(s, t, owner, false).value, assets, owner)
  {
    hide Accrue;
  }

  lemma WithdrawWithPositionsExactly(s: Vault, t: Tick, caller: Address, assets: nat, owner: Address, solvent: bool)
    ensures Step(s, t, WithdrawWithPositionsCall(caller, assets, owner, solvent))
            == First(WithdrawWithPositions(s, t, caller, assets, owner, solvent))
    ensures var accrued, r := Accrue(s, t, owner, false), WithdrawWithPositions(s, t, caller, assets, owner, solvent);
            && (r.Ok? ==> accrued.Ok? && solvent && Withdrawable(accrued.value, assets, owner))
            && (accrued.Ok? && solvent && Withdrawable(accrued.value, assets, owner) ==>
                  var a := accrued.value;
                  && TotalAssets(a) > 0
                  && var n := MulDivUp(assets, TotalSupply(a), TotalAssets(a));
                     && (r.Ok? <==> Granted(a, owner, caller, n) && n <= a.supply)
                     && (r.Ok? ==> r.value.1 == n && PaidOut(a, r.value.0, caller, assets, owner, n)))
  {
    if Accrue(s, t, owner, false).Ok? && TotalSupply(Accrue(s, t, owner, false).value) > 0 {
      var a := Accrue(s, t, owner, false).value;
      WithinMaximum(a, assets, owner);
      if Withdrawable(a, assets, owner) {
        PayOutExactly(a, caller, assets, owner);
      }
    }
    hide Accrue, PayOut, MaxWithdrawWithPositions, MulDivUp, MulDiv, Withdrawable, PaidOut;
    NoShares(s, t, owner);
  }

  /** What can be redeemed: shares held, worth at least one asset, that leave the virtual asset and, in shares, all
      that is credited. */
  ghost predicate Redeemable(a: Vault, shares: nat, owner: Address) {
    && TotalSupply(a) > 0 && shares <= BalanceOf(a, owner) && shares * TotalAssets(a) >= TotalSupply(a)
    && a.deposited >= 1 && (shares + a.credited) * TotalAssets(a) <= (a.deposited - 1) * TotalSupply(a)
  }

  lemma WithinMaxRedeem(a: Vault, shares: nat, owner: Address)
    requires TotalAssets(a) > 0 && TotalSupply(a) > 0
    ensures MaxRedeem(a, owner, 0).Ok?
    ensures shares <= MaxRedeem(a, owner, 0).value && MulDiv(shares, TotalAssets(a), TotalSupply(a)) > 0
            <==> Redeemable(a, shares, owner)
  {
    WorthSomething(shares, TotalAssets(a), TotalSupply(a));
    var available := MulDiv(Minus(a.deposited, 1), TotalSupply(a), TotalAssets(a));
    hide MulDiv;
    AvailableShares(shares + a.credited, Minus(a.deposited, 1), available, TotalAssets(a), TotalSupply(a));
    if shares == 0 {
      assert 0 * TotalAssets(a) == 0;
    }
  }

  lemma AvailableShares(n: nat, deposits: nat, available: nat, assets: nat, shares: nat)
    requires assets > 0 && available * assets <= deposits * shares < available * assets + assets
    ensures n <= available <==> n * assets <= deposits * shares
    ensures deposits == 0 ==> available == 0
  {
    if n <= available {
      MulLe(n, available, assets);
    } else {
      MulLe(available + 1, n, assets);
    }
    if deposits == 0 && available > 0 {
      MulLe(1, available, assets);
    }
  }

  lemma RedeemExactly(s: Vault, t: Tick, caller: Address, shares: nat, owner: Address, legs: nat)
    ensures Step(s, t, RedeemCall(caller, shares, owner, legs)) == First(Redeem(s, t, caller, shares, owner, legs))
    ensures var accrued, r := Accrue(s, t, owner, false), Redeem(s, t, caller, shares, owner, legs);
            && (r.Ok? ==> accrued.Ok? && legs == 0 && Redeemable(accrued.value, shares, owner))
            && (accrued.Ok? && legs == 0 && Redeemable(accrued.value, shares, owner) ==>
                  var a := accrued.value;
                  && (r.Ok? <==> Granted(a, owner, caller, shares) && shares <= a.supply)
                  && (r.Ok? ==>
                        && r.value.1 == MulDiv(shares, TotalAssets(a), TotalSupply(a))
                        && PaidOut(a, r.value.0, caller, r.value.1, owner, shares)))
  {
    hide Accrue, Redeem, MulDiv, Redeemable, Granted, PaidOut;
    if Redeem(s, t, caller, shares, owner, legs).Ok? {
      RedeemNeeds(s, t, caller, shares, owner, legs);
    }
    if Accrue(s, t, owner, false).Ok? && legs == 0 && Redeemable(Accrue(s, t, owner, false).value, shares, owner) {
      RedeemGives(s, t, caller, shares, owner);
    }
  }

  lemma RedeemNeeds(s: Vault, t: Tick, caller: Address, shares: nat, owner: Address, legs: nat)
    requires Redeem(s, t, caller, shares, owner, legs).Ok?
    ensures Accrue(s, t, owner, false).Ok? && legs == 0 && Redeemable(Accrue(s, t, owner, false).value, shares, owner)
  {
    hide Accrue, MulDiv, SpendIfThirdParty, BurnShares;
    RedeemPart(Accrue(s, t, owner, false).value, shares, owner);
    hide Redeemable;
  }

  lemma RedeemGives(s: Vault, t: Tick, caller: Address, shares: nat, owner: Address)
    requires Accrue(s, t, owner, false).Ok? && Redeemable(Accrue(s, t, owner, false).value, shares, owner)
    ensures var a, r := Accrue(s, t, owner, false).value, Redeem(s, t, caller, shares, owner, 0);
            && TotalSupply(a) > 0
            && (r.Ok? <==> Granted(a, owner, caller, shares) && shares <= a.supply)
            && (r.Ok? ==>
                  && r.value.1 == MulDiv(shares, TotalAssets(a), TotalSupply(a))
                  && PaidOut(a, r.value.0, caller, r.value.1, owner, shares))
  {
    var a := Accrue(s, t, owner, false).value;
    RedeemPart(a, shares, owner);
    SpendAndBurn(a, owner, caller, shares);
    hide Accrue, MulDiv, SpendIfThirdParty, BurnShares, Gains, GrantUsedByOthers, Granted, MaxRedeem;
  }

  lemma RedeemPart(a: Vault, shares: nat, owner: Address)
    ensures TotalAssets(a) == 0 || TotalSupply(a) == 0 ==> !Redeemable(a, shares, owner)
    ensures MaxRedeem(a, owner, 0).Ok? <==> TotalAssets(a) > 0
    ensures TotalAssets(a) > 0 && TotalSupply(a) > 0 ==>
      (shares <= MaxRedeem(a, owner, 0).value && MulDiv(shares, TotalAssets(a), TotalSupply(a)) > 0
       <==> Redeemable(a, shares, owner))
    ensures Redeemable(a, shares, owner) ==> MulDiv(shares, TotalAssets(a), TotalSupply(a)) <= a.deposited
  {
    if TotalAssets(a) > 0 && TotalSupply(a) > 0 {
      WithinMaxRedeem(a, shares, owner);
      if Redeemable(a, shares, owner) {
        RedeemRoom(a, shares, MulDiv(Minus(a.deposited, 1), TotalSupply(a), TotalAssets(a)));
      }
    }
    hide MulDiv;
    assert shares * 0 == 0;
  }

  // ---------- transfers ----------

  lemma TransferExactly(s: Vault, t: Tick, caller: Address, to: Address, amount: nat, legs: nat)
    ensures Step(s, t, TransferCall(caller, to, amount, legs)) == Transfer(s, t, caller, to, amount, legs)
    ensures var accrued, r := Accrue(s, t, caller, false), Transfer(s, t, caller, to, amount, legs);
            && (r.Ok? <==> accrued.Ok? && legs == 0 && amount <= BalanceOf(accrued.value, caller))
            && (r.Ok? ==>
                  && Hands(accrued.value, r.value, caller, to, amount) && OnlySharesMove(accrued.value, r.value)
                  && r.value.deposited == accrued.value.deposited && r.value.allowances == accrued.value.allowances)
  {
    hide Accrue;
  }

  /** Shares of `from` go to `to`, within what `from` granted the caller; here an owner needs a grant too. */
  lemma TransferFromExactly(s: Vault, t: Tick, caller: Address, from: Address, to: Address, amount: nat, legs: nat)
    ensures Step(s, t, TransferFromCall(caller, from, to, amount, legs))
            == TransferFrom(s, t, caller, from, to, amount, legs)
    ensures var accrued, r := Accrue(s, t, from, false), TransferFrom(s, t, caller, from, to, amount, legs);
            && (r.Ok? <==> accrued.Ok? && legs == 0 && amount <= BalanceOf(accrued.value, from)
                           && Covers(Grant(accrued.value, from, caller), amount))
            && (r.Ok? ==>
                  && Hands(accrued.value, r.value, from, to, amount) && OnlySharesMove(accrued.value, r.value)
                  && r.value.deposited == accrued.value.deposited
                  && GrantUsed(accrued.value, r.value, from, caller, amount))
  {
    hide Accrue;
  }

  /** Accruing touches no grant, and an approval only the one of its owner to its spender. */
  lemma GrantsStay(s: Vault, t: Tick, owner: Address, skip: bool)
    requires Accrue(s, t, owner, skip).Ok?
    ensures Accrue(s, t, owner, skip).value.allowances == s.allowances
  {
    hide TaylorCompounded, MulDivUp, UserInterest, MulDiv;
  }

  lemma ApproveExactly(s: Vault, t: Tick, owner: Address, spender: Address, amount: nat)
    ensures var r := Step(s, t, ApproveCall(owner, spender, amount));
            && r.Ok? && OnlySharesMove(s, r.value) && Grant(r.value, owner, spender) == amount
            && r.value.balances == s.balances && r.value.supply == s.supply && r.value.deposited == s.deposited
            && forall o: Address, p: Address :: (o, p) != (owner, spender) ==> Grant(r.value, o, p) == Grant(s, o, p)
  {
  }

  // ---------- the pool's calls ----------

  /** Phantom shares enter one balance and not the supply, and leave it again. */
  lemma DelegationExactly(s: Vault, t: Tick, u: Address)
    ensures var r := Step(s, t, DelegateCall(u));
            && (r.Ok? <==> BalanceOf(s, u) + PHANTOM <= MAX_UINT256)
            && (r.Ok? ==>
                  && r.value == s.(balances := r.value.balances)
                  && forall w :: BalanceOf(r.value, w) == BalanceOf(s, w) + (if w == u then PHANTOM else 0))
    ensures var r := Step(s, t, RevokeCall(u));
            && (r.Ok? <==> BalanceOf(s, u) >= PHANTOM)
            && (r.Ok? ==>
                  && r.value == s.(balances := r.value.balances)
                  && forall w :: BalanceOf(r.value, w) == BalanceOf(s, w) - (if w == u then PHANTOM else 0))
  {
  }

  /** A positive amount goes from the refunder to the refundee, a negative one the other way, in shares rounded down. */
  lemma RefundExactly(s: Vault, t: Tick, refunder: Address, refundee: Address, owed: int)
    ensures var r := Step(s, t, RefundCall(refunder, refundee, owed));
            var (payer, payee) := if owed > 0 then (refunder, refundee) else (refundee, refunder);
            var amount: nat := if owed > 0 then owed else 0 - owed;
            if TotalAssets(s) == 0 then r.Revert?
            else
              var n := MulDiv(amount, TotalSupply(s), TotalAssets(s));
              && (r.Ok? <==> n <= BalanceOf(s, payer))
              && (r.Ok? ==> Hands(s, r.value, payer, payee, n) && r.value == s.(balances := r.value.balances))
  {
    hide MulDiv;
  }
}
