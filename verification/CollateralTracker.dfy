/** The vault as the contract keeps it: storage fields that calls update step by step. */
module CollateralTracker {
  import opened Results
  import opened FixedPoint
  import opened Ledger
  import opened LedgerShares
  import opened LedgerInterest

  /** A call did what `spec` says: the result it returns, and on success the state it leaves. */
  ghost predicate Did<T>(spec: Result<(Vault, T)>, now: Vault, r: Result<T>) {
    match spec
    case Ok((v, value)) => r == Ok(value) && now == v
    case Revert(e) => r == Revert(e)
  }

  ghost predicate DidStep(spec: Result<Vault>, now: Vault, r: Result<()>) {
    match spec
    case Ok(v) => r.Ok? && now == v
    case Revert(e) => r == Revert(e)
  }

  class CollateralTracker {
    var initialized: bool
    var depositedAssets: nat
    var assetsInAMM: nat
    var creditedShares: nat
    var internalSupply: nat
    var unrealizedInterest: nat
    var borrowIndex: nat
    var marketEpoch: nat
    var balanceOf: map<Address, nat>
    var allowance: map<(Address, Address), nat>
    var interestState: map<Address, Borrower>

    ghost var genesis: nat
    ghost var history: seq<(Tick, Call)>

    /** The state as a value. */
    function View(): Vault
      reads this
    {
      Vault(depositedAssets, assetsInAMM, creditedShares, internalSupply, unrealizedInterest,
            borrowIndex, marketEpoch, balanceOf, allowance, interestState)
    }

    /** An initialized vault is the outcome of the calls made on it so far; before that, storage is clear. */
    ghost predicate Valid()
      reads this
    {
      if initialized then Run(Initial(genesis), history) == Ok(View())
      else View() == Vault(0, 0, 0, 0, 0, 0, 0, map[], map[], map[])
    }

    constructor ()
      ensures Valid() && !initialized
    {
      initialized := false;
      depositedAssets, assetsInAMM, creditedShares, internalSupply := 0, 0, 0, 0;
      unrealizedInterest, borrowIndex, marketEpoch := 0, 0, 0;
      balanceOf, allowance, interestState := map[], map[], map[];
      genesis, history := 0, [];
    }

    /** Works once; a second call changes nothing. */
    method Initialize(epoch: nat) returns (ok: bool)
      requires Valid()
      modifies this
      ensures Valid() && initialized && ok == !old(initialized)
      ensures View() == if ok then Initial(epoch) else old(View())
      ensures history == if ok then [] else old(history)
    {
      hide Step;
      if initialized {
        return false;
      }
      initialized := true;
      internalSupply := VIRTUAL_SHARES;
      depositedAssets := 1;
      borrowIndex, marketEpoch, unrealizedInterest := WAD, epoch, 0;
      genesis, history := epoch, [];
      return true;
    }

    /** One external call: it takes effect as a whole or, when it reverts, not at all. */
    method Execute(t: Tick, c: Call) returns (r: Result<()>)
      requires initialized && Valid()
      modifies this
      ensures initialized && Valid() && genesis == old(genesis)
      ensures DidStep(Step(old(View()), t, c), View(), r)
      ensures r.Revert? ==> View() == old(View()) && history == old(history)
      ensures r.Ok? ==> history == old(history) + [(t, c)]
    {
      var before := View();
      r := Dispatch(t, c);
      if r.Revert? {
        Restore(before);
      } else {
        history := history + [(t, c)];
        assert history[..|history| - 1] == old(history);
      }
    }

    method Restore(s: Vault)
      modifies this
      ensures View() == s && initialized == old(initialized) && genesis == old(genesis) && history == old(history)
    {
      depositedAssets, assetsInAMM, creditedShares, internalSupply := s.deposited, s.inAMM, s.credited, s.supply;
      unrealizedInterest, borrowIndex, marketEpoch := s.unrealized, s.borrowIndex, s.epoch;
      balanceOf, allowance, interestState := s.balances, s.allowances, s.borrowers;
    }

    /** What no sequence of calls can break: checkpoints stay between 1e18 and the index, and balances
        plus virtual shares are the supply plus the phantom shares of the open delegations. */
    lemma Invariants()
      requires initialized && Valid()
      ensures Indexed(View())
      ensures Surplus(View()) == PHANTOM as real * Outstanding(history) as real - VIRTUAL_SHARES as real
    {
      IndexInvariant(genesis, history);
      PhantomConservation(genesis, history);
    }

    // ---------- share movements ----------

    method MintTo(to: Address, amount: nat) returns (r: Result<()>)
      modifies `balanceOf, `internalSupply
      ensures DidStep(MintShares(old(View()), to, amount), View(), r)
    {
      balanceOf := balanceOf[to := (if to in balanceOf then balanceOf[to] else 0) + amount];
      if internalSupply + amount > MAX_UINT256 {
        return Revert(Panic);
      }
      internalSupply := internalSupply + amount;
      return Ok(());
    }

    method BurnFrom(from: Address, amount: nat) returns (r: Result<()>)
      modifies `balanceOf, `internalSupply
      ensures DidStep(BurnShares(old(View()), from, amount), View(), r)
    {
      var held := BalanceOf(View(), from);
      if held < amount {
        return Revert(Panic);
      }
      balanceOf := balanceOf[from := held - amount];
      if internalSupply < amount {
        return Revert(Panic);
      }
      internalSupply := internalSupply - amount;
      return Ok(());
    }

    method Move(from: Address, to: Address, amount: nat) returns (r: Result<()>)
      modifies `balanceOf
      ensures DidStep(MoveShares(old(View()), from, to, amount), View(), r)
    {
      var held := BalanceOf(View(), from);
      if held < amount {
        return Revert(Panic);
      }
      balanceOf := balanceOf[from := held - amount];
      balanceOf := balanceOf[to := BalanceOf(View(), to) + amount];
      return Ok(());
    }

    method UseAllowance(owner: Address, spender: Address, amount: nat) returns (r: Result<()>)
      modifies `allowance
      ensures DidStep(SpendAllowance(old(View()), owner, spender, amount), View(), r)
    {
      var allowed := AllowanceOf(View(), owner, spender);
      if allowed != MAX_UINT256 {
        if allowed < amount {
          return Revert(Panic);
        }
        allowance := allowance[(owner, spender) := allowed - amount];
      }
      return Ok(());
    }

    // ---------- interest ----------

    /** `_accrueInterest`: global interest first, then the owner's. */
    method AccrueInterest(t: Tick, owner: Address, skip: bool) returns (r: Result<()>)
      modifies `balanceOf, `internalSupply, `unrealizedInterest, `borrowIndex, `marketEpoch, `interestState
      ensures DidStep(Accrue(old(View()), t, owner, skip), View(), r)
    {
      hide Compound, PayInterest, TotalAssets;
      if TotalAssets(View()) == 0 {
        return Revert(DivisionByZero);
      }
      ghost var c := Compound(View(), t);
      var index, bucket := GlobalInterest(t);
      var user :- PayUser(c, owner, skip, index, bucket);
      interestState := interestState[owner := user.0];
      borrowIndex, marketEpoch, unrealizedInterest := index, t.epoch, user.1;
      return Ok(());
    }

    /** The owner's part: burn what is owed, and return the new checkpoint and what is left in the bucket. */
    method PayUser(ghost c: Vault, owner: Address, skip: bool, index: nat, bucket: nat)
      returns (r: Result<(Borrower, nat)>)
      requires c == View().(unrealized := bucket, borrowIndex := index, epoch := c.epoch)
      modifies `balanceOf, `internalSupply
      ensures match PayInterest(c, owner, skip)
              case Ok(v) => r.Ok? && v == c.(balances := balanceOf, supply := internalSupply, unrealized := r.value.1,
                                             borrowers := interestState[owner := r.value.0])
              case Revert(e) => r == Revert(e)
    {
      hide UserInterest, MulDiv, MulDivUp;
      var state := BorrowerOf(View(), owner);
      var checkpoint, left := index, bucket;
      var owed :- UserInterest(state, index);
      if owed != 0 {
        var assets := depositedAssets + assetsInAMM + bucket;
        var shares :- DivUp(owed, internalSupply + creditedShares, assets);
        var worth := owed;
        var held := BalanceOf(View(), owner);
        if skip {
          worth := 0;
          checkpoint := state.index;
        } else if shares > held {
          worth :- Div(held, assets, internalSupply + creditedShares);
          var _ :- BurnAny(owner, held);
          checkpoint := state.index;
        } else {
          var _ :- BurnAny(owner, shares);
        }
        left := if worth > bucket then 0 else bucket - worth;
      }
      return Ok((Borrower(checkpoint, state.net), left));
    }

    /** `_calculateCurrentInterestState`: the index and the bucket at `t`, without storing them. */
    method GlobalInterest(t: Tick) returns (index: nat, bucket: nat)
      ensures Compound(View(), t) == View().(unrealized := bucket, borrowIndex := index, epoch := t.epoch)
    {
      index, bucket := borrowIndex, unrealizedInterest;
      var seconds := (t.epoch - marketEpoch) % 0x1_0000_0000 * 4 % 0x1_0000_0000;
      if seconds > 0 {
        var growth := TaylorCompounded(t.rate, seconds);
        bucket := bucket + MulDivUp(assetsInAMM, growth, WAD);
        index := MulDivUp(index, WAD + growth, WAD);
      }
    }

    /** Burning nothing writes nothing. */
    method BurnAny(from: Address, amount: nat) returns (r: Result<()>)
      modifies `balanceOf, `internalSupply
      ensures DidStep(if amount == 0 then Ok(old(View())) else BurnShares(old(View()), from, amount), View(), r)
    {
      if amount == 0 {
        return Ok(());
      }
      r := BurnFrom(from, amount);
    }

    // ---------- deposits and withdrawals ----------

    method DepositAssets(t: Tick, caller: Address, assets: nat, receiver: Address) returns (r: Result<nat>)
      modifies this
      ensures Did(Deposit(old(View()), t, caller, assets, receiver), View(), r)
      ensures unchanged(`initialized, `genesis, `history)
    {
      hide Accrue, MulDiv, MulDivUp;
      var _ :- AccrueInterest(t, caller, true);
      var _ :- Need(assets <= MAX_DEPOSIT, DepositTooLarge);
      var _ :- Need(assets > 0, BelowMinimumRedemption);
      var shares :- ConvertToShares(View(), assets);
      var _ :- MintTo(receiver, shares);
      var _ :- Need(depositedAssets + assets <= MAX_UINT128, Panic);
      depositedAssets := depositedAssets + assets;
      return Ok(shares);
    }

    method MintExact(t: Tick, caller: Address, shares: nat, receiver: Address) returns (r: Result<nat>)
      modifies this
      ensures Did(Mint(old(View()), t, caller, shares, receiver), View(), r)
      ensures unchanged(`initialized, `genesis, `history)
    {
      hide Accrue, MulDiv, MulDivUp;
      var _ :- AccrueInterest(t, caller, true);
      var assets :- DivUp(shares, TotalAssets(View()), TotalSupply(View()));
      var _ :- Need(assets <= MAX_DEPOSIT, DepositTooLarge);
      var _ :- Need(assets > 0, BelowMinimumRedemption);
      var _ :- MintTo(receiver, shares);
      var _ :- Need(depositedAssets + assets <= MAX_UINT128, Panic);
      depositedAssets := depositedAssets + assets;
      return Ok(assets);
    }

    method PayAssets(caller: Address, assets: nat, owner: Address) returns (r: Result<nat>)
      modifies this
      ensures Did(PayOut(old(View()), caller, assets, owner), View(), r)
      ensures unchanged(`initialized, `genesis, `history)
    {
      var shares :- DivUp(assets, TotalSupply(View()), TotalAssets(View()));
      if caller != owner {
        var _ :- UseAllowance(owner, caller, shares);
      }
      var _ :- BurnFrom(owner, shares);
      var _ :- Need(assets <= depositedAssets, Panic);
      depositedAssets := depositedAssets - assets;
      return Ok(shares);
    }

    method WithdrawAssets(t: Tick, caller: Address, assets: nat, owner: Address, legs: nat) returns (r: Result<nat>)
      modifies this
      ensures Did(Withdraw(old(View()), t, caller, assets, owner, legs), View(), r)
      ensures unchanged(`initialized, `genesis, `history)
    {
      hide Accrue, MulDiv, MulDivUp;
      var _ :- AccrueInterest(t, owner, false);
      var most :- MaxWithdraw(View(), owner, legs);
      var _ :- Need(assets <= most, ExceedsMaximumRedemption);
      var _ :- Need(assets > 0, BelowMinimumRedemption);
      r := PayAssets(caller, assets, owner);
    }

    method WithdrawAssetsWithPositions(t: Tick, caller: Address, assets: nat, owner: Address, solvent: bool)
      returns (r: Result<nat>)
      modifies this
      ensures Did(WithdrawWithPositions(old(View()), t, caller, assets, owner, solvent), View(), r)
      ensures unchanged(`initialized, `genesis, `history)
    {
      hide Accrue, MulDiv, MulDivUp;
      var _ :- AccrueInterest(t, owner, false);
      var _ :- Need(assets > 0, BelowMinimumRedemption);
      var most :- MaxWithdrawWithPositions(View(), owner);
      var _ :- Need(assets <= most, ExceedsMaximumRedemption);
      var shares :- PayAssets(caller, assets, owner);
      var _ :- Need(solvent, AccountInsolvent);
      return Ok(shares);
    }

    method RedeemShares(t: Tick, caller: Address, shares: nat, owner: Address, legs: nat) returns (r: Result<nat>)
      modifies this
      ensures Did(Redeem(old(View()), t, caller, shares, owner, legs), View(), r)
      ensures unchanged(`initialized, `genesis, `history)
    {
      hide Accrue, MulDiv, MulDivUp;
      var _ :- AccrueInterest(t, owner, false);
      var most :- MaxRedeem(View(), owner, legs);
      var _ :- Need(shares <= most, ExceedsMaximumRedemption);
      if caller != owner {
        var _ :- UseAllowance(owner, caller, shares);
      }
      var assets :- ConvertToAssets(View(), shares);
      var _ :- Need(assets > 0, BelowMinimumRedemption);
      var _ :- BurnFrom(owner, shares);
      var _ :- Need(assets <= depositedAssets, Panic);
      depositedAssets := depositedAssets - assets;
      return Ok(assets);
    }

    method TransferShares(t: Tick, caller: Address, to: Address, amount: nat, legs: nat) returns (r: Result<()>)
      modifies this
      ensures DidStep(Transfer(old(View()), t, caller, to, amount, legs), View(), r)
      ensures unchanged(`initialized, `genesis, `history)
    {
      hide Accrue, MulDiv, MulDivUp;
      var _ :- AccrueInterest(t, caller, false);
      var _ :- Need(legs == 0, PositionCountNotZero);
      r := Move(caller, to, amount);
    }

    method TransferSharesFrom(t: Tick, caller: Address, from: Address, to: Address, amount: nat, legs: nat)
      returns (r: Result<()>)
      modifies this
      ensures DidStep(TransferFrom(old(View()), t, caller, from, to, amount, legs), View(), r)
      ensures unchanged(`initialized, `genesis, `history)
    {
      hide Accrue, MulDiv, MulDivUp;
      var _ :- AccrueInterest(t, from, false);
      var _ :- Need(legs == 0, PositionCountNotZero);
      var _ :- UseAllowance(from, caller, amount);
      r := Move(from, to, amount);
    }

    // ---------- calls reserved to the pool ----------

    method DelegateTo(account: Address) returns (r: Result<()>)
      modifies `balanceOf
      ensures DidStep(Delegate(old(View()), account), View(), r)
    {
      var held := BalanceOf(View(), account);
      var _ :- Need(held + PHANTOM <= MAX_UINT256, Panic);
      balanceOf := balanceOf[account := held + PHANTOM];
      return Ok(());
    }

    method RevokeFrom(account: Address) returns (r: Result<()>)
      modifies `balanceOf
      ensures DidStep(Revoke(old(View()), account), View(), r)
    {
      var held := BalanceOf(View(), account);
      var _ :- Need(held >= PHANTOM, Panic);
      balanceOf := balanceOf[account := held - PHANTOM];
      return Ok(());
    }

    method RefundShares(refunder: Address, refundee: Address, assets: int) returns (r: Result<()>)
      modifies `balanceOf
      ensures DidStep(Refund(old(View()), refunder, refundee, assets), View(), r)
    {
      if assets > 0 {
        var shares :- ConvertToShares(View(), assets);
        r := Move(refunder, refundee, shares);
      } else {
        var shares :- ConvertToShares(View(), -assets);
        var _ :- Need(BalanceOf(View(), refundee) >= shares, NotEnoughTokens);
        r := Move(refundee, refunder, shares);
      }
    }

    /** `_updateBalancesAndSettle`; returns the amount paid and the totals the price is taken at. */
    method UpdateAndSettle(t: Tick, x: Settlement) returns (r: Result<(int, nat, nat)>)
      modifies this
      ensures match UpdateBalancesAndSettle(old(View()), t, x)
              case Ok(d) => r == Ok((d.paid, d.assets, d.shares)) && View() == d.vault
              case Revert(e) => r == Revert(e)
      ensures unchanged(`initialized, `genesis, `history)
    {
      hide Accrue, CreditAfter, ChargeOwner;
      var _ :- AccrueInterest(t, x.owner, false);
      ghost var a := View();
      var assets, shares := TotalAssets(View()), TotalSupply(View());
      var net := NetBorrows(x);
      var due := x.ammDelta - net - x.premium;
      var haircut :- BookCredit(x, assets, shares);
      due := due + haircut;
      var _ :- Charge(a, x.owner, due, assets, shares);
      var deposited := depositedAssets - x.ammDelta + x.premium;
      var inAMM := if x.opening then assetsInAMM + x.short else assetsInAMM - x.short;
      var _ :- Need(0 <= deposited <= MAX_UINT128 && 0 <= inAMM <= MAX_UINT128, CastingError);
      depositedAssets := deposited;
      assetsInAMM := inAMM;
      var state := BorrowerOf(View(), x.owner);
      interestState := interestState[x.owner := Borrower(state.index, state.net + net)];
      var _ :- Need(TotalAssets(View()) > 0, DivisionByZero);
      return Ok((due, assets, shares));
    }

    /** Credit the long amount, or take it back; returns what is owed for taking back more than there is. */
    method BookCredit(x: Settlement, assets: nat, shares: nat) returns (r: Result<nat>)
      requires assets == TotalAssets(View()) && shares == TotalSupply(View())
      modifies `creditedShares
      ensures match CreditAfter(old(View()), x)
              case Ok((credited, haircut)) => r == Ok(haircut) && View() == old(View()).(credited := credited)
              case Revert(e) => r == Revert(e)
    {
      var credit := 0;
      if x.long > 0 {
        if x.opening {
          credit :- DivUp(x.long, shares, assets);
        } else {
          credit :- Div(x.long, shares, assets);
        }
      }
      if x.opening {
        creditedShares := creditedShares + credit;
      } else if creditedShares < credit {
        var haircut :- DivUp(credit - creditedShares, assets, shares);
        var _ :- Need(haircut <= MAX_UINT128, CastingError);
        creditedShares := 0;
        return Ok(haircut);
      } else {
        creditedShares := creditedShares - credit;
      }
      return Ok(0);
    }

    method Charge(ghost a: Vault, owner: Address, due: int, assets: nat, shares: nat) returns (r: Result<()>)
      requires assets == TotalAssets(a) && shares == TotalSupply(a)
      modifies `balanceOf, `internalSupply
      ensures DidStep(ChargeOwner(a, old(View()), owner, due), View(), r)
    {
      if due > 0 {
        var n :- DivUp(due, shares, assets);
        var _ :- Need(BalanceOf(View(), owner) >= n, NotEnoughTokens);
        r := BurnFrom(owner, n);
      } else if due < 0 {
        var n :- Div(-due, shares, assets);
        r := MintTo(owner, n);
      } else {
        r := Ok(());
      }
    }

    method Commission(ghost d: Settled, owner: Address, fee: nat, assets: nat, shares: nat, risk: RiskParameters)
      returns (r: Result<()>)
      requires d.vault == View() && assets == d.assets && shares == d.shares
      modifies `balanceOf, `internalSupply
      ensures DidStep(TakeCommission(d, owner, fee, risk), View(), r)
    {
      var n :- DivUp(fee, shares, assets);
      var _ :- Need(BalanceOf(View(), owner) >= n, NotEnoughTokens);
      if risk.feeRecipient == 0 {
        r := BurnFrom(owner, n);
      } else {
        var _ :- Move(owner, risk.riskEngine, n * risk.protocolSplit / DECIMALS);
        r := Move(owner, risk.feeRecipient, n * risk.builderSplit / DECIMALS);
      }
    }

    method SettleOpening(t: Tick, owner: Address, long: nat, short: nat, ammDelta: int, risk: RiskParameters)
      returns (r: Result<int>)
      modifies this
      ensures Did(SettleMint(old(View()), t, owner, long, short, ammDelta, risk), View(), r)
      ensures unchanged(`initialized, `genesis, `history)
    {
      hide UpdateBalancesAndSettle, TakeCommission, OpeningFee;
      var x := Settlement(owner, true, long, short, ammDelta, 0);
      var d :- UpdateAndSettle(t, x);
      var fee := OpeningFee(x, risk);
      var _ :- Commission(Settled(View(), d.0, d.1, d.2), owner, fee, d.1, d.2, risk);
      return Ok(d.0 + fee);
    }

    method SettleClosing(t: Tick, owner: Address, long: nat, short: nat, ammDelta: int, premium: int,
                         risk: RiskParameters)
      returns (r: Result<int>)
      modifies this
      ensures Did(SettleBurn(old(View()), t, owner, long, short, ammDelta, premium, risk), View(), r)
      ensures unchanged(`initialized, `genesis, `history)
    {
      hide UpdateBalancesAndSettle, TakeCommission, ClosingFee;
      var x := Settlement(owner, false, long, short, ammDelta, premium);
      var d :- UpdateAndSettle(t, x);
      if premium == 0 {
        return Ok(d.0);
      }
      var fee := ClosingFee(x, risk);
      var _ :- Commission(Settled(View(), d.0, d.1, d.2), owner, fee, d.1, d.2, risk);
      return Ok(d.0 + fee);
    }

    /** Take the phantom shares back; what is missing becomes supply and is returned as loss. */
    method ReturnPhantom(account: Address) returns (shortfall: nat)
      modifies `balanceOf, `internalSupply
      ensures (View(), shortfall) == TakePhantom(old(View()), account)
    {
      var held := BalanceOf(View(), account);
      shortfall := 0;
      if PHANTOM > held {
        shortfall := PHANTOM - held;
        internalSupply := internalSupply + shortfall;
        held := 0;
      } else {
        held := held - PHANTOM;
      }
      balanceOf := balanceOf[account := held];
    }

    method Liquidate(liquidator: Address, liquidatee: Address, bonus: int) returns (r: Result<nat>)
      modifies `balanceOf, `internalSupply, `depositedAssets
      ensures match SettleLiquidation(old(View()), liquidator, liquidatee, bonus)
              case Ok(l) => r == Ok(l.loss) && View() == l.vault
              case Revert(e) => r == Revert(e)
    {
      var loss := 0;
      if bonus < 0 {
        var shares :- ConvertToShares(View(), -bonus);
        var _ :- MintTo(liquidatee, shares);
        var _ :- Need(depositedAssets + -bonus <= MAX_UINT128, Panic);
        depositedAssets := depositedAssets + -bonus;
        loss := ReturnPhantom(liquidatee);
      } else {
        loss := ReturnPhantom(liquidatee);
        var kept := BalanceOf(View(), liquidatee);
        var shares :- ConvertToShares(View(), bonus);
        if shares > kept {
          var moved := Move(liquidatee, liquidator, kept);
          var minted := BonusMint(View(), bonus, kept);
          var _ :- MintTo(liquidator, minted);
          loss := loss + minted;
        } else {
          var moved := Move(liquidatee, liquidator, shares);
        }
      }
      return Ok(loss);
    }

    // ---------- dispatch ----------

    method Dispatch(t: Tick, c: Call) returns (r: Result<()>)
      modifies this
      ensures DidStep(Step(old(View()), t, c), View(), r)
      ensures unchanged(`initialized, `genesis, `history)
    {
      hide Accrue, Deposit, Mint, Withdraw, WithdrawWithPositions, Redeem, Transfer, TransferFrom, Delegate;
      hide Revoke, Refund, SettleMint, SettleBurn, SettleLiquidation;
      match c
      case AccrueCall(owner) => r := AccrueInterest(t, owner, false);
      case DepositCall(caller, assets, receiver) =>
        var _ :- DepositAssets(t, caller, assets, receiver);
        r := Ok(());
      case MintCall(caller, shares, receiver) =>
        var _ :- MintExact(t, caller, shares, receiver);
        r := Ok(());
      case WithdrawCall(caller, assets, owner, legs) =>
        var _ :- WithdrawAssets(t, caller, assets, owner, legs);
        r := Ok(());
      case WithdrawWithPositionsCall(caller, assets, owner, solvent) =>
        var _ :- WithdrawAssetsWithPositions(t, caller, assets, owner, solvent);
        r := Ok(());
      case RedeemCall(caller, shares, owner, legs) =>
        var _ :- RedeemShares(t, caller, shares, owner, legs);
        r := Ok(());
      case TransferCall(caller, to, amount, legs) => r := TransferShares(t, caller, to, amount, legs);
      case TransferFromCall(caller, from, to, amount, legs) =>
        r := TransferSharesFrom(t, caller, from, to, amount, legs);
      case ApproveCall(owner, spender, amount) =>
        allowance := allowance[(owner, spender) := amount];
        r := Ok(());
      case DelegateCall(a) => r := DelegateTo(a);
      case RevokeCall(a) => r := RevokeFrom(a);
      case RefundCall(refunder, refundee, owed) => r := RefundShares(refunder, refundee, owed);
      case SettleMintCall(owner, long, short, ammDelta, risk) =>
        var _ :- SettleOpening(t, owner, long, short, ammDelta, risk);
        r := Ok(());
      case SettleBurnCall(owner, long, short, ammDelta, premium, risk) =>
        var _ :- SettleClosing(t, owner, long, short, ammDelta, premium, risk);
        r := Ok(());
      case SettleLiquidationCall(liquidator, liquidatee, bonus) =>
        var _ :- Liquidate(liquidator, liquidatee, bonus);
        r := Ok(());
    }
  }
}
