/** The share and interest ledger of one collateral vault: its state and what each call makes of it. */
module Ledger {
  import opened Results
  import opened FixedPoint

  const WAD: nat := 1_000_000_000_000_000_000
  const DECIMALS: nat := 10_000
  const VIRTUAL_SHARES: nat := 1_000_000
  const MAX_DEPOSIT: nat := 0xFF_FFFF_FFFF_FFFF_FFFF_FFFF_FFFF                          // 2^104 - 1
  const PHANTOM: nat := 0xFF_FFFF_FFFF_FFFF_FFFF_FFFF_FFFF_FFFF_FFFF_FFFF_FFFF_FFFF_FFFF_FFFF_FFFF_FFFF  // 2^248 - 1
  const MAX_UINT256: nat := 0xFFFF_FFFF_FFFF_FFFF_FFFF_FFFF_FFFF_FFFF_FFFF_FFFF_FFFF_FFFF_FFFF_FFFF_FFFF_FFFF

  type Address = nat

  /** A user's checkpoint of the borrow index and net borrowed amount. */
  datatype Borrower = Borrower(index: nat, net: int)

  datatype Vault = Vault(
    deposited: nat,
    inAMM: nat,
    credited: nat,
    supply: nat,
    unrealized: nat,
    borrowIndex: nat,
    epoch: nat,
    balances: map<Address, nat>,
    allowances: map<(Address, Address), nat>,
    borrowers: map<Address, Borrower>)

  /** What a call observes of the outside: the block's epoch and the engine's interest rate. */
  datatype Tick = Tick(epoch: nat, rate: nat)

  datatype RiskParameters = RiskParameters(
    notionalFee: nat, premiumFee: nat, protocolSplit: nat, builderSplit: nat,
    feeRecipient: Address, riskEngine: Address)

  /** One opening or closing of option legs, in this vault's token. */
  datatype Settlement = Settlement(
    owner: Address, opening: bool, long: nat, short: nat, ammDelta: int, premium: int)

  function Initial(epoch: nat): Vault {
    Vault(1, 0, 0, VIRTUAL_SHARES, 0, WAD, epoch, map[], map[], map[])
  }

  // ---------- totals and conversions ----------

  function TotalAssets(s: Vault): nat {
    s.deposited + s.inAMM + s.unrealized
  }

  function TotalSupply(s: Vault): nat {
    s.supply + s.credited
  }

  function BalanceOf(s: Vault, a: Address): nat {
    if a in s.balances then s.balances[a] else 0
  }

  function BorrowerOf(s: Vault, a: Address): Borrower {
    if a in s.borrowers then s.borrowers[a] else Borrower(0, 0)
  }

  /** Division as `Math.mulDiv` does it: a zero denominator reverts. */
  function Div(a: nat, b: nat, d: nat): Result<nat> {
    if d == 0 then Revert(DivisionByZero) else Ok(MulDiv(a, b, d))
  }

  function DivUp(a: nat, b: nat, d: nat): Result<nat> {
    if d == 0 then Revert(DivisionByZero) else Ok(MulDivUp(a, b, d))
  }

  function ConvertToShares(s: Vault, assets: nat): Result<nat> {
    Div(assets, TotalSupply(s), TotalAssets(s))
  }

  function ConvertToAssets(s: Vault, shares: nat): Result<nat> {
    Div(shares, TotalAssets(s), TotalSupply(s))
  }

  // ---------- share movements ----------

  function MintShares(s: Vault, to: Address, amount: nat): Result<Vault> {
    if s.supply + amount > MAX_UINT256 then Revert(Panic)
    else Ok(s.(balances := s.balances[to := BalanceOf(s, to) + amount], supply := s.supply + amount))
  }

  function BurnShares(s: Vault, from: Address, amount: nat): Result<Vault> {
    if BalanceOf(s, from) < amount || s.supply < amount then Revert(Panic)
    else Ok(s.(balances := s.balances[from := BalanceOf(s, from) - amount], supply := s.supply - amount))
  }

  function MoveShares(s: Vault, from: Address, to: Address, amount: nat): Result<Vault> {
    if BalanceOf(s, from) < amount then Revert(Panic)
    else
      var taken := s.(balances := s.balances[from := BalanceOf(s, from) - amount]);
      Ok(taken.(balances := taken.balances[to := BalanceOf(taken, to) + amount]))
  }

  function AllowanceOf(s: Vault, owner: Address, spender: Address): nat {
    if (owner, spender) in s.allowances then s.allowances[(owner, spender)] else 0
  }

  function Approve(s: Vault, owner: Address, spender: Address, amount: nat): Vault {
    s.(allowances := s.allowances[(owner, spender) := amount])
  }

  /** Use up `amount` of what `owner` granted `spender`; an unlimited grant is left as it is. */
  function SpendAllowance(s: Vault, owner: Address, spender: Address, amount: nat): Result<Vault> {
    var allowed := AllowanceOf(s, owner, spender);
    if allowed == MAX_UINT256 then Ok(s)
    else if allowed < amount then Revert(Panic)
    else Ok(Approve(s, owner, spender, allowed - amount))
  }

  /** As `SpendAllowance`, but an owner needs no grant for its own shares. */
  function SpendIfThirdParty(s: Vault, owner: Address, caller: Address, amount: nat): Result<Vault> {
    if caller == owner then Ok(s) else SpendAllowance(s, owner, caller, amount)
  }

  // ---------- interest ----------

  /** Seconds since the last accrual, from epochs of four seconds; both the difference and the shift keep 32 bits. */
  function Elapsed(s: Vault, t: Tick): nat {
    (t.epoch - s.epoch) % 0x1_0000_0000 * 4 % 0x1_0000_0000
  }

  /** Three terms of e^(rate * seconds) - 1. */
  function TaylorCompounded(rate: nat, seconds: nat): nat {
    var first := rate * seconds;
    var second := MulDiv(first, first, 2 * WAD);
    first + second + MulDiv(second, first, 3 * WAD)
  }

  /** The vault after global interest up to `t` has been added, before any user pays. */
  function Compound(s: Vault, t: Tick): Vault {
    var seconds := Elapsed(s, t);
    if seconds == 0 then s.(epoch := t.epoch)
    else
      var growth := TaylorCompounded(t.rate, seconds);
      s.(unrealized := s.unrealized + MulDivUp(s.inAMM, growth, WAD),
         borrowIndex := MulDivUp(s.borrowIndex, WAD + growth, WAD),
         epoch := t.epoch)
  }

  /** Interest owed since the user's checkpoint. */
  function UserInterest(b: Borrower, index: nat): Result<nat> {
    if b.net <= 0 || b.index == 0 || index == b.index then Ok(0)
    else if index < b.index then Revert(Panic)
    else Ok(MulDivUp(b.net, index - b.index, b.index))
  }

  /** The shares a user burns for interest, what they are worth, and whether the debt is cleared. */
  datatype Payment = Payment(shares: nat, worth: nat, cleared: bool)

  function PaymentOf(c: Vault, owner: Address, skip: bool): Result<Payment> {
    var owed :- UserInterest(BorrowerOf(c, owner), c.borrowIndex);
    if owed == 0 then Ok(Payment(0, 0, true))
    else
      var shares :- DivUp(owed, TotalSupply(c), TotalAssets(c));
      if skip then Ok(Payment(0, 0, false))
      else if shares > BalanceOf(c, owner) then
        var worth :- ConvertToAssets(c, BalanceOf(c, owner));
        Ok(Payment(BalanceOf(c, owner), worth, false))
      else Ok(Payment(shares, owed, true))
  }

  /** The checkpoint moves to the current index only when the debt was cleared. */
  function Checkpoint(c: Vault, owner: Address, cleared: bool): Borrower {
    var b := BorrowerOf(c, owner);
    Borrower(if cleared then c.borrowIndex else b.index, b.net)
  }

  function PayInterest(c: Vault, owner: Address, skip: bool): Result<Vault> {
    var p :- PaymentOf(c, owner, skip);
    var burnt :- if p.shares == 0 then Ok(c) else BurnShares(c, owner, p.shares);
    Ok(burnt.(unrealized := if p.worth > c.unrealized then 0 else c.unrealized - p.worth,
              borrowers := c.borrowers[owner := Checkpoint(c, owner, p.cleared)]))
  }

  function Accrue(s: Vault, t: Tick, owner: Address, skip: bool): Result<Vault> {
    // the utilization read by the rate model divides by the total assets
    var _ :- Need(TotalAssets(s) > 0, DivisionByZero);
    PayInterest(Compound(s, t), owner, skip)
  }

  // ---------- deposits and withdrawals ----------

  function AddDeposit(s: Vault, assets: nat): Result<Vault> {
    if s.deposited + assets > MAX_UINT128 then Revert(Panic)
    else Ok(s.(deposited := s.deposited + assets))
  }

  function TakeDeposit(s: Vault, assets: nat): Result<Vault> {
    if s.deposited < assets then Revert(Panic) else Ok(s.(deposited := s.deposited - assets))
  }

  function Deposit(s: Vault, t: Tick, caller: Address, assets: nat, receiver: Address): Result<(Vault, nat)> {
    var a :- Accrue(s, t, caller, true);
    var _ :- Need(assets <= MAX_DEPOSIT, DepositTooLarge);
    var _ :- Need(assets > 0, BelowMinimumRedemption);
    var shares :- ConvertToShares(a, assets);
    var m :- MintShares(a, receiver, shares);
    var d :- AddDeposit(m, assets);
    Ok((d, shares))
  }

  function Mint(s: Vault, t: Tick, caller: Address, shares: nat, receiver: Address): Result<(Vault, nat)> {
    var a :- Accrue(s, t, caller, true);
    var assets :- DivUp(shares, TotalAssets(a), TotalSupply(a));
    var _ :- Need(assets <= MAX_DEPOSIT, DepositTooLarge);
    var _ :- Need(assets > 0, BelowMinimumRedemption);
    var m :- MintShares(a, receiver, shares);
    var d :- AddDeposit(m, assets);
    Ok((d, assets))
  }

  function Minus(a: nat, b: nat): nat {
    if a > b then a - b else 0
  }

  function MaxWithdrawWithPositions(s: Vault, owner: Address): Result<nat> {
    var reserved :- ConvertToAssets(s, s.credited);
    var worth :- ConvertToAssets(s, BalanceOf(s, owner));
    Ok(Min(Minus(Minus(s.deposited, 1), reserved), worth))
  }

  function MaxWithdraw(s: Vault, owner: Address, legs: nat): Result<nat> {
    var most :- MaxWithdrawWithPositions(s, owner);
    Ok(if legs == 0 then most else 0)
  }

  /** Burn the shares `assets` cost and pay them out; shared by both forms of withdrawal. */
  function PayOut(a: Vault, caller: Address, assets: nat, owner: Address): Result<(Vault, nat)> {
    var shares :- DivUp(assets, TotalSupply(a), TotalAssets(a));
    var allowed :- SpendIfThirdParty(a, owner, caller, shares);
    var burnt :- BurnShares(allowed, owner, shares);
    var paid :- TakeDeposit(burnt, assets);
    Ok((paid, shares))
  }

  function Withdraw(s: Vault, t: Tick, caller: Address, assets: nat, owner: Address, legs: nat): Result<(Vault, nat)> {
    var a :- Accrue(s, t, owner, false);
    var most :- MaxWithdraw(a, owner, legs);
    var _ :- Need(assets <= most, ExceedsMaximumRedemption);
    var _ :- Need(assets > 0, BelowMinimumRedemption);
    PayOut(a, caller, assets, owner)
  }

  /** Withdrawal by an account with open positions; `solvent` is the pool's verdict on what is left. */
  function WithdrawWithPositions(s: Vault, t: Tick, caller: Address, assets: nat, owner: Address,
                                 solvent: bool): Result<(Vault, nat)> {
    var a :- Accrue(s, t, owner, false);
    var _ :- Need(assets > 0, BelowMinimumRedemption);
    var most :- MaxWithdrawWithPositions(a, owner);
    var _ :- Need(assets <= most, ExceedsMaximumRedemption);
    var paid :- PayOut(a, caller, assets, owner);
    var _ :- Need(solvent, AccountInsolvent);
    Ok(paid)
  }

  function MaxRedeem(s: Vault, owner: Address, legs: nat): Result<nat> {
    var available :- ConvertToShares(s, Minus(s.deposited, 1));
    Ok(if legs == 0 then Min(Minus(available, s.credited), BalanceOf(s, owner)) else 0)
  }

  function Redeem(s: Vault, t: Tick, caller: Address, shares: nat, owner: Address, legs: nat): Result<(Vault, nat)> {
    var a :- Accrue(s, t, owner, false);
    var most :- MaxRedeem(a, owner, legs);
    var _ :- Need(shares <= most, ExceedsMaximumRedemption);
    var allowed :- SpendIfThirdParty(a, owner, caller, shares);
    var assets :- ConvertToAssets(a, shares);
    var _ :- Need(assets > 0, BelowMinimumRedemption);
    var burnt :- BurnShares(allowed, owner, shares);
    var paid :- TakeDeposit(burnt, assets);
    Ok((paid, assets))
  }

  function Transfer(s: Vault, t: Tick, caller: Address, to: Address, amount: nat, legs: nat): Result<Vault> {
    var a :- Accrue(s, t, caller, false);
    var _ :- Need(legs == 0, PositionCountNotZero);
    MoveShares(a, caller, to, amount)
  }

  function TransferFrom(s: Vault, t: Tick, caller: Address, from: Address, to: Address, amount: nat,
                        legs: nat): Result<Vault> {
    var a :- Accrue(s, t, from, false);
    var _ :- Need(legs == 0, PositionCountNotZero);
    var allowed :- SpendAllowance(a, from, caller, amount);
    MoveShares(allowed, from, to, amount)
  }

  // ---------- calls reserved to the pool ----------

  function Delegate(s: Vault, a: Address): Result<Vault> {
    if BalanceOf(s, a) + PHANTOM > MAX_UINT256 then Revert(Panic)
    else Ok(s.(balances := s.balances[a := BalanceOf(s, a) + PHANTOM]))
  }

  function Revoke(s: Vault, a: Address): Result<Vault> {
    if BalanceOf(s, a) < PHANTOM then Revert(Panic)
    else Ok(s.(balances := s.balances[a := BalanceOf(s, a) - PHANTOM]))
  }

  function Refund(s: Vault, refunder: Address, refundee: Address, assets: int): Result<Vault> {
    if assets > 0 then
      var shares :- ConvertToShares(s, assets);
      MoveShares(s, refunder, refundee, shares)
    else
      var shares :- ConvertToShares(s, -assets);
      var _ :- Need(BalanceOf(s, refundee) >= shares, NotEnoughTokens);
      MoveShares(s, refundee, refunder, shares)
  }

  // ---------- settlement ----------

  datatype Settled = Settled(vault: Vault, paid: int, assets: nat, shares: nat)

  function NetBorrows(x: Settlement): int {
    if x.opening then x.short - x.long else x.long - x.short
  }

  /** Shares credited for the long amount: rounded up when opening, down when closing. */
  function CreditOf(a: Vault, x: Settlement): Result<nat> {
    if x.long == 0 then Ok(0)
    else if x.opening then DivUp(x.long, TotalSupply(a), TotalAssets(a))
    else Div(x.long, TotalSupply(a), TotalAssets(a))
  }

  /** The credited shares after the settlement, and the assets the owner owes for closing more credit than there is. */
  function CreditAfter(a: Vault, x: Settlement): Result<(nat, nat)> {
    var credit :- CreditOf(a, x);
    if x.opening then Ok((a.credited + credit, 0))
    else if a.credited < credit then
      var haircut :- DivUp(credit - a.credited, TotalAssets(a), TotalSupply(a));
      var _ :- Need(haircut <= MAX_UINT128, CastingError);
      Ok((0, haircut))
    else Ok((a.credited - credit, 0))
  }

  /** Take (or hand out) the shares worth `due` assets at the price of `a`, rounding against the owner. */
  function ChargeOwner(a: Vault, s: Vault, owner: Address, due: int): Result<Vault> {
    if due > 0 then
      var shares :- DivUp(due, TotalSupply(a), TotalAssets(a));
      var _ :- Need(BalanceOf(s, owner) >= shares, NotEnoughTokens);
      BurnShares(s, owner, shares)
    else if due < 0 then
      var shares :- Div(-due, TotalSupply(a), TotalAssets(a));
      MintShares(s, owner, shares)
    else Ok(s)
  }

  function UpdateBalancesAndSettle(s: Vault, t: Tick, x: Settlement): Result<Settled> {
    var a :- Accrue(s, t, x.owner, false);
    var (credited, haircut) :- CreditAfter(a, x);
    var due := x.ammDelta - NetBorrows(x) - x.premium + haircut;
    var charged :- ChargeOwner(a, a.(credited := credited), x.owner, due);
    var deposited := charged.deposited - x.ammDelta + x.premium;
    var inAMM := if x.opening then charged.inAMM + x.short else charged.inAMM - x.short;
    var _ :- Need(0 <= deposited <= MAX_UINT128 && 0 <= inAMM <= MAX_UINT128, CastingError);
    var b := BorrowerOf(charged, x.owner);
    var v := charged.(deposited := deposited, inAMM := inAMM,
                      borrowers := charged.borrowers[x.owner := Borrower(b.index, b.net + NetBorrows(x))]);
    // the utilization returned to the pool divides by the new total
    var _ :- Need(TotalAssets(v) > 0, DivisionByZero);
    Ok(Settled(v, due, TotalAssets(a), TotalSupply(a)))
  }

  /** Burn the commission, or split it between the protocol and the builder, at the snapshot price. */
  function TakeCommission(d: Settled, owner: Address, fee: nat, r: RiskParameters): Result<Vault> {
    var shares :- DivUp(fee, d.shares, d.assets);
    var _ :- Need(BalanceOf(d.vault, owner) >= shares, NotEnoughTokens);
    if r.feeRecipient == 0 then BurnShares(d.vault, owner, shares)
    else
      var v :- MoveShares(d.vault, owner, r.riskEngine, shares * r.protocolSplit / DECIMALS);
      MoveShares(v, owner, r.feeRecipient, shares * r.builderSplit / DECIMALS)
  }

  function OpeningFee(x: Settlement, r: RiskParameters): nat {
    MulDivUp(x.short + x.long, r.notionalFee, DECIMALS)
  }

  /** The smaller of the premium fee and ten times the notional fee; the product is a 16-bit one. */
  function ClosingFee(x: Settlement, r: RiskParameters): nat {
    var onPremium := MulDivUp(if x.premium > 0 then x.premium else -x.premium, r.premiumFee, DECIMALS);
    var onNotional := MulDivUp(x.short + x.long, 10 * r.notionalFee % 0x1_0000, DECIMALS);
    if x.short == 0 && x.long == 0 then onPremium else Min(onPremium, onNotional)
  }

  function SettleMint(s: Vault, t: Tick, owner: Address, long: nat, short: nat, ammDelta: int,
                      r: RiskParameters): Result<(Vault, int)> {
    var x := Settlement(owner, true, long, short, ammDelta, 0);
    var d :- UpdateBalancesAndSettle(s, t, x);
    var v :- TakeCommission(d, owner, OpeningFee(x, r), r);
    Ok((v, d.paid + OpeningFee(x, r)))
  }

  function SettleBurn(s: Vault, t: Tick, owner: Address, long: nat, short: nat, ammDelta: int, premium: int,
                      r: RiskParameters)
    : Result<(Vault, int)>
  {
    var x := Settlement(owner, false, long, short, ammDelta, premium);
    var d :- UpdateBalancesAndSettle(s, t, x);
    if premium == 0 then Ok((d.vault, d.paid))
    else
      var v :- TakeCommission(d, owner, ClosingFee(x, r), r);
      Ok((v, d.paid + ClosingFee(x, r)))
  }

  // ---------- liquidation ----------

  /** Take back the phantom shares; a shortfall is added to the supply and is the protocol's loss. */
  function TakePhantom(s: Vault, a: Address): (Vault, nat) {
    var held := BalanceOf(s, a);
    if PHANTOM > held then
      (s.(balances := s.balances[a := 0], supply := s.supply + (PHANTOM - held)), PHANTOM - held)
    else (s.(balances := s.balances[a := held - PHANTOM]), 0)
  }

  /** Shares to mint so that the liquidator's total is worth the bonus, after `kept` shares were handed over. */
  function BonusMint(s: Vault, bonus: nat, kept: nat): nat {
    var room := if TotalAssets(s) > bonus then TotalAssets(s) - bonus else 1;
    var others := (TotalSupply(s) - kept) % (MAX_UINT256 + 1);  // unchecked subtraction
    var raw := Min(MulDiv(bonus, others, room), MAX_UINT256);
    Min(Minus(raw, kept), TotalSupply(s) * 10)
  }

  datatype Liquidated = Liquidated(vault: Vault, loss: nat)

  function SettleLiquidation(s: Vault, liquidator: Address, liquidatee: Address, bonus: int): Result<Liquidated> {
    if bonus < 0 then
      var shares :- ConvertToShares(s, -bonus);
      var m :- MintShares(s, liquidatee, shares);
      var d :- AddDeposit(m, -bonus);
      var (v, shortfall) := TakePhantom(d, liquidatee);
      Ok(Liquidated(v, shortfall))
    else
      var (v, shortfall) := TakePhantom(s, liquidatee);
      var kept := BalanceOf(v, liquidatee);
      var shares :- ConvertToShares(v, bonus);
      if shares > kept then
        var moved :- MoveShares(v, liquidatee, liquidator, kept);
        var minted := BonusMint(moved, bonus, kept);
        var m :- MintShares(moved, liquidator, minted);
        Ok(Liquidated(m, shortfall + minted))
      else
        var moved :- MoveShares(v, liquidatee, liquidator, shares);
        Ok(Liquidated(moved, shortfall))
  }

  // ---------- runs ----------

  datatype Call =
    | AccrueCall(owner: Address)
    | DepositCall(caller: Address, assets: nat, receiver: Address)
    | MintCall(caller: Address, shares: nat, receiver: Address)
    | WithdrawCall(caller: Address, assets: nat, owner: Address, legs: nat)
    | WithdrawWithPositionsCall(caller: Address, assets: nat, owner: Address, solvent: bool)
    | RedeemCall(caller: Address, shares: nat, owner: Address, legs: nat)
    | TransferCall(caller: Address, to: Address, amount: nat, legs: nat)
    | TransferFromCall(caller: Address, from: Address, to: Address, amount: nat, legs: nat)
    | ApproveCall(owner: Address, spender: Address, amount: nat)
    | DelegateCall(account: Address)
    | RevokeCall(account: Address)
    | RefundCall(refunder: Address, refundee: Address, owed: int)
    | SettleMintCall(owner: Address, long: nat, short: nat, ammDelta: int, risk: RiskParameters)
    | SettleBurnCall(owner: Address, long: nat, short: nat, ammDelta: int, premium: int, risk: RiskParameters)
    | SettleLiquidationCall(liquidator: Address, liquidatee: Address, bonus: int)

  function First<T>(r: Result<(Vault, T)>): Result<Vault> {
    var p :- r;
    Ok(p.0)
  }

  function Step(s: Vault, t: Tick, c: Call): Result<Vault> {
    match c
    case AccrueCall(owner) => Accrue(s, t, owner, false)
    case DepositCall(caller, assets, receiver) => First(Deposit(s, t, caller, assets, receiver))
    case MintCall(caller, shares, receiver) => First(Mint(s, t, caller, shares, receiver))
    case WithdrawCall(caller, assets, owner, legs) => First(Withdraw(s, t, caller, assets, owner, legs))
    case WithdrawWithPositionsCall(caller, assets, owner, solvent) =>
      First(WithdrawWithPositions(s, t, caller, assets, owner, solvent))
    case RedeemCall(caller, shares, owner, legs) => First(Redeem(s, t, caller, shares, owner, legs))
    case TransferCall(caller, to, amount, legs) => Transfer(s, t, caller, to, amount, legs)
    case TransferFromCall(caller, from, to, amount, legs) => TransferFrom(s, t, caller, from, to, amount, legs)
    case ApproveCall(owner, spender, amount) => Ok(Approve(s, owner, spender, amount))
    case DelegateCall(a) => Delegate(s, a)
    case RevokeCall(a) => Revoke(s, a)
    case RefundCall(refunder, refundee, owed) => Refund(s, refunder, refundee, owed)
    case SettleMintCall(owner, long, short, ammDelta, r) => First(SettleMint(s, t, owner, long, short, ammDelta, r))
    case SettleBurnCall(owner, long, short, ammDelta, premium, r) =>
      First(SettleBurn(s, t, owner, long, short, ammDelta, premium, r))
    case SettleLiquidationCall(liquidator, liquidatee, bonus) =>
      var l :- SettleLiquidation(s, liquidator, liquidatee, bonus);
      Ok(l.vault)
  }

  /** The vault after all the calls in order; reverts with the first call that does. */
  function Run(s: Vault, calls: seq<(Tick, Call)>): Result<Vault> {
    if calls == [] then Ok(s)
    else
      var before :- Run(s, calls[..|calls| - 1]);
      Step(before, calls[|calls| - 1].0, calls[|calls| - 1].1)
  }
}
