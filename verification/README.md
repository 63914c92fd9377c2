# Panoptic: ledgers, liquidity chunks, miners, metadata, batches and timelock

This project models the parts of Panoptic that carry its accounting and its release tooling, and proves what they
promise. `dafny verify dfyconfig.toml` checks the whole project.

- **The collateral vault** (`Ledger*.dfy`, `CollateralTracker.dfy`). An ERC-4626 vault whose totals come from three
  asset counters and two share counters, with compounding interest, user checkpoints, phantom shares that are
  delegated and taken back, settlements of option legs and liquidations. `Ledger` says for every call what it makes of
  the state; `CollateralTracker` is the contract with its storage fields, updated step by step and proved to compute
  exactly those steps; the other `Ledger*` modules prove properties of single calls and of all runs: the share price, the
  dilution by settlements, share conservation, the borrow index, the bucket of unrealized interest, the reserve kept by
  withdrawals, and the price of liquidation bonuses. `LedgerAccrual`, `LedgerCalls`, `LedgerSettlement` and
  `LedgerLiquidation` state each call in amounts, without the functions that compute it: when it succeeds, who gives and
  gets what, at which rounding; `LedgerGrants` follows grants over runs.
- **Liquidity chunks** (`Chunk*.dfy`, `Premia.dfy`, `SemiFungiblePositionManager.dfy`). What the position manager records
  for each owner, token type and tick range on top of one Uniswap position per range: conservation of liquidity, fees
  collected against fees earned, the funding of all chunks by the shared position, the premium accumulators, and what
  minting and burning whole positions does (`ChunkPositions`).
- **Miners** (`HexZeros.dfy`, `Mining.dfy`, `RangeSplit.dfy`, `TypeBuckets.dfy`, `PoolMiner.dfy`, `PoolFactory.dfy`,
  `BuilderMiner.dfy`, `BuilderFirst.dfy`). Threads, chunks and early exits against a plain scan, the on-chain loop
  against the off-chain search, the shared-flag miner under every interleaving, and which hit that miner reports first.
  The hash is an arbitrary function from salt to address.
- **Metadata** (`Bytecode.dfy`, `MetadataCompiler.dfy`, `MetadataStore.dfy`). Values packed into data contracts, pointers
  packed into words, words stored in a mapping, and the way back; the init code is run on a small model of the EVM.
- **Safe batches** (`SafeBatcher.dfy`) and the **guardian's timelock** (`Timelock.dfy`, `PanopticGuardian.dfy`).

Conventions. A reverting call is a `Revert` and leaves the state as it was. Sequences of calls are plain sequences;
`Run` folds the steps and reverts as soon as one does. Classes carry a ghost history, and their `Valid()` says that
their state is what the history leads to, so that every property of runs holds of the mutable object.
Inputs from outside are parameters: the interest rate and the block's epoch (`Tick`), the number of legs of an account,
the verdict on its solvency, risk parameters, what Uniswap answers (`Market`), gas, time and sender.

Where code and documentation disagree, the code is modelled. Three sentences of `protocol-analysis/invariants.md` do not
hold of it as they stand.

- Line 22: the unrealized interest never exceeds the sum of what users owe (`LedgerOwed`, `LedgerBucketTight`). There
  are three reasons why it does. While a long amount is open, the assets behind it bear interest that nobody owes, in
  proportion to the amount and the time. A loan that shrinks with its interest unpaid takes the debt on that part along.
  Without either, what is left is rounding: at most one unit for each elapsed accrual but the first, so that the
  sentence holds of all those runs exactly up to one elapsed accrual.
- Line 14: deposited assets never fall below one (`LedgerReserve`). Every call but a settlement keeps this; a settlement
  keeps it exactly when what it moves into the AMM, less the premium paid in, leaves one. To break it the pool must hold
  a token that the vault does not count, such as a donation, since the virtual asset has none behind it.
- Line 15: the share price is non-decreasing "except for rounding in favor of the protocol and during liquidations with
  protocol loss" (`LedgerRuns`, `LedgerFall`). The rounding of the shares credited for a long amount goes against the
  holders. What guards the sentence is the commission: where it is burned, it is worth at least one share and makes up
  for the rounding, so that no opening lowers the price at a positive fee rate without a builder to be paid. Where it is
  moved to the protocol and a builder, or none is paid, the price is kept exactly when the owner's own roundings are at
  least as large, and falls by less than one share otherwise.

The comment on `maxRedeem` (`contracts/CollateralTracker.sol` line 810) calls it the amount that can be redeemed;
shares worth less than one asset are refused (`LedgerReserve.MaxRedeemExactly`).

The interest rate of an accrual is left free; the runs that show what can happen work at every positive rate up to half a
percent a second, far beyond what the risk engine returns. They use the fees of
`script/params/RiskEngineParams.sol` lines 39-42, paid to a builder, except where a fresh vault is shown without fees.

## Model

| member | source | states |
|---|---|---|
| `LedgerAccrual.GrowthIsThreeTerms` | contracts/libraries/Math.sol:1228-1234 | The growth of an accrual is x + x^2/2 + x^3/6 for x = rate times seconds, less at most two units and a third of x |
| `LedgerAccrual.CompoundExactly` | contracts/CollateralTracker.sol:999-1040 | An accrual raises the bucket by the smallest whole number that reaches the interest on the assets in the AMM, the index to the smallest that reaches its growth, and changes nothing else |
| `LedgerAccrual.AccrualExactly` | contracts/CollateralTracker.sol:901-990 | An accrual succeeds exactly when there are assets and the shares to burn are in the supply. Nothing owed: the checkpoint moves. Payable: the fewest shares worth the interest go, the interest leaves the bucket and the checkpoint moves. Not payable: all shares go, what they are worth leaves the bucket and the checkpoint stays. Skipped: nothing moves |
| `LedgerAccrual.BackedAccrualSucceeds` | contracts/CollateralTracker.sol:901-990 | While all shares are backed, an accrual reverts only without any assets |
| `LedgerCalls.DepositExactly` | contracts/CollateralTracker.sol:557-592 | When a deposit succeeds and what it does: the receiver gets the shares it is worth rounded down, the assets are added, and nothing else changes |
| `LedgerCalls.MintExactly` | contracts/CollateralTracker.sol:615-652 | The same for a mint: the receiver gets the shares asked for, at their worth rounded up |
| `LedgerCalls.WithdrawExactly` | contracts/CollateralTracker.sol:659-751 | Any caller: a withdrawal succeeds if and only if the owner has no positions, the amount is positive, covered by the owner's shares and leaves the reserve, and a third party's grant covers the shares. The owner gives the fewest shares worth it; the grant of the owner to the caller, and no other, is lower by them, unless unlimited |
| `LedgerCalls.WithdrawWithPositionsExactly` | contracts/CollateralTracker.sol:678-808 | The same with open positions and a verdict of solvency |
| `LedgerCalls.RedeemExactly` | contracts/CollateralTracker.sol:814-883 | The same for a redemption, which leaves the virtual asset and, in shares, all that is credited, and needs shares worth one asset |
| `LedgerCalls.TransferExactly` | contracts/CollateralTracker.sol:399-411 | A transfer moves the caller's shares to the receiver, if it has them and no positions |
| `LedgerCalls.TransferFromExactly` | contracts/CollateralTracker.sol:418-431 | A transfer for another moves the owner's shares to the receiver within the owner's grant to the caller, which is lower by them afterwards, unless unlimited |
| `LedgerCalls.DelegationExactly` | contracts/CollateralTracker.sol:1234-1246 | A delegation adds 2^248 - 1 to one balance and to nothing else, and a revocation takes them off again, or reverts |
| `LedgerCalls.RefundExactly` | contracts/CollateralTracker.sol:1389-1406 | A positive refund goes from refunder to refundee and a negative one the other way, in shares rounded down, if the payer has them |
| `LedgerGrants.StepUsesGrant` | contracts/CollateralTracker.sol:399-848 | Every call sets a grant by approval, lowers it by exactly the shares it takes under it, or leaves it alone |
| `LedgerGrants.NeverTakesMoreThanApproved` | contracts/tokens/ERC20Minimal.sol:49-55 | Over every run without an unlimited approval, what a spender took of an owner's shares and may still take is at most all the owner approved for it |
| `LedgerGrants.OthersTakeOnlyGrants` | contracts/CollateralTracker.sol:399-883 | A call of anybody but the pool and the user takes no more shares of a user without interest due than the user granted the caller |
| `LedgerSettlement.SettlementExactly` | contracts/CollateralTracker.sol:1423-1549 | What a settlement does to every field: credit rounded up on opening and down on closing, a haircut for what exceeds it, the owner alone charged or paid by the largest number of shares worth at most its due, assets, loan and returned amount |
| `LedgerSettlement.SettlementReverts` | contracts/CollateralTracker.sol:1423-1549 | A settlement reverts exactly when the price is undefined, the haircut does not fit, the owner lacks the shares, a total does not fit its field, or no assets are left |
| `LedgerSettlement.CommissionExactly` | contracts/CollateralTracker.sol:1584-1619 | The commission in shares, rounded up, is burned without a builder to pay; otherwise the protocol and the builder each get their split, rounded down |
| `LedgerSettlement.CommissionReverts` | contracts/CollateralTracker.sol:1584-1619 | With splits of at most the whole, a commission reverts exactly when the owner lacks the shares |
| `LedgerSettlement.SettleMintExactly` | contracts/CollateralTracker.sol:1559-1626 | An opening is a settlement followed by its commission on the notional amount, rounded up, at the price after accrual, and returns both amounts |
| `LedgerSettlement.SettleBurnExactly` | contracts/CollateralTracker.sol:1637-1717 | A closing with premium pays the smaller of the premium fee and ten times the notional fee, the premium fee where there is no notional amount, and returns it with the amount due; without premium there is no commission |
| `LedgerPrice.FairExchange` | contracts/CollateralTracker.sol:503-529 | Adding assets and shares at a price no better than the current one keeps the share price, cross-multiplied, also when the vault is empty |
| `LedgerPrice.AccrueKeepsPrice` | contracts/CollateralTracker.sol:901-990 | Accruing interest never lowers the share price: whether the user pays in full, pays in part because its shares run out, or payment is skipped |
| `LedgerPrice.DepositKeepsPrice` | contracts/CollateralTracker.sol:547-592 | A deposit never lowers the share price, though its own interest payment is skipped |
| `LedgerPrice.MintKeepsPrice` | contracts/CollateralTracker.sol:603-652 | Minting a given number of shares never lowers the share price |
| `LedgerPrice.WithdrawKeepsPrice` | contracts/CollateralTracker.sol:695-751 | A withdrawal never lowers the share price |
| `LedgerPrice.WithdrawWithPositionsKeepsPrice` | contracts/CollateralTracker.sol:762-808 | A withdrawal by an account with open positions never lowers the share price |
| `LedgerPrice.RedeemKeepsPrice` | contracts/CollateralTracker.sol:830-883 | A redemption never lowers the share price |
| `LedgerRuns.StepKeepsPrice` | contracts/CollateralTracker.sol:399-1717 | No call of any kind lowers the share price, unless it settles a long amount without burning a commission or is a liquidation that realizes a loss |
| `LedgerRuns.PriceNeverFalls` | contracts/CollateralTracker.sol:547-1717 | Over every run of calls by any users, in which every long amount settled burns a commission and no liquidation makes a loss, the share price never falls |
| `LedgerRuns.NoValueExtracted` | contracts/CollateralTracker.sol:547-883 | In such a run, when the total supply is back at its starting value, the total assets are at least theirs |
| `LedgerRuns.PriceFallsWithSupply` | contracts/CollateralTracker.sol:1423-1717 | In every run without loss-making liquidations, delegations included, a settlement of a long amount that burns no commission lowers the price by at most one part in m when each such settlement leaves m shares, and nothing else lowers it |
| `LedgerRuns.PriceFallsSlowly` | contracts/CollateralTracker.sol:1423-1717 | In a backed vault and without delegations there are always a million shares: the price falls by at most one part in a million for each settlement of a long amount that burns no commission |
| `LedgerFall.SettlementKeepsPriceExactly` | contracts/CollateralTracker.sol:1423-1549 | A settlement of any long amount, opened or closed, with any sign of the amount due, keeps the price after accrual if and only if the rounding of the credit is no more than the roundings of the charge and, when more is closed than is credited, of the haircut |
| `LedgerFall.OpeningKeepsPriceExactly` | contracts/CollateralTracker.sol:1559-1626 | A whole opening with a long amount keeps the price after accrual if and only if its commission is burned at a positive rate, or the owner's rounding pays for that of the credit |
| `LedgerFall.ClosingKeepsPriceExactly` | contracts/CollateralTracker.sol:1637-1717 | A whole closing with a long amount keeps the price after accrual if and only if it pays a positive commission that is burned, or the owner's roundings pay for that of the credit |
| `LedgerCounterexamples.PriceCanFall` | protocol-analysis/invariants.md:15 | The documented price that never falls does fall against the holders, in a run at the deployed fees with a builder to be paid: the commission of an opening with a long amount is moved and not burned, and the rounding of its credit is paid by everybody |
| `LedgerDilution.AssetsBalance` | contracts/CollateralTracker.sol:1423-1549 | Across a settlement total assets move by the signed long amount and the rounding haircut less what the owner is charged: every other amount cancels |
| `LedgerDilution.CreditRounding` | contracts/CollateralTracker.sol:1454-1502 | Credited shares for a long amount, opened or closed, including closing more than is credited, cost the other holders less than one share |
| `LedgerDilution.SettlementDilution` | contracts/CollateralTracker.sol:1423-1549 | A settlement, opening or closing, with any sign of the amount due, dilutes the holders by strictly less than one share; with no long amount the price does not fall |
| `LedgerDilution.SettleMintDilution` | contracts/CollateralTracker.sol:1559-1626 | The same for a whole opening including its commission; one whose commission is burned, at any positive rate, never lowers the price |
| `LedgerDilution.SettleBurnDilution` | contracts/CollateralTracker.sol:1637-1717 | The same for a whole closing including its commission; one that burns a positive commission never lowers the price |
| `LedgerDilution.CommissionSplitNeverOverdraws` | contracts/CollateralTracker.sol:1580-1619 | With splits that add up to at most 10000, paying the commission out succeeds exactly when the owner holds the commission shares |
| `LedgerDilution.CommissionKeepsBound` | contracts/CollateralTracker.sol:1580-1619 | The commission leaves assets and credited shares alone and never raises the supply |
| `LedgerShares.StepSurplus` | contracts/CollateralTracker.sol:399-1717 | Every call changes balances and internal supply together; only delegations, revocations and liquidations move the difference, by one bundle of 2^248 - 1 |
| `LedgerShares.PhantomConservation` | contracts/CollateralTracker.sol:1234-1382 | In every reachable state, balances plus 10^6 equal the internal supply plus 2^248 - 1 for each delegation not yet revoked or settled |
| `LedgerShares.LiquidationSurplus` | contracts/CollateralTracker.sol:1253-1382 | A liquidation takes exactly one bundle of phantom shares out, in the branch of a negative bonus and in both branches of a positive one, whether or not phantom shares were spent |
| `LedgerShares.BackedSupply` | contracts/CollateralTracker.sol:285-300 | With no delegation outstanding, no balance exceeds the supply less the virtual shares, so that burning a held amount never underflows |
| `LedgerShares.StepKeepsBacking` | contracts/CollateralTracker.sol:399-1717 | Every call without a delegation keeps all shares backed |
| `LedgerInterest.CompoundIndex` | contracts/CollateralTracker.sol:999-1040 | Compounding grows the borrow index at least by the growth factor and the bucket by less than one unit more than the interest on the assets in the AMM, and leaves the users alone |
| `LedgerInterest.InterestIsDefined` | contracts/CollateralTracker.sol:1078-1095 | With checkpoints in order, the interest owed is the rounded-up growth since the checkpoint: neither the guard for a zero index nor the checked subtraction is ever hit by a borrower |
| `LedgerInterest.IndexInvariant` | contracts/CollateralTracker.sol:901-990 | In every reachable state every borrower has 1e18 <= userIndex <= borrowIndex |
| `LedgerInterest.IndexNeverDecreases` | contracts/CollateralTracker.sol:999-1040 | Along every run the borrow index never decreases |
| `LedgerBucket.CompoundCovered` | contracts/CollateralTracker.sol:999-1040 | One accrual raises the bucket by less than one unit more than the exact debts and the interest on the open long amounts |
| `LedgerBucket.PaymentCovered` | contracts/CollateralTracker.sol:915-990 | A payment in full, in part or skipped, with the bucket clamped at zero, keeps the bucket within the debts |
| `LedgerBucket.SettlementCovered` | contracts/CollateralTracker.sol:1423-1549 | Booking loans, repayments and long amounts, opened or closed, moves the bucket away from the debts by no more than the debt that is forgotten |
| `LedgerBucket.UnpaidClosingForgetsDebt` | contracts/CollateralTracker.sol:1534-1543 | A part of a loan that is taken off with interest unpaid takes exactly the debt on that part along, and leaves the bucket as it was |
| `LedgerBucket.BucketBound` | contracts/CollateralTracker.sol:901-1039 | In every run from a fresh vault, the bucket exceeds the exact debt of all borrowers by at most the debt forgotten by loans that shrank unpaid, the growth of each accrual on the long amount open, and less than one unit for each elapsed accrual |
| `LedgerBucket.PaidLoansForgetNothing` | contracts/CollateralTracker.sol:915-990 | Where whoever lowers a loan can pay the interest on it, no debt is forgotten |
| `LedgerBucketTight.BucketBoundIsTight` | contracts/CollateralTracker.sol:1021-1039 | The unit per accrual is needed: at every positive rate, for every number of accruals that adds up to one percent, a run without long amounts and unpaid loans uses it up to less than one unit |
| `LedgerBucketTight.DocumentedBoundFails` | protocol-analysis/invariants.md:22 | The documented invariant that the bucket never exceeds the sum of what users owe is false at any one positive rate, in a reachable run that borrows once and accrues twice; more accruals widen the gap by one unit each |
| `LedgerOwed.BucketWithinOwed` | protocol-analysis/invariants.md:22 | What holds instead: in every run with no long amount open in which whoever lowers a loan can pay its interest, the bucket exceeds what users owe by at most one unit for each elapsed accrual but the first |
| `LedgerBucketTight.DocumentedBoundExactly` | protocol-analysis/invariants.md:22 | Of all such runs, and of those at any one positive rate, the ones with n elapsed accruals all meet the documented invariant if and only if n is at most one |
| `LedgerOwed.LongAmountsEarnUnowedInterest` | protocol-analysis/invariants.md:22 | In every state where nobody borrows and the bucket is empty, an accrual keeps the documented invariant if and only if there is nothing in the AMM or no growth: the whole interest on the AMM goes into the bucket and nobody owes it |
| `LedgerCounterexamples.OpenLongEarnsUnowedInterest` | protocol-analysis/invariants.md:22 | Reachable for every long amount up to the deposit limit, every time of 32 bits and every rate: after one accrual the bucket holds at least amount times rate times seconds while nobody owes anything |
| `LedgerCounterexamples.UnpaidClosingLeavesInterest` | protocol-analysis/invariants.md:22 | A loan given back with too few shares left to pay its interest breaks the documented invariant after a single elapsed accrual |
| `LedgerOwed.DocumentedBoundWithSlack` | protocol-analysis/invariants.md:22 | In every run the bucket exceeds what users owe by at most the forgotten debt, the interest on open long amounts and less than one unit for each elapsed accrual |
| `LedgerReserve.WithdrawKeepsReserve` | contracts/CollateralTracker.sol:659-751 | A successful withdrawal leaves deposited assets of at least one plus the value of the credited shares, and burns no more than the owner holds |
| `LedgerReserve.WithdrawWithPositionsKeepsReserve` | contracts/CollateralTracker.sol:678-808 | The same for the withdrawal with open positions |
| `LedgerReserve.RedeemKeepsReserve` | contracts/CollateralTracker.sol:814-883 | The same for a redemption, through the nested floors of its maximum and its payout |
| `LedgerReserve.MaxWithdrawExactly` | contracts/CollateralTracker.sol:659-751 | While all shares are backed, an owner's withdrawal succeeds if and only if it is positive and at most the maximum announced for the accrued state |
| `LedgerReserve.MaxWithdrawWithPositionsExactly` | contracts/CollateralTracker.sol:678-808 | The same with open positions and the pool's verdict on solvency |
| `LedgerReserve.MaxRedeemExactly` | contracts/CollateralTracker.sol:814-883 | While all shares are backed, an owner's redemption succeeds if and only if it is at most the maximum and worth at least one asset |
| `LedgerReserve.MaxRedeemCanRevert` | contracts/CollateralTracker.sol:814-863 | So redeeming the maximum can revert: a holder of one share is announced a maximum of one and cannot redeem it |
| `LedgerReserve.DepositThenRedeem` | contracts/CollateralTracker.sol:547-883 | A user with no interest due that deposits and redeems the shares in the same epoch never receives more than it put in |
| `LedgerReserve.DepositThenWithdraw` | contracts/CollateralTracker.sol:547-751 | A user with no interest due that deposits and withdraws the same assets in the same epoch burns at least the shares it received |
| `LedgerReserve.SettlementKeepsLastAsset` | contracts/CollateralTracker.sol:1505-1532 | A settlement leaves a deposited asset if and only if what it moves into the AMM, less the premium paid in, leaves one: nothing else checks it |
| `LedgerReserve.OtherCallsKeepLastAsset` | contracts/CollateralTracker.sol:399-1406 | Every call that is not a settlement keeps at least one deposited asset |
| `LedgerReserve.LastAssetStaysExactly` | protocol-analysis/invariants.md:14 | The documented floor of one deposited asset, exactly: a call breaks it if and only if it is a settlement that moves more into the AMM, less the premium paid in, than leaves one |
| `LedgerReserve.AnyVaultCanBeEmptied` | contracts/CollateralTracker.sol:1505-1532 | In any vault whose totals fit 128 bits, an opening of all deposited assets is booked and leaves none: the checks of the vault do not stop it, only a missing token for the virtual asset would |
| `LedgerReserve.LastAssetCanLeave` | protocol-analysis/invariants.md:14 | A reachable case: on a fresh vault, the first opening without fees moves the virtual asset out |
| `LedgerLiquidation.LossIsUnpaidSupply` | contracts/CollateralTracker.sol:1253-1382 | The loss a liquidation reports is exactly the supply created without payment |
| `LedgerLiquidation.NegativeBonusExactly` | contracts/CollateralTracker.sol:1253-1300 | A negative bonus is credited to the liquidatee in shares rounded down before its phantom shares are taken back: it ends with what exceeds them, the shortfall is the loss, and no other balance changes |
| `LedgerLiquidation.PositiveBonusExactly` | contracts/CollateralTracker.sol:1301-1382 | A positive bonus goes to the liquidator out of the liquidatee's shares if they are worth it, and otherwise all of them go and the rest is created, in an amount stated exactly with its caps; no other balance changes |
| `LedgerLiquidation.LiquidationRestoresBacking` | contracts/CollateralTracker.sol:1287-1321 | After liquidating the only delegated account every share is backed again |
| `LedgerLiquidation.BonusFromOwnShares` | contracts/CollateralTracker.sol:1323-1342 | A bonus the liquidatee can pay is moved in shares, rounded down, and nothing is minted |
| `LedgerLiquidation.MintedBonusPaysWithinOneShare` | contracts/CollateralTracker.sol:1323-1364 | A bonus beyond the liquidatee's shares leaves the liquidator with N = floor(Z(Y-T)/(X-Z)) shares, more than T, worth at most the bonus in the diluted vault, while one more would be worth more, unless a cap binds |
| `LedgerLiquidation.MintIsCapped` | contracts/CollateralTracker.sol:1343-1364 | One liquidation leaves at most eleven times the supply there was, counting the phantom shares that were spent and become real |
| `CollateralTracker.CollateralTracker.Execute` | contracts/CollateralTracker.sol:399-1717 | One external call on the mutable vault does exactly what its step says, or reverts with the same error and changes nothing; the state stays the outcome of all calls so far |
| `CollateralTracker.CollateralTracker.Initialize` | contracts/CollateralTracker.sol:285-300 | Sets one virtual asset, 10^6 virtual shares and an index of 1e18, once |
| `Limits.VaultUnits` | contracts/CollateralTracker.sol:118-121 | Shares of 256 bits, phantom shares of 2^248 - 1, deposits below 2^104, fields of 128 bits, 10^6 virtual shares, rates in 10^-18 and fees in 10^-4 |
| `CollateralTracker.CollateralTracker.Invariants` | contracts/CollateralTracker.sol:285-1717 | Index order and share conservation hold of the mutable vault at any time |
| `CollateralTracker.CollateralTracker.AccrueInterest` | contracts/CollateralTracker.sol:901-990 | Field by field, the interest payment computes the accrual step |
| `CollateralTracker.CollateralTracker.DepositAssets` | contracts/CollateralTracker.sol:557-592 | Field by field, a deposit computes its step and returns the shares |
| `CollateralTracker.CollateralTracker.MintExact` | contracts/CollateralTracker.sol:615-652 | Field by field, a mint computes its step and returns the assets |
| `CollateralTracker.CollateralTracker.WithdrawAssets` | contracts/CollateralTracker.sol:708-751 | Field by field, a withdrawal computes its step and returns the shares |
| `CollateralTracker.CollateralTracker.WithdrawAssetsWithPositions` | contracts/CollateralTracker.sol:762-808 | The same with open positions, reverting when the account is left insolvent |
| `CollateralTracker.CollateralTracker.RedeemShares` | contracts/CollateralTracker.sol:840-883 | Field by field, a redemption computes its step and returns the assets |
| `CollateralTracker.CollateralTracker.TransferShares` | contracts/CollateralTracker.sol:399-411 | A transfer accrues first, is refused to accounts with positions and moves the shares |
| `CollateralTracker.CollateralTracker.TransferSharesFrom` | contracts/CollateralTracker.sol:418-431 | The same on behalf of an owner, using up the allowance unless it is unlimited |
| `CollateralTracker.CollateralTracker.DelegateTo` | contracts/CollateralTracker.sol:1234-1237 | Adds phantom shares to a balance, not to the supply |
| `CollateralTracker.CollateralTracker.RevokeFrom` | contracts/CollateralTracker.sol:1243-1246 | Takes phantom shares out of a balance, or reverts |
| `CollateralTracker.CollateralTracker.RefundShares` | contracts/CollateralTracker.sol:1389-1406 | Moves the shares worth an amount in either direction, or reverts |
| `CollateralTracker.CollateralTracker.UpdateAndSettle` | contracts/CollateralTracker.sol:1423-1549 | Field by field, a settlement computes its step and returns the amount due and the totals it was priced at |
| `CollateralTracker.CollateralTracker.SettleOpening` | contracts/CollateralTracker.sol:1559-1626 | An opening with its commission |
| `CollateralTracker.CollateralTracker.SettleClosing` | contracts/CollateralTracker.sol:1637-1717 | A closing with its commission, the smaller of two fees, none without premium |
| `CollateralTracker.CollateralTracker.Liquidate` | contracts/CollateralTracker.sol:1253-1382 | A liquidation in all its branches, returning the loss |
| `Premia.GrossIsNetPlusOwed` | contracts/SemiFungiblePositionManagerV3.sol:1304-1389 | For any collected amount, gross premium on all liquidity is the fees collected plus the premium owed on the removed liquidity, within a bound in each direction, through five nested floors |
| `Premia.OwedIsFeesAndSpread` | contracts/SemiFungiblePositionManagerV3.sol:1333-1358 | The owed premium is the fees per unit of net liquidity and one part in vegoid of the removed share on top, within two units |
| `ChunkPositions.ChunksFollowPositions` | contracts/SemiFungiblePositionManagerV3.sol:599-671 | In every state reached by minting and burning positions, a chunk's removed liquidity is the volume bought by the legs of the positions minted less those burned, and its whole liquidity the volume sold |
| `ChunkPositions.BurnUndoesMint` | contracts/SemiFungiblePositionManagerV3.sol:835-1010 | Burning a position right after minting it, its legs in distinct chunks as token id validation demands, restores the liquidity of every chunk, and succeeds whenever fee growth has not fallen and the amounts fit 127 bits |
| `ChunkPositions.LegsReturnTheirFees` | contracts/SemiFungiblePositionManagerV3.sol:835-910 | A position returns one amount for each leg, nothing for loans and credits, and for the legs in a chunk together exactly what the chunk collected |
| `ChunkPositions.PositionBooksItsFees` | contracts/SemiFungiblePositionManagerV3.sol:835-1113 | Every leg of a position in a chunk of its own books its fees on that chunk at the liquidity it had before the position, with the position's spread; nothing is booked where there was no liquidity |
| `Chunks.LegsAreTouches` | contracts/SemiFungiblePositionManagerV3.sol:835-910 | A position equals its touches, one after the other |
| `ChunkLiquidity.TouchFrame` | contracts/SemiFungiblePositionManagerV3.sol:940-1086 | A leg changes the record of one chunk and one Uniswap position, and moves the same liquidity in both |
| `ChunkLiquidity.LiquidityConserved` | contracts/SemiFungiblePositionManagerV3.sol:980-1017 | In every reachable state Uniswap's liquidity of a range is the sum of the net liquidity of all owners and token types; removed is long minted less long burned, net plus removed is short minted less short burned |
| `ChunkLiquidity.UniswapNeverLacksLiquidity` | contracts/SemiFungiblePositionManagerV3.sol:956-1062 | As long as fee growth has not fallen, a leg succeeds exactly when it has liquidity, takes out no more than the chunk holds, overflows no slot, takes back no more than was bought, and its fees fit: Uniswap never lacks the liquidity |
| `ChunkFees.StoredBases` | contracts/SemiFungiblePositionManagerV3.sol:1077-1085 | What is stored for a chunk is the growth at its last touch times its liquidity, rounded up, and growth has not fallen since |
| `ChunkFees.FeeBounds` | contracts/SemiFungiblePositionManagerV3.sol:1121-1158 | The base now rounded down less the stored base rounded up is at most what was earned and less than two units below it |
| `ChunkFees.TouchMoney` | contracts/SemiFungiblePositionManagerV3.sol:1235-1296 | A touch collects what it asks for as far as Uniswap owes it, and what is not collected stays owed; the unchecked subtraction of the moved tokens is exact |
| `ChunkFees.AskedWithinTwoUnits` | contracts/SemiFungiblePositionManagerV3.sol:1244-1258 | In every reachable state a touch asks for at most what the chunk earned since its last touch, and for less than two units less |
| `ChunkFees.NeverOverCollects` | contracts/SemiFungiblePositionManagerV3.sol:1235-1296 | Over every run the fees a chunk collected are at most the sum of liquidity times growth increments |
| `ChunkSolvency.EveryRangeIsFunded` | contracts/SemiFungiblePositionManagerV3.sol:1203-1296 | In every reachable state what Uniswap owes for a range covers what all its chunks have earned and not collected, up to one unit for each touch |
| `ChunkSolvency.CollectedIsAlmostAsked` | contracts/SemiFungiblePositionManagerV3.sol:1272-1289 | A touch collects all it asks for, short by at most one unit for each touch the range has seen |
| `ChunkSolvency.CollectsNearlyAll` | contracts/SemiFungiblePositionManagerV3.sol:1235-1296 | Over every run a chunk collects all it earned, less a bounded number of units for each of its touches |
| `ChunkPremium.AccumulatorsMoveTogether` | contracts/types/LeftRight.sol:299-321 | For each token both accumulators stand still, exactly when one would reach its cap, or both move and balance with the fees |
| `ChunkPremium.TouchBalances` | contracts/SemiFungiblePositionManagerV3.sol:1092-1113 | One touch moves only the accumulators of its chunk; for each token they stand still when the chunk had no liquidity or one would reach its cap, and in all other cases both advance and balance with the fees collected |
| `ChunkPremium.NeverAtCap` | contracts/SemiFungiblePositionManagerV3.sol:1103-1112 | In every reachable state no accumulator has reached its cap |
| `ChunkWords.WrappedBasesAgree` | contracts/SemiFungiblePositionManagerV3.sol:1139-1157 | Fee growth kept modulo 2^256 and bases truncated to int128 give the true fee whenever it fits, or the checked subtraction reverts |
| `SemiFungiblePositionManager.UniswapPool.Collect` | contracts/SemiFungiblePositionManagerV3.sol:1272-1279 | For each token pays the smaller of what is asked for and what is owed, owes exactly that much less, and leaves liquidity, growth and the other ranges alone |
| `SemiFungiblePositionManager.UniswapPool.Move` | contracts/SemiFungiblePositionManagerV3.sol:1164-1225 | A mint or burn fails exactly when more is taken out than is there or the fee growth fell, and then changes nothing; else the liquidity of one range moves by the leg, and fees earned and tokens taken out become collectable |
| `SemiFungiblePositionManager.SemiFungiblePositionManager.UpdateStoredPremia` | contracts/SemiFungiblePositionManagerV3.sol:1092-1113 | Updates both accumulators of one chunk by the capped deltas |
| `SemiFungiblePositionManager.SemiFungiblePositionManager.CollectAndWrite` | contracts/SemiFungiblePositionManagerV3.sol:1235-1296 | Field by field, collecting computes its step |
| `SemiFungiblePositionManager.SemiFungiblePositionManager.CreateLeg` | contracts/SemiFungiblePositionManagerV3.sol:940-1086 | Field by field, a leg computes its step and returns the fees |
| `SemiFungiblePositionManager.SemiFungiblePositionManager.CreatePosition` | contracts/SemiFungiblePositionManagerV3.sol:835-910 | The loop over the legs computes the legs one after the other and the fees of each |
| `SemiFungiblePositionManager.SemiFungiblePositionManager.Execute` | contracts/SemiFungiblePositionManagerV3.sol:599-671 | A mint or burn takes effect for all its legs, or reverts with the error of the first failing leg and changes nothing |
| `SemiFungiblePositionManager.SemiFungiblePositionManager.Invariants` | contracts/SemiFungiblePositionManagerV3.sol:599-1086 | Conservation of liquidity, the volumes of the open positions and the bound on fees hold of the mutable manager at any time |
| `HexZeros.CountIsLeadingZeros` | script/pool-address-miner/src/main.rs:633-646 | Counting zero digits byte by byte finds z exactly when the value fits 40 - z hex digits and needs all of them |
| `HexZeros.LeadingZeroHexChars` | script/pool-address-miner/src/main.rs:633-646 | The byte loop with its early exits computes that count |
| `HexZeros.MostSignificantNibble` | contracts/libraries/Math.sol:108-134 | The halving finds the index of the highest nonzero hex digit of any nonzero 160-bit number |
| `HexZeros.NumberOfLeadingHexZeros` | contracts/libraries/PanopticMath.sol:68-72 | The on-chain count of leading zeros is the off-chain one for every address |
| `HexZeros.FitsUint128` | script/builder-code-miner/src/main.rs:160-164 | Eight leading zeros are exactly what makes an address fit 128 bits |
| `RangeSplit.EffectiveThreads` | script/pool-address-miner/src/main.rs:540-550 | At least one worker, no more than asked for and none without work |
| `RangeSplit.SplitRange` | script/pool-address-miner/src/main.rs:552-568 | Consecutive non-empty segments that cover the range, as many as asked for unless there are fewer elements, with lengths at most one apart, the longer ones first |
| `Mining.ScanIsUnique` | script/pool-address-miner/src/main.rs:381-449 | A range has one answer: the first hit, else the highest rarity at the smallest salt |
| `Mining.KindIsLastDigit` | script/pool-address-miner/src/main.rs:947-949 | The class of an address is its last hex digit as a number |
| `TypeBuckets.RecordTypeCandidate` | script/pool-address-miner/src/main.rs:511-518 | Keeps, for every rarity and last digit, the smallest salt seen |
| `TypeBuckets.MergeTypeBuckets` | script/pool-address-miner/src/main.rs:520-530 | Merging two tables gives the table of all salts seen by either |
| `PoolMiner.SearchSegment` | script/pool-address-miner/src/main.rs:451-495 | A worker finds the first hit of its segment having seen nothing beyond it, or the best |
| `PoolMiner.JoinWorkers` | script/pool-address-miner/src/main.rs:412-430 | Joining the workers in order gives the answer for the whole range |
| `PoolMiner.SearchRange` | script/pool-address-miner/src/main.rs:381-449 | For every number of threads: fails exactly on an empty or too large range, and otherwise gives the plain scan's answer and a table right up to it |
| `PoolMiner.SearchUntilTarget` | script/pool-address-miner/src/main.rs:292-379 | For every chunk size: never fails, ends, and answers what one scan of all salts from the start would |
| `PoolMiner.ThreadsAndChunksDoNotMatter` | script/pool-address-miner/src/main.rs:292-449 | Two searches of a range agree on the result, without a hit on everything, and with a hit on every class that occurs up to it |
| `PoolMiner.ChoicesAreOneBelow` | script/pool-address-miner/src/main.rs:532-538 | The choices offered besides the result are the smallest salts of the range, one rarity below it, for each last digit |
| `PoolFactory.MinePoolAddress` | contracts/PanopticFactoryV4.sol:240-288 | For every start, number of loops and gas the answer is determined: the first hit before the bound, with gas for it; without a hit the answer of a scan up to the bound; and when the bound lies beyond the 96-bit counter, the first hit after it wrapped to zero, or no end but lack of gas |
| `PoolFactory.OnChainAgrees` | contracts/PanopticFactoryV4.sol:251-287 | The on-chain loop finds the off-chain rarity always, and the off-chain salt if and only if the range holds a hit, or any address with a leading zero, or starts at zero |
| `PoolFactory.OnChainLosesTheSalt` | contracts/PanopticFactoryV4.sol:251-287 | Where no address has a leading zero, the start of the range is found off chain and zero on chain |
| `BuilderMiner.RunKeepsInv` | script/builder-code-miner/src/main.rs:93-126 | Every interleaving of the workers' steps, stale reads of the flag included, keeps the invariant |
| `BuilderMiner.HashedInOrder` | script/builder-code-miner/src/main.rs:94-124 | At any moment every worker has hashed a first part of its segment in order, so no code is hashed twice |
| `BuilderMiner.CollectAllIsSequential` | script/builder-code-miner/src/main.rs:88-135 | In collect-all mode, when all workers are done, every code was hashed exactly once, the hits sent are those of a sequential filter and the counter is the length of the range |
| `BuilderMiner.FirstModeFindsAHit` | script/builder-code-miner/src/main.rs:100-124 | In first-hit mode a hit was sent if and only if there is one, at most one for each worker, all genuine; the counter misses exactly the hits |
| `BuilderFirst.SentHitsAreFirstOfTheirSegment` | script/builder-code-miner/src/main.rs:100-124 | In first-hit mode, at any moment of any interleaving, every hit sent is the first of its segment |
| `BuilderFirst.FirstIsSmallestExactly` | script/builder-code-miner/src/main.rs:100-124 | Under every interleaving that ends, the hit received first is the smallest of the range, if and only if all hits lie in one segment |
| `BuilderFirst.LaterWorkerFirst` | script/builder-code-miner/src/main.rs:100-124 | With hits in two segments of any split there is an interleaving that ends with a hit received first that is not the smallest |
| `BuilderFirst.FirstIsNotSmallest` | script/builder-code-miner/src/main.rs:100-124 | A concrete case: of two codes that are both hits, the second is received first |
| `BuilderMiner.WorkersFinish` | script/builder-code-miner/src/main.rs:98-126 | However they are interleaved, the workers make at most two moves for each code and three for each worker |
| `Bytecode.DeploysItsData` | metadata/compiler.js:59-63 | Deploying the init code of any data below 2^32 bytes leaves exactly the data as code |
| `Bytecode.InitcodeIsBytes` | metadata/compiler.js:59-63 | The hex string, with its padded size, is fourteen bytes of header and the data |
| `MetadataCompiler.Compiler.AppendBytes` | metadata/compiler.js:42-54 | A value goes to the end of the last contract or into a new one, its pointer describes it, and no earlier pointer is disturbed |
| `MetadataCompiler.Compiler.Compile` | metadata/compiler.js:18-54 | Every value can be read where its pointer says, the contracts together hold the values in order, and none is left for the next before the value that the next begins with no longer fits |
| `MetadataStore.PointerRoundTrip` | build_release.py:113-125 | A packed pointer word gives back its location, start and size when they fit their fields |
| `MetadataStore.MetadataStore.Store` | contracts/base/MetadataStore.sol:23-33 | The nested loops store all entries, and fail exactly on rows of different lengths |
| `MetadataStore.LastEntryIsFound` | contracts/base/MetadataStore.sol:28-32 | Of several entries under the same keys the last one is found |
| `MetadataStore.KeyWordIsUnique` | metadata/compiler.js:32 | Keys of at most 32 bytes that do not end in a zero byte give different numbers |
| `MetadataStore.KeysAreLeftAligned` | metadata/compiler.js:32 | A key is the number of its bytes followed by zeros up to 32 bytes |
| `MetadataStore.MetadataRoundTrip` | contracts/types/Pointer.sol:50-62 | From compilation through packing, deployment and storing to the lookup on chain, every value comes back unchanged under the name of its property and its position or its key |
| `MetadataStore.NoneTooLarge` | metadata/compiler.js:43-45 | No contract exceeds the maximum size when no single value does, and the contracts are the values in order |
| `SafeBatcher.EstimateGas` | gen_safetx.py:103-110 | 80000 gas for a contract and 200 for each byte of its init code |
| `SafeBatcher.SplitIntoBatches` | gen_safetx.py:184-199 | The same contracts in the same order, in batches that fit the limit or hold one contract, none of which could have taken the next contract |
| `SafeBatcher.FewestBatches` | gen_safetx.py:184-199 | No order-preserving split into such batches has fewer |
| `Timelock.EtaIsPending` | contracts/PanopticGuardian.sol:179-190 | The stored time tells exactly which request is pending, and a pool with a pending unlock is locked |
| `Timelock.SucceedsExactly` | contracts/PanopticGuardian.sol:146-230 | After every run, each call succeeds exactly on conditions told from the history: who calls, whether the pool is locked, a request pending for an hour, a builder admin revoked |
| `Timelock.ExecutionsWereRequested` | contracts/PanopticGuardian.sol:146-215 | In every run each executed unlock was requested by the admin at least the delay before, with no admin lock, cancellation, execution or second request in between |
| `Timelock.LockHoldsForTheDelay` | contracts/PanopticGuardian.sol:146-206 | After an admin lock a pool stays locked for at least the delay, whatever else is called |
| `Timelock.UnlockedByExecution` | contracts/PanopticGuardian.sol:195-206 | A pool leaves the lock only by an executed unlock |
| `Timelock.BuildersCannotDelay` | contracts/PanopticGuardian.sol:168-175 | A builder's lock leaves the schedule alone and neither enables nor prevents an execution |
| `PanopticGuardian.PanopticGuardian.LockPool` | contracts/PanopticGuardian.sol:146-151 | Locks the pool and cancels its pending unlock, for the admin only |
| `PanopticGuardian.PanopticGuardian.LockPoolAsBuilder` | contracts/PanopticGuardian.sol:168-175 | Locks the pool for an authorized builder and leaves a pending unlock |
| `PanopticGuardian.PanopticGuardian.RequestUnlock` | contracts/PanopticGuardian.sol:179-190 | Schedules an unlock of a locked pool with none pending |
| `PanopticGuardian.PanopticGuardian.ExecuteUnlock` | contracts/PanopticGuardian.sol:195-206 | Executes a matured unlock and clears it |
| `PanopticGuardian.PanopticGuardian.CancelUnlock` | contracts/PanopticGuardian.sol:210-215 | Cancels a pending unlock |
| `PanopticGuardian.PanopticGuardian.SetBuilderAdminRevoked` | contracts/PanopticGuardian.sol:220-230 | Revokes or restores a builder admin |
| `PanopticGuardian.PanopticGuardian.IsPoolUnlockReady` | contracts/PanopticGuardian.sol:304-307 | Tells exactly whether an execution by the admin would succeed now |
| `PanopticGuardian.PanopticGuardian.PendingPoolsAreLocked` | contracts/PanopticGuardian.sol:179-206 | Pools with a pending unlock are locked, at any time |

## Left out

- Token transfers, native currency, the Uniswap V4 unlock callback, events, ERC-20 metadata and re-entrancy guards: external effects without ledger content.
- The pool utilization returned by settlements and its transient storage: no ledger content; only the division by zero total assets it can raise is modelled.
- The risk engine's rate model, solvency checks and fee parameters: they are inputs of the vault's steps.
- Wrap-around of unchecked sums and packed fields, except where it decides the result: the deposit limit, the casts of settled amounts, the 16-bit product of the opening fee, the subtraction of the bonus mint, 32-bit epochs, int128 fee bases, fee growth and the mined salt are modelled with their widths.
- Chunks.TouchLeg: the base that is stored is the exact one; that it is truncated to a word is treated separately by ChunkWords.WrappedBasesAgree, and a subtraction that reverts only because the two words lie on different sides of the int128 boundary is not a revert here.
- LedgerOwed.LongAmountsEarnUnowedInterest: the widths of the packed index and bucket are not modelled; at the engine's highest rate the index reaches its 80 bits after 1.75 years.
- LedgerRuns.PriceFallsWithSupply: runs with a loss-making liquidation are not covered, because it lowers the price by design; its loss is that of LedgerLiquidation.LossIsUnpaidSupply.
- SemiFungiblePositionManager.UniswapPool: ticks, prices and swaps of Uniswap; the tokens moved and the growth of fees are inputs, growth not falling while a position holds liquidity.
- In-the-money swaps, net amounts moved, slippage limits, enforced tick ranges, token id validation, the size limit of positions and the ERC-1155 balances of the position manager.
- Premium queries at a tick and the V4 position manager, which keeps the same records as the V3 one.
- PoolMiner.RunWorkers: the workers run one after another, since they share nothing before they are joined.
- MetadataCompiler.Compiler: values come encoded, and compressed where the settings ask for it; the encoding of strings and numbers and LZ77 are not modelled.
- MetadataStore.MetadataRoundTrip: the deployed addresses are given; the hash that fixes them and the limit of a chain on code size are not modelled.
- PoolFactory.MinePoolAddress: gas is counted in salts tried.
- Timelock.Step: all pools share one risk engine, the guardian is its only caller, and whether a builder code resolves to the caller's wallet is an input.
- Builder deployment, fee collection by the treasurer, wallets and proxies: thin wrappers with easy claims.
- The batch names and files written by the Safe generator, exclusions and duplicate checks.
- Command line parsing, output and timing of the miners; parse-time limits appear as preconditions.
