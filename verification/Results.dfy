/** Outcomes of a transaction: a value, or a revert that leaves the state as it was. */
module Results {

  datatype Error =
    | Panic                      // checked arithmetic under- or overflow
    | DivisionByZero
    | CastingError
    | DepositTooLarge
    | BelowMinimumRedemption
    | ExceedsMaximumRedemption
    | NotEnoughTokens
    | PositionCountNotZero
    | AccountInsolvent
    | ChunkHasZeroLiquidity
    | NotEnoughLiquidityInChunk
    | WrongUniswapPool
    | ExternalFailure            // a call to another contract reverted
    | OutOfGas
    | InvalidRange               // no salts, or salts beyond the largest
    | NotGuardianAdmin
    | NotAuthorizedBuilder
    | UnlockAlreadyPending
    | PoolNotLocked
    | NoPendingUnlock
    | UnlockNotReady
    | ZeroAddress

  datatype Option<+T> = Some(value: T) | None

  datatype Result<+T> = Ok(value: T) | Revert(error: Error) {

    predicate IsFailure() {
      Revert?
    }

    function PropagateFailure<U>(): Result<U>
      requires Revert?
    {
      Revert(error)
    }

    function Extract(): T
      requires Ok?
    {
      value
    }
  }

  /** Continue only when `condition` holds; `:- Need(c, e);` is the source's `if (!c) revert e`. */
  function Need(condition: bool, error: Error): Result<()> {
    if condition then Ok(()) else Revert(error)
  }
}
