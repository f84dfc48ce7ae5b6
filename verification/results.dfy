/** Results and optional values shared by every contract of the model. */
module Results {

  datatype Option<+T> = None | Some(value: T) {
    function GetOr(default: T): T { if Some? then value else default }
  }

  /** The errors a handler can return. `Overflow` stands for every checked
      arithmetic failure: the release profile aborts on overflow and underflow. */
  datatype Error =
    | Overflow
    | DivideByZero
    | NotFound
    | TooBigWithdraw
    | TransitionNotAllowed
    | TxStateNotIdle
    | TxStateNotWaiting
    | IcaNotRegistered
    | IcaInProgress
    | IcaTimedOut
    | IcaAlreadyRegistered
    | InvalidFunds
    | SubmitFailed
    | UnknownPacket
    | BondLimitExceeded
    | InvalidDenom
    | LsmBondAmountIsBelowMinimum
    | LdDenomIsNotSet
    | PumpAddressIsNotSet
    | EmergencyAddressIsNotSet
    | UnbondingTimeIsClose
    | IdleMinIntervalIsNotReached
    | PuppeteerBalanceOutdated
    | PuppeteerResponseIsNotReceived
    | InvalidTransaction
    | PreviousStakingWasFailed
    | VoucherExists
    | InsufficientFunds
    | VoucherNotOwned
    | BatchIsNotWithdrawn
    | BatchSlashingEffectIsEmpty
    | Unauthorized
    | LdTokenExpected
    | DepositExpected
    | InvalidVersion
    | InvalidNumber
    | NumberTooLarge

  datatype Result<+T> = Ok(value: T) | Err(error: Error) {
    predicate IsFailure() { Err? }

    function PropagateFailure<U>(): (r: Result<U>)
      requires Err?
    {
      Err(error)
    }

    function Extract(): T
      requires Ok?
    {
      value
    }
  }
}
