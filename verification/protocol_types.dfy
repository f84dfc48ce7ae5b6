/** The records that contracts `core` and `puppeteer` store and exchange. */
module ProtocolTypes {
  import opened Results
  import opened ShareLedger
  import opened Strategy

  datatype Coin = Coin(denom: string, amount: nat)

  datatype Reason = LsmShare | Stake

  datatype ReadyBatches = ReadyBatches(batchIds: seq<nat>, emergency: bool, amount: nat, recipient: string)

  /** The interchain transactions core can cause. */
  datatype Transaction =
    | Delegate(items: seq<(string, nat)>)
    | Undelegate(items: seq<(string, nat)>, batchId: nat)
    | RedeemShares(shares: seq<RedeemItem>)
    | ClaimRewards(validators: seq<string>, transfer: Option<ReadyBatches>)
    | IbcTransfer(denom: string, amount: nat, reason: Reason)
    | Transfer(payments: seq<(string, Coin)>)

  /** What core sends to the puppeteer: the amount of an IBC transfer is in the coins. */
  datatype PuppeteerMsg =
    | Submit(tx: Transaction)
    | SendFunds(reason: Reason, funds: seq<Coin>)

  /** The hook the puppeteer calls on core, with the stored transaction. */
  datatype Hook =
    | Success(tx: Transaction)
    | Failure(tx: Transaction)

  datatype ContractState = Idle | Claiming | Unbonding | Staking | Transfering

  datatype BatchStatus =
    | New | UnbondRequested | UnbondFailed | UnbondingStarted
    | Withdrawing | Withdrawn | WithdrawingEmergency | WithdrawnEmergency

  datatype UnbondItem = UnbondItem(sender: string, amount: nat, expectedAmount: nat)

  datatype UnbondBatch = UnbondBatch(
    totalAmount: nat,
    expectedAmount: nat,
    expectedRelease: nat,
    unbondItems: seq<UnbondItem>,
    status: BatchStatus,
    slashingEffect: Option<nat>,
    unbondedAmount: Option<nat>,
    created: nat)

  function NewUnbond(now: nat): UnbondBatch {
    UnbondBatch(0, 0, 0, [], New, None, None, now)
  }

  datatype Config = Config(
    baseDenom: string,
    remoteDenom: string,
    ldDenom: Option<string>,
    idleMinInterval: nat,
    unbondingPeriod: nat,
    unbondingSafePeriod: nat,
    unbondBatchSwitchTime: nat,
    pumpAddress: Option<string>,
    emergencyAddress: Option<string>,
    lsmMinBondAmount: nat,
    lsmRedeemThreshold: nat,
    lsmRedeemMaximumInterval: nat,
    bondLimit: Option<nat>,
    fee: Option<nat>,
    feeAddress: Option<string>,
    minStakeAmount: nat)

  /** The storage of contract `core`. */
  datatype Core = Core(
    fsm: ContractState,
    batchId: nat,
    batches: map<nat, UnbondBatch>,
    failedBatchId: Option<nat>,
    totalLsmShares: nat,
    pendingLsmShares: Shares,
    lsmSharesToRedeem: Shares,
    lastResponse: Option<Hook>,
    exchangeRate: Option<nat>,
    bondedAmount: nat,
    collectedFees: Option<(string, nat)>,
    preUnbondingBalance: Option<nat>,
    pendingTransfer: Option<nat>,
    lastIdleCall: nat,
    lastLsmRedeem: nat,
    lastIcaBalanceChangeHeight: nat)

  /** What core reads from the bank module. */
  datatype Bank = Bank(ldSupply: nat, coreBalance: nat)

  /** What the puppeteer and the validator set report when queried. */
  datatype Reports = Reports(
    icaBalance: nat,
    height: nat,
    time: nat,
    delegations: seq<DelegationEntry>,
    validators: seq<Validator>,
    rewardPayments: seq<(string, Coin)>)

  /** The block, the attached coins and the answers to queries of one call. */
  datatype Env = Env(now: nat, height: nat, funds: seq<Coin>, bank: Bank, reports: Reports)

  /** The denom of the fees, filtered out of the coins of a transfer. */
  const LOCAL_DENOM: string := "untrn"

  // ---------------------------------------------------------------- contract puppeteer

  datatype TxStatus = TxIdle | TxInProgress | TxWaitingForAck

  datatype TxState = TxState(status: TxStatus, seqId: Option<nat>, transaction: Option<Transaction>)

  const NO_TX: TxState := TxState(TxIdle, None, None)

  datatype IcaState = NotRegistered | Registering | TimedOut | Registered(address: string)

  datatype Puppeteer = Puppeteer(tx: TxState, ica: IcaState)

  datatype Ack = AckSuccess | AckError | AckTimeout
}
