/** Contract `puppeteer` and its interchain account as functions on stored state. */
module PuppeteerSpec {
  import opened Results
  import opened ProtocolTypes

  function Instantiate(): Puppeteer { Puppeteer(NO_TX, NotRegistered) }

  // ---------------------------------------------------------------- interchain account

  function RegisterIca(ica: IcaState): Result<IcaState> {
    match ica
    case Registering => Err(IcaInProgress)
    case Registered(_) => Err(IcaAlreadyRegistered)
    case _ => Ok(Registering)
  }

  function IcaAddress(ica: IcaState): Result<string> {
    match ica
    case Registered(address) => Ok(address)
    case NotRegistered => Err(IcaNotRegistered)
    case Registering => Err(IcaInProgress)
    case TimedOut => Err(IcaTimedOut)
  }

  // ---------------------------------------------------------------- transactions

  /** The attached coins without the fee denom. */
  function MessageFunds(funds: seq<Coin>): seq<Coin> {
    if funds == [] then []
    else (if funds[0].denom != LOCAL_DENOM then [funds[0]] else []) + MessageFunds(funds[1..])
  }

  function TransactionOf(msg: PuppeteerMsg): Result<Transaction> {
    match msg
    case Submit(tx) => Ok(tx)
    case SendFunds(reason, funds) =>
      var coins := MessageFunds(funds);
      if |coins| != 1 then Err(InvalidFunds)
      else Ok(IbcTransfer(coins[0].denom, coins[0].amount, reason))
  }

  /** Every execute handler: only from the idle state, and only with a registered account. */
  function Execute(p: Puppeteer, msg: PuppeteerMsg): Result<Puppeteer> {
    if p.tx.status != TxIdle then Err(TxStateNotIdle)
    else
      var tx :- TransactionOf(msg);
      var _ :- IcaAddress(p.ica);
      Ok(p.(tx := TxState(TxInProgress, None, Some(tx))))
  }

  /** The reply of the submitted message. */
  function SubmitReply(p: Puppeteer, seqId: nat): Puppeteer {
    p.(tx := p.tx.(seqId := Some(seqId), status := TxWaitingForAck))
  }

  /** `sudo_response`, `sudo_error` and `sudo_timeout`: the sequence of the acknowledged
      packet is not compared with the stored one. */
  function Sudo(p: Puppeteer, ack: Ack): Result<(Puppeteer, Hook)> {
    if p.tx.status != TxWaitingForAck then Err(TxStateNotWaiting)
    else if p.tx.transaction.None? then Err(NotFound)
    else
      var tx := p.tx.transaction.value;
      var hook := if ack.AckSuccess? then Success(tx) else Failure(tx);
      Ok((Puppeteer(NO_TX, if ack.AckTimeout? then TimedOut else p.ica), hook))
  }
}
