/** Contract `puppeteer` with its interchain account: stored items updated in place, proved
    against `PuppeteerSpec`. */
module PuppeteerContract {
  import opened Results
  import opened ProtocolTypes
  import PuppeteerSpec

  /** Package `helpers`, the registration state of the interchain account. */
  class Ica {
    var state: IcaState

    constructor ()
      ensures state == NotRegistered
    {
      state := NotRegistered;
    }

    method Register() returns (r: Result<()>)
      modifies this
      ensures match PuppeteerSpec.RegisterIca(old(state))
              case Ok(s) => r == Ok(()) && state == s
              case Err(e) => r == Err(e) && state == old(state)
      ensures r.Ok? <==> old(state).NotRegistered? || old(state).TimedOut?
    {
      match state {
        case Registering => return Err(IcaInProgress);
        case Registered(_) => return Err(IcaAlreadyRegistered);
        case TimedOut => state := Registering;
        case NotRegistered => state := Registering;
      }
      return Ok(());
    }

    method SetTimeout()
      modifies this
      ensures state == TimedOut
    {
      state := TimedOut;
    }

    method SetAddress(address: string)
      modifies this
      ensures state == Registered(address)
    {
      state := Registered(address);
    }

    method GetAddress() returns (r: Result<string>)
      ensures r == PuppeteerSpec.IcaAddress(state)
      ensures r.Ok? <==> state.Registered?
    {
      match state {
        case Registered(address) => return Ok(address);
        case NotRegistered => return Err(IcaNotRegistered);
        case Registering => return Err(IcaInProgress);
        case TimedOut => return Err(IcaTimedOut);
      }
    }
  }

  class PuppeteerStorage {
    const ica: Ica
    var txState: TxState

    function State(): Puppeteer
      reads this, ica
    {
      Puppeteer(txState, ica.state)
    }

    constructor ()
      ensures State() == PuppeteerSpec.Instantiate() && fresh(ica)
    {
      ica := new Ica();
      txState := NO_TX;
    }

    method ValidateTxState(status: TxStatus) returns (ok: bool)
      ensures ok <==> txState.status == status
    {
      return txState.status == status;
    }

    /** The execute handlers: validate, build the transaction, store it as in progress. */
    method Execute(msg: PuppeteerMsg) returns (r: Result<()>)
      modifies this
      ensures match PuppeteerSpec.Execute(old(State()), msg)
              case Ok(p) => r == Ok(()) && State() == p
              case Err(e) => r == Err(e) && State() == old(State())
    {
      var idle := ValidateTxState(TxIdle);
      if !idle { return Err(TxStateNotIdle); }
      var tx :- PuppeteerSpec.TransactionOf(msg);
      var _ :- ica.GetAddress();
      MsgWithSudoCallback(tx);
      return Ok(());
    }

    method MsgWithSudoCallback(tx: Transaction)
      modifies this
      ensures txState == TxState(TxInProgress, None, Some(tx))
    {
      txState := TxState(TxInProgress, None, Some(tx));
    }

    method SubmitTxReply(seqId: nat)
      modifies this
      ensures State() == PuppeteerSpec.SubmitReply(old(State()), seqId)
    {
      txState := txState.(seqId := Some(seqId));
      txState := txState.(status := TxWaitingForAck);
    }

    /** `sudo_response`, `sudo_error` and `sudo_timeout` return the hook for core. */
    method Sudo(ack: Ack) returns (r: Result<Hook>)
      modifies this, ica
      ensures match PuppeteerSpec.Sudo(old(State()), ack)
              case Ok((p, hook)) => r == Ok(hook) && State() == p
              case Err(e) => r == Err(e) && State() == old(State())
    {
      var waiting := ValidateTxState(TxWaitingForAck);
      if !waiting { return Err(TxStateNotWaiting); }
      if txState.transaction.None? { return Err(NotFound); }
      var tx := txState.transaction.value;
      match ack {
        case AckSuccess => r := Ok(Success(tx));
        case AckError => r := Ok(Failure(tx));
        case AckTimeout =>
          ica.SetTimeout();
          r := Ok(Failure(tx));
      }
      txState := NO_TX;
    }

    method Restore(saved: Puppeteer)
      modifies this, ica
      ensures State() == saved
    {
      txState := saved.tx;
      ica.state := saved.ica;
    }
  }
}
