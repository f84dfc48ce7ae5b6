/** Contract `core`: handlers that update the stored items one by one, proved against the
    functions of `CoreSpec`. A handler that fails may leave its updates half done; the chain
    then restores the storage (`Restore`). */
module CoreContract {
  import opened Results
  import opened FixedPoint
  import opened ShareLedger
  import opened ProtocolTypes
  import opened FsmHelper
  import CoreSpec
  import Strategy

  class CoreStorage {
    const cfg: Config
    const machine: Fsm
    var batchId: nat
    var batches: map<nat, UnbondBatch>
    var failedBatchId: Option<nat>
    var totalLsmShares: nat
    var pendingLsmShares: Shares
    var lsmSharesToRedeem: Shares
    var lastResponse: Option<Hook>
    var exchangeRate: Option<nat>
    var bondedAmount: nat
    var collectedFees: Option<(string, nat)>
    var preUnbondingBalance: Option<nat>
    var pendingTransfer: Option<nat>
    var lastIdleCall: nat
    var lastLsmRedeem: nat
    var lastIcaBalanceChangeHeight: nat

    /** The whole storage as a value. */
    function State(): Core
      reads this, machine
    {
      Core(machine.state, batchId, batches, failedBatchId, totalLsmShares, pendingLsmShares, lsmSharesToRedeem,
           lastResponse, exchangeRate, bondedAmount, collectedFees, preUnbondingBalance, pendingTransfer,
           lastIdleCall, lastLsmRedeem, lastIcaBalanceChangeHeight)
    }

    constructor (cfg: Config, now: nat)
      ensures State() == CoreSpec.Instantiate(now) && this.cfg == cfg && fresh(machine)
    {
      this.cfg := cfg;
      machine := new Fsm(Idle);
      batchId, batches := 0, map[0 := NewUnbond(now)];
      failedBatchId, lastResponse, exchangeRate, collectedFees := None, None, None, None;
      preUnbondingBalance, pendingTransfer := None, None;
      totalLsmShares, bondedAmount, lastIdleCall, lastLsmRedeem, lastIcaBalanceChangeHeight := 0, 0, 0, 0, 0;
      pendingLsmShares, lsmSharesToRedeem := map[], map[];
    }

    // -------------------------------------------------------------- bond, unbond

    /** The rate: cached outside Idle, otherwise priced from the books, where the unprocessed
        unbonds are added up batch by batch. */
    method QueryExchangeRate(env: Env, currentStake: nat) returns (r: Result<nat>)
      ensures r == CoreSpec.ExchangeRate(State(), cfg, env, currentStake)
    {
      if machine.state != Idle { return Ok(if exchangeRate.Some? then exchangeRate.value else ONE); }
      if cfg.ldDenom.None? { return Err(LdDenomIsNotSet); }
      if env.bank.ldSupply == 0 { return Ok(ONE); }
      var delegated := CoreSpec.ReportedStake(env.reports.delegations);
      var id, unprocessed := batchId, 0;
      if id !in batches { return Err(NotFound); }
      if batches[id].status == New { unprocessed := unprocessed + batches[id].totalAmount; }
      if id > 0 {
        id := id - 1;
        if id !in batches { return Err(NotFound); }
        if batches[id].status == UnbondRequested { unprocessed := unprocessed + batches[id].totalAmount; }
      }
      if failedBatchId.Some? {
        if failedBatchId.value !in batches { return Err(NotFound); }
        unprocessed := unprocessed + batches[failedBatchId.value].totalAmount;
      }
      var gross := delegated + env.bank.coreBalance + totalLsmShares;
      if gross < currentStake + unprocessed { return Err(Overflow); }
      return Ok(Ratio(gross - currentStake - unprocessed, env.bank.ldSupply));
    }

    method ExecuteBond(env: Env, trace: Option<string>) returns (r: Result<nat>)
      modifies this, machine
      ensures match CoreSpec.Bond(old(State()), cfg, env, trace)
              case Ok((core, issue)) => r == Ok(issue) && State() == core
              case Err(e) => r == Err(e)
    {
      var coin :- CoreSpec.OneCoin(env.funds);
      if cfg.bondLimit.Some? && bondedAmount + coin.amount > cfg.bondLimit.value { return Err(BondLimitExceeded); }
      bondedAmount := bondedAmount + coin.amount;
      var _ :- AddShares(coin, trace);
      var rate :- QueryExchangeRate(env, coin.amount);
      var issue :- CoreSpec.IssueAmount(coin.amount, rate);
      return Ok(issue);
    }

    method AddShares(coin: Coin, trace: Option<string>) returns (r: Result<()>)
      modifies this
      ensures match CoreSpec.BondShares(old(State()), cfg, coin, trace)
              case Ok(core) => r == Ok(()) && State() == core
              case Err(e) => r == Err(e)
    {
      if coin.denom != cfg.baseDenom {
        if trace.None? || coin.denom == LOCAL_DENOM { return Err(InvalidDenom); }
        if coin.amount < cfg.lsmMinBondAmount { return Err(LsmBondAmountIsBelowMinimum); }
        totalLsmShares := totalLsmShares + coin.amount;
        var share := if coin.denom in pendingLsmShares then pendingLsmShares[coin.denom] else Share(trace.value, 0);
        pendingLsmShares := pendingLsmShares[coin.denom := share.(amount := share.amount + coin.amount)];
      }
      return Ok(());
    }

    method ExecuteUnbond(env: Env, sender: string) returns (r: Result<UnbondItem>)
      modifies this, machine
      ensures match CoreSpec.Unbond(old(State()), cfg, env, sender)
              case Ok((core, item)) => r == Ok(item) && State() == core
              case Err(e) => r == Err(e)
    {
      var amount :- CoreSpec.MustPay(cfg, env.funds);
      if batchId !in batches { return Err(NotFound); }
      var batch := batches[batchId];
      var rate :- QueryExchangeRate(env, 0);
      var item := UnbondItem(sender, amount, MulFloor(amount, rate));
      batch := batch.(unbondItems := batch.unbondItems + [item]);
      batch := batch.(totalAmount := batch.totalAmount + amount);
      batch := batch.(expectedAmount := batch.expectedAmount + item.expectedAmount);
      batches := batches[batchId := batch];
      return Ok(item);
    }

    // -------------------------------------------------------------- puppeteer hook

    method ExecutePuppeteerHook(env: Env, hook: Hook) returns (r: Result<()>)
      modifies this, machine
      ensures match CoreSpec.PuppeteerHook(old(State()), env, hook)
              case Ok(core) => r == Ok(()) && State() == core
              case Err(e) => r == Err(e)
    {
      match hook {
        case Success(tx) =>
          lastIcaBalanceChangeHeight := env.height;
          match tx {
            case IbcTransfer(denom, amount, reason) =>
              if reason.LsmShare? { var _ :- MoveLsmShare(denom, amount); }
            case RedeemShares(items) => var _ :- TakeRedeemed(items, env.now);
            case _ => {}
          }
        case Failure(tx) =>
          if CoreSpec.ReturnsToIdle(tx) { var _ :- machine.GoTo(Idle); }
      }
      lastResponse := Some(hook);
      return Ok(());
    }

    method MoveLsmShare(denom: string, amount: nat) returns (r: Result<()>)
      modifies this
      ensures match CoreSpec.LsmShareSent(old(State()), denom, amount)
              case Ok(core) => r == Ok(()) && State() == core
              case Err(e) => r == Err(e)
    {
      if denom in pendingLsmShares {
        var current := pendingLsmShares[denom];
        var share := if denom in lsmSharesToRedeem then lsmSharesToRedeem[denom] else Share(current.remoteDenom, 0);
        lsmSharesToRedeem := lsmSharesToRedeem[denom := share.(amount := share.amount + amount)];
        if current.amount == amount {
          pendingLsmShares := pendingLsmShares - {denom};
        } else {
          if current.amount < amount { return Err(Overflow); }
          pendingLsmShares := pendingLsmShares[denom := current.(amount := current.amount - amount)];
        }
      }
      return Ok(());
    }

    method TakeRedeemed(items: seq<RedeemItem>, now: nat) returns (r: Result<()>)
      modifies this
      ensures match CoreSpec.SharesRedeemed(old(State()), items, now)
              case Ok(core) => r == Ok(()) && State() == core
              case Err(e) => r == Err(e)
    {
      var sum := 0;
      for i := 0 to |items|
        invariant sum + SumItems(items[i..]) == SumItems(items)
        invariant RemoveItems(old(lsmSharesToRedeem), items) == RemoveItems(lsmSharesToRedeem, items[i..])
        invariant State() == old(State()).(lsmSharesToRedeem := lsmSharesToRedeem)
      {
        assert items[i..][1..] == items[i + 1..];
        sum := sum + items[i].amount;
        lsmSharesToRedeem := lsmSharesToRedeem - {items[i].localDenom};
      }
      if totalLsmShares < sum { return Err(Overflow); }
      totalLsmShares := totalLsmShares - sum;
      lastLsmRedeem := now;
      return Ok(());
    }

    // -------------------------------------------------------------- messages

    method GetStakeMsg(env: Env) returns (r: Result<Option<PuppeteerMsg>>)
      modifies this
      ensures match CoreSpec.StakeMsg(old(State()), cfg, env)
              case Ok(o) => r == Ok(o.msg) && State() == o.core
              case Err(e) => r == Err(e)
    {
      var balance := env.reports.icaBalance;
      if balance < cfg.minStakeAmount { return Ok(None); }
      if lastIcaBalanceChangeHeight > env.reports.height { return Err(PuppeteerBalanceOutdated); }
      var fee := CoreSpec.Fee(cfg, balance);
      if balance < fee { return Err(Overflow); }
      var plan :- Strategy.CalcDeposit(env.reports.validators, env.reports.delegations, cfg.remoteDenom, balance - fee);
      if fee > 0 && cfg.feeAddress.Some? {
        if collectedFees.Some? {
          collectedFees := Some((collectedFees.value.0, collectedFees.value.1 + fee));
        } else {
          collectedFees := Some((cfg.feeAddress.value, fee));
        }
      }
      return Ok(Some(Submit(Delegate(CoreSpec.PlanItems(plan)))));
    }

    method GetUnbondingMsg(env: Env) returns (r: Result<Option<PuppeteerMsg>>)
      modifies this
      ensures match CoreSpec.UnbondingMsg(old(State()), cfg, env)
              case Ok(o) => r == Ok(o.msg) && State() == o.core
              case Err(e) => r == Err(e)
    {
      var id := if failedBatchId.Some? then failedBatchId.value else batchId;
      if id !in batches { return Err(NotFound); }
      var unbond := batches[id];
      if !CoreSpec.ReadyToUnbond(unbond, cfg, env.now) { return Ok(None); }
      preUnbondingBalance := Some(env.reports.icaBalance);
      var plan :- Strategy.CalcWithdraw(env.reports.validators, env.reports.delegations, cfg.remoteDenom,
                                        unbond.totalAmount);
      unbond := unbond.(status := UnbondRequested);
      batches := batches[id := unbond];
      batchId := id + 1;
      batches := batches[id + 1 := NewUnbond(env.now)];
      return Ok(Some(Submit(Undelegate(CoreSpec.PlanItems(plan), id))));
    }

    // -------------------------------------------------------------- ticks

    /** The end of every tick that has nothing left to stake. */
    method UnbondOrIdle(env: Env) returns (r: Result<Option<PuppeteerMsg>>)
      modifies this, machine
      ensures match CoreSpec.UnbondOrIdle(old(State()), cfg, env)
              case Ok(o) => r == Ok(o.msg) && State() == o.core
              case Err(e) => r == Err(e)
    {
      var msg :- GetUnbondingMsg(env);
      if msg.Some? { var _ :- machine.GoTo(Unbonding); } else { var _ :- machine.GoTo(Idle); }
      return Ok(msg);
    }

    method StakeOrUnbond(env: Env) returns (r: Result<Option<PuppeteerMsg>>)
      modifies this, machine
      ensures match CoreSpec.StakeOrUnbond(old(State()), cfg, env)
              case Ok(o) => r == Ok(o.msg) && State() == o.core
              case Err(e) => r == Err(e)
    {
      var msg :- GetStakeMsg(env);
      if msg.Some? {
        var _ :- machine.GoTo(Staking);
        return Ok(msg);
      }
      r := UnbondOrIdle(env);
    }

    method AfterClaiming(env: Env) returns (r: Result<Option<PuppeteerMsg>>)
      modifies this, machine
      ensures match CoreSpec.AfterClaiming(old(State()), cfg, env)
              case Ok(o) => r == Ok(o.msg) && State() == o.core
              case Err(e) => r == Err(e)
    {
      var pending := env.bank.coreBalance;
      if pending != 0 {
        var _ :- machine.GoTo(Transfering);
        pendingTransfer := Some(pending);
        return Ok(Some(SendFunds(Stake, [Coin(cfg.baseDenom, pending)] + env.funds)));
      }
      r := StakeOrUnbond(env);
    }

    method TickClaiming(env: Env) returns (r: Result<Option<PuppeteerMsg>>)
      modifies this, machine
      ensures match CoreSpec.TickClaiming(old(State()), cfg, env)
              case Ok(o) => r == Ok(o.msg) && State() == o.core
              case Err(e) => r == Err(e)
    {
      if lastResponse.None? { return Err(PuppeteerResponseIsNotReceived); }
      var response := lastResponse.value;
      lastResponse := None;
      match response {
        case Success(ClaimRewards(_, transfer)) =>
          if transfer.Some? { var _ :- FinishBatches(transfer.value.batchIds, transfer.value.emergency); }
        case Success(_) => return Err(InvalidTransaction);
        case Failure(_) => {}
      }
      r := AfterClaiming(env);
    }

    method FinishBatches(ids: seq<nat>, emergency: bool) returns (r: Result<()>)
      modifies this
      ensures match CoreSpec.MarkWithdrawn(old(batches), ids, emergency)
              case Ok(done) => r == Ok(()) && State() == old(State()).(batches := done)
              case Err(e) => r == Err(e)
    {
      for i := 0 to |ids|
        invariant CoreSpec.MarkWithdrawn(old(batches), ids, emergency)
               == CoreSpec.MarkWithdrawn(batches, ids[i..], emergency)
        invariant State() == old(State()).(batches := batches)
      {
        assert ids[i..][1..] == ids[i + 1..];
        if ids[i] !in batches { return Err(NotFound); }
        var batch := batches[ids[i]];
        if emergency {
          batch := batch.(status := WithdrawnEmergency);
        } else {
          batch := batch.(status := Withdrawn);
        }
        batches := batches[ids[i] := batch];
      }
      return Ok(());
    }

    method TickTransfering(env: Env) returns (r: Result<Option<PuppeteerMsg>>)
      modifies this, machine
      ensures match CoreSpec.TickTransfering(old(State()), cfg, env)
              case Ok(o) => r == Ok(o.msg) && State() == o.core
              case Err(e) => r == Err(e)
    {
      if lastResponse.None? { return Err(PuppeteerResponseIsNotReceived); }
      lastResponse := None;
      r := StakeOrUnbond(env);
    }

    method TickStaking(env: Env) returns (r: Result<Option<PuppeteerMsg>>)
      modifies this, machine
      ensures match CoreSpec.TickStaking(old(State()), cfg, env)
              case Ok(o) => r == Ok(o.msg) && State() == o.core
              case Err(e) => r == Err(e)
    {
      if lastResponse.None? { return Err(PuppeteerResponseIsNotReceived); }
      if lastResponse.value.Failure? { return Err(PreviousStakingWasFailed); }
      lastResponse := None;
      r := UnbondOrIdle(env);
    }

    method TickUnbonding(env: Env) returns (r: Result<Option<PuppeteerMsg>>)
      modifies this, machine
      ensures match CoreSpec.TickUnbonding(old(State()), cfg, env)
              case Ok(o) => r == Ok(o.msg) && State() == o.core
              case Err(e) => r == Err(e)
    {
      if lastResponse.None? { return Err(PuppeteerResponseIsNotReceived); }
      var response := lastResponse.value;
      if !response.tx.Undelegate? { return Err(InvalidTransaction); }
      var id := response.tx.batchId;
      if id !in batches { return Err(NotFound); }
      var unbond := batches[id];
      if response.Success? {
        lastResponse := None;
        unbond := unbond.(status := UnbondingStarted);
        unbond := unbond.(expectedRelease := env.now + cfg.unbondingPeriod);
        batches := batches[id := unbond];
        failedBatchId := None;
      } else {
        unbond := unbond.(status := UnbondFailed);
        batches := batches[id := unbond];
        failedBatchId := Some(id);
      }
      var _ :- machine.GoTo(Idle);
      return Ok(None);
    }

    method CollectUnbondingIds() returns (ids: seq<nat>)
      ensures ids == CoreSpec.UnbondingIds(batches, batchId + 1)
    {
      ids := [];
      for i := 0 to batchId + 1
        invariant ids == CoreSpec.UnbondingIds(batches, i)
      {
        if i in batches && batches[i].status.UnbondingStarted? { ids := ids + [i]; }
      }
    }

    method IsUnbondingTimeClose(ids: seq<nat>, now: nat) returns (r: Result<bool>)
      requires forall i | i in ids :: i in batches
      ensures r == CoreSpec.UnbondingTimeIsNear(batches, ids, now, cfg.unbondingSafePeriod)
    {
      for i := 0 to |ids|
        invariant CoreSpec.UnbondingTimeIsNear(batches, ids, now, cfg.unbondingSafePeriod)
               == CoreSpec.UnbondingTimeIsNear(batches, ids[i..], now, cfg.unbondingSafePeriod)
      {
        assert ids[i..][1..] == ids[i + 1..];
        var expected := batches[ids[i]].expectedRelease;
        if now < expected {
          if expected < cfg.unbondingSafePeriod { return Err(Overflow); }
          if now > expected - cfg.unbondingSafePeriod { return Ok(true); }
        }
      }
      return Ok(false);
    }

    method ReleaseBatches(ids: seq<nat>, pump: string, icaBalance: nat) returns (r: Result<Option<ReadyBatches>>)
      requires forall i | i in ids :: i in batches
      modifies this
      ensures match CoreSpec.PrepareTransfer(old(batches), ids, cfg, pump, icaBalance)
              case Ok((released, transfer)) => r == Ok(transfer) && State() == old(State()).(batches := released)
              case Err(e) => r == Err(e)
    {
      if |ids| == 0 { return Ok(None); }
      if |ids| == 1 {
        var batch := batches[ids[0]];
        var unbonded, slashing := batch.expectedAmount, ONE;
        if icaBalance < batch.expectedAmount {
          unbonded, slashing := icaBalance, Ratio(icaBalance, batch.expectedAmount);
        }
        batch := batch.(unbondedAmount := Some(unbonded));
        batch := batch.(slashingEffect := Some(slashing));
        batch := batch.(status := Withdrawing);
        batches := batches[ids[0] := batch];
        return Ok(Some(ReadyBatches(ids, false, unbonded, pump)));
      }
      var total := CoreSpec.ExpectedTotal(batches, ids);
      var emergency, recipient, amount := false, pump, total;
      if icaBalance < total {
        if cfg.emergencyAddress.None? { return Err(EmergencyAddressIsNotSet); }
        emergency, recipient, amount := true, cfg.emergencyAddress.value, icaBalance;
      }
      MarkReleased(ids, emergency);
      return Ok(Some(ReadyBatches(ids, emergency, amount, recipient)));
    }

    method MarkReleased(ids: seq<nat>, emergency: bool)
      requires forall i | i in ids :: i in batches
      modifies this
      ensures State() == old(State()).(batches := CoreSpec.ReleaseAll(old(batches), ids, emergency))
    {
      for i := 0 to |ids|
        invariant batches.Keys == old(batches).Keys
        invariant CoreSpec.ReleaseAll(old(batches), ids, emergency) == CoreSpec.ReleaseAll(batches, ids[i..], emergency)
        invariant State() == old(State()).(batches := batches)
      {
        assert ids[i..][1..] == ids[i + 1..];
        var batch := batches[ids[i]];
        if emergency {
          batch := batch.(unbondedAmount := None);
          batch := batch.(slashingEffect := None);
          batch := batch.(status := WithdrawingEmergency);
        } else {
          batch := batch.(unbondedAmount := Some(batch.expectedAmount));
          batch := batch.(slashingEffect := Some(ONE));
          batch := batch.(status := Withdrawing);
        }
        batches := batches[ids[i] := batch];
      }
    }

    method TickIdle(env: Env) returns (r: Result<Option<PuppeteerMsg>>)
      modifies this, machine
      ensures match CoreSpec.TickIdle(old(State()), cfg, env)
              case Ok(o) => r == Ok(o.msg) && State() == o.core
              case Err(e) => r == Err(e)
    {
      var rate :- QueryExchangeRate(env, 0);
      exchangeRate := Some(rate);
      if env.now < lastIdleCall { return Err(Overflow); }
      if env.now - lastIdleCall < cfg.idleMinInterval {
        var msg :- CoreSpec.IdleMessage(State(), cfg, env);
        return Ok(Some(msg));
      }
      r := LongIdleTick(env);
    }

    method LongIdleTick(env: Env) returns (r: Result<Option<PuppeteerMsg>>)
      modifies this, machine
      ensures match CoreSpec.IdleExcursion(old(State()), cfg, env)
              case Ok(o) => r == Ok(o.msg) && State() == o.core
              case Err(e) => r == Err(e)
    {
      var ids := CollectUnbondingIds();
      CoreSpec.UnbondingIdsExist(batches, batchId + 1);
      CoreSpec.DueIdsExist(batches, ids, env);
      var close :- IsUnbondingTimeClose(ids, env.now);
      if close { return Err(UnbondingTimeIsClose); }
      if cfg.pumpAddress.None? { return Err(PumpAddressIsNotSet); }
      var transfer :- ReleaseBatches(CoreSpec.DueIds(batches, ids, env), cfg.pumpAddress.value, env.reports.icaBalance);
      var validators := CoreSpec.ValidatorsToClaim(env.reports.validators, env.reports.delegations);
      var _ :- machine.GoTo(Claiming);
      var msg: Option<PuppeteerMsg>;
      if validators == [] {
        msg :- AfterClaiming(env);
      } else {
        msg := Some(Submit(ClaimRewards(validators, transfer)));
      }
      lastIdleCall := env.now;
      return Ok(msg);
    }

    method ExecuteTick(env: Env) returns (r: Result<Option<PuppeteerMsg>>)
      modifies this, machine
      ensures match CoreSpec.Tick(old(State()), cfg, env)
              case Ok(o) => r == Ok(o.msg) && State() == o.core
              case Err(e) => r == Err(e)
    {
      match machine.state {
        case Idle => r := TickIdle(env);
        case Claiming => r := TickClaiming(env);
        case Transfering => r := TickTransfering(env);
        case Unbonding => r := TickUnbonding(env);
        case Staking => r := TickStaking(env);
      }
    }

    /** What the chain does with the storage of a reverted call. */
    method Restore(saved: Core)
      modifies this, machine
      ensures State() == saved
    {
      machine.state := saved.fsm;
      batchId, batches, failedBatchId := saved.batchId, saved.batches, saved.failedBatchId;
      totalLsmShares, pendingLsmShares := saved.totalLsmShares, saved.pendingLsmShares;
      lsmSharesToRedeem, lastResponse := saved.lsmSharesToRedeem, saved.lastResponse;
      exchangeRate, bondedAmount, collectedFees := saved.exchangeRate, saved.bondedAmount, saved.collectedFees;
      preUnbondingBalance, pendingTransfer := saved.preUnbondingBalance, saved.pendingTransfer;
      lastIdleCall, lastLsmRedeem := saved.lastIdleCall, saved.lastLsmRedeem;
      lastIcaBalanceChangeHeight := saved.lastIcaBalanceChangeHeight;
    }
  }
}
