/** What a successful tick changes: the facts the invariants rest on. */
module TickFacts {
  import opened Results
  import opened ProtocolTypes
  import opened CoreSpec
  import Distribution
  import Strategy

  /** Everything but the machine state, the cached rate, the response and the bookkeeping of
      pending transfers, fees and times. */
  ghost predicate SameBooks(c: Core, d: Core) {
    SameBatches(c, d) && SameShares(c, d)
  }

  ghost predicate SameBatches(c: Core, d: Core) {
    c.batches == d.batches && c.batchId == d.batchId && c.failedBatchId == d.failedBatchId
  }

  ghost predicate SameShares(c: Core, d: Core) {
    && c.totalLsmShares == d.totalLsmShares
    && c.pendingLsmShares == d.pendingLsmShares
    && c.lsmSharesToRedeem == d.lsmSharesToRedeem
  }

  /** The message announces the transaction that the new state waits for. */
  ghost predicate Announced(state: ContractState, msg: Option<PuppeteerMsg>) {
    match state
    case Idle => msg.None?
    case Claiming => msg.Some? && msg.value.Submit? && msg.value.tx.ClaimRewards?
    case Transfering => msg.Some? && msg.value.SendFunds? && msg.value.reason.Stake?
    case Staking => msg.Some? && msg.value.Submit? && msg.value.tx.Delegate?
    case Unbonding => msg.Some? && msg.value.Submit? && msg.value.tx.Undelegate?
  }

  lemma UnbondOrIdleFacts(c: Core, cfg: Config, env: Env)
    requires UnbondOrIdle(c, cfg, env).Ok?
    ensures var o := UnbondOrIdle(c, cfg, env).value;
            && Announced(o.core.fsm, o.msg)
            && (o.msg.None? ==> o.core == c.(fsm := Idle))
            && (o.msg.Some? ==>
                  && c.fsm.Staking?
                  && BatchToUnbond(c) in c.batches
                  && ReadyToUnbond(c.batches[BatchToUnbond(c)], cfg, env.now)
                  && o.core == RequestUnbond(c, BatchToUnbond(c), env).(fsm := Unbonding)
                  && o.msg.value.tx.batchId == BatchToUnbond(c))
  {
  }

  /** The storage when a tick of Claiming or Transfering looks for stake and batches. */
  ghost function AfterResponse(c: Core): Result<Core>
    requires c.lastResponse.Some?
  {
    var cleared := c.(lastResponse := None);
    if c.fsm.Claiming? then FinishClaim(cleared, c.lastResponse.value) else Ok(cleared)
  }

  /** The transition table has no way from Claiming or Transfering to Unbonding: a tick of
      these states that has read its response is refused by the table exactly when it finds
      nothing to transfer or stake and then a batch to undelegate. */
  lemma OnlyStakingUnbonds(c: Core, cfg: Config, env: Env)
    requires c.fsm.Claiming? || c.fsm.Transfering?
    requires c.lastResponse.Some? && AfterResponse(c).Ok?
    ensures var d := AfterResponse(c).value;
            var stake, unbond := StakeMsg(d, cfg, env), UnbondingMsg(d, cfg, env);
            Tick(c, cfg, env) == Err(TransitionNotAllowed)
            <==> (c.fsm.Claiming? ==> env.bank.coreBalance == 0)
                 && stake.Ok? && stake.value.msg.None? && unbond.Ok? && unbond.value.msg.Some?
  {
    PlanErrors(env, cfg);
  }

  /** The errors of a plan are those of its arithmetic. */
  lemma PlanErrors(env: Env, cfg: Config)
    ensures var vs, es := env.reports.validators, env.reports.delegations;
            && (forall amount :: Strategy.CalcDeposit(vs, es, cfg.remoteDenom, amount) != Err(TransitionNotAllowed))
            && (forall amount :: Strategy.CalcWithdraw(vs, es, cfg.remoteDenom, amount) != Err(TransitionNotAllowed))
  {
    var ds := Strategy.Join(env.reports.validators, env.reports.delegations, cfg.remoteDenom);
    forall spw, left ensures Distribution.IdealStakes(ds, spw, left) != Err(TransitionNotAllowed) {
      IdealStakesErrors(ds, spw, left);
    }
  }

  lemma {:induction false} IdealStakesErrors(ds: seq<Distribution.Delegation>, spw: nat, left: nat)
    ensures Distribution.IdealStakes(ds, spw, left) != Err(TransitionNotAllowed)
  {
    if ds != [] && Distribution.IdealHead(ds[0], spw, left).Ok? {
      var head := Distribution.IdealHead(ds[0], spw, left).value;
      if head.idealStake < left { IdealStakesErrors(ds[1..], spw, left - head.idealStake); }
    }
  }

  lemma StakeOrUnbondFacts(c: Core, cfg: Config, env: Env)
    requires !c.fsm.Staking? && StakeOrUnbond(c, cfg, env).Ok?
    ensures var o := StakeOrUnbond(c, cfg, env).value;
            && Announced(o.core.fsm, o.msg)
            && SameBooks(c, o.core)
            && o.core.lastResponse == c.lastResponse
            && o.core.exchangeRate == c.exchangeRate
            && (c.collectedFees.Some? ==> o.core.collectedFees.Some?)
            && (o.core.fsm.Idle? || o.core.fsm.Staking?)
  {
    if StakeMsg(c, cfg, env).value.msg.None? { UnbondOrIdleFacts(c, cfg, env); }
  }

  lemma AfterClaimingFacts(c: Core, cfg: Config, env: Env)
    requires c.fsm.Claiming? && AfterClaiming(c, cfg, env).Ok?
    ensures var o := AfterClaiming(c, cfg, env).value;
            && Announced(o.core.fsm, o.msg)
            && SameBooks(c, o.core)
            && o.core.lastResponse == c.lastResponse
            && o.core.exchangeRate == c.exchangeRate
            && (c.collectedFees.Some? ==> o.core.collectedFees.Some?)
            && (o.core.fsm.Idle? || o.core.fsm.Staking? || o.core.fsm.Transfering?)
  {
    if env.bank.coreBalance == 0 { StakeOrUnbondFacts(c, cfg, env); }
  }

  /** The long idle tick changes no books but the batches it releases. */
  lemma IdleExcursionFacts(c: Core, cfg: Config, env: Env)
    requires c.fsm.Idle? && IdleExcursion(c, cfg, env).Ok?
    ensures var o := IdleExcursion(c, cfg, env).value;
            var r := PrepareTransfer(c.batches, ReadyIds(c, env), cfg, cfg.pumpAddress.value, env.reports.icaBalance);
            && cfg.pumpAddress.Some? && r.Ok?
            && Announced(o.core.fsm, o.msg)
            && SameBooks(c.(batches := r.value.0), o.core)
            && o.core.lastResponse == c.lastResponse
            && o.core.exchangeRate == c.exchangeRate
            && (c.collectedFees.Some? ==> o.core.collectedFees.Some?)
            && !o.core.fsm.Unbonding?
            && (o.core.fsm.Claiming? ==> o.msg.value.tx.transfer == r.value.1)
  {
    var r := PrepareTransfer(c.batches, ReadyIds(c, env), cfg, cfg.pumpAddress.value, env.reports.icaBalance);
    var c1 := c.(batches := r.value.0, fsm := Claiming);
    if ValidatorsToClaim(env.reports.validators, env.reports.delegations) == [] {
      AfterClaimingFacts(c1, cfg, env);
    }
  }
}
