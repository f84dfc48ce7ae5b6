/** The handlers of contract `core` as functions from stored state to stored state. An error
    stands for a reverted call. */
module CoreSpec {
  import opened Results
  import opened FixedPoint
  import opened KeyOrder
  import opened ShareLedger
  import opened ProtocolTypes
  import Strategy
  import Distribution

  /** What a handler leaves behind: the new storage and at most one message. */
  datatype Outcome = Outcome(core: Core, msg: Option<PuppeteerMsg>)

  // ---------------------------------------------------------------- state machine

  predicate Allowed(from: ContractState, to: ContractState) {
    match from
    case Idle => to.Claiming? || to.Staking? || to.Transfering?
    case Claiming => to.Transfering? || to.Staking? || to.Idle?
    case Transfering => to.Staking? || to.Idle?
    case Staking => to.Unbonding? || to.Idle?
    case Unbonding => to.Idle?
  }

  function GoTo(c: Core, to: ContractState): Result<Core> {
    if Allowed(c.fsm, to) then Ok(c.(fsm := to)) else Err(TransitionNotAllowed)
  }

  function Instantiate(now: nat): Core {
    Core(Idle, 0, map[0 := NewUnbond(now)], None, 0, map[], map[], None, None, 0, None, None, None, 0, 0, 0)
  }

  // ---------------------------------------------------------------- exchange rate

  function ReportedStake(entries: seq<Strategy.DelegationEntry>): nat {
    if entries == [] then 0 else entries[0].amount + ReportedStake(entries[1..])
  }

  /** The ld tokens of batches whose undelegation the reports do not show yet. */
  function UnprocessedUnbonds(c: Core): Result<nat> {
    if c.batchId !in c.batches then Err(NotFound)
    else
      var current := if c.batches[c.batchId].status.New? then c.batches[c.batchId].totalAmount else 0;
      var requested :-
        if c.batchId == 0 then Ok(0)
        else if c.batchId - 1 !in c.batches then Err(NotFound)
        else if c.batches[c.batchId - 1].status.UnbondRequested? then Ok(c.batches[c.batchId - 1].totalAmount)
        else Ok(0);
      var failed :-
        if c.failedBatchId.None? then Ok(0)
        else if c.failedBatchId.value !in c.batches then Err(NotFound)
        else Ok(c.batches[c.failedBatchId.value].totalAmount);
      Ok(current + requested + failed)
  }

  /** The rate priced from the books, used while Idle. */
  function ComputedRate(c: Core, env: Env, currentStake: nat): Result<nat> {
    if env.bank.ldSupply == 0 then Ok(ONE)
    else
      var unprocessed :- UnprocessedUnbonds(c);
      var gross := ReportedStake(env.reports.delegations) + env.bank.coreBalance + c.totalLsmShares;
      if gross < currentStake + unprocessed then Err(Overflow)
      else Ok(Ratio(gross - currentStake - unprocessed, env.bank.ldSupply))
  }

  function ExchangeRate(c: Core, cfg: Config, env: Env, currentStake: nat): Result<nat> {
    if !c.fsm.Idle? then Ok(if c.exchangeRate.Some? then c.exchangeRate.value else ONE)
    else if cfg.ldDenom.None? then Err(LdDenomIsNotSet)
    else ComputedRate(c, env, currentStake)
  }

  // ---------------------------------------------------------------- bond, unbond

  function OneCoin(funds: seq<Coin>): Result<Coin> {
    if |funds| == 1 && funds[0].amount > 0 then Ok(funds[0]) else Err(InvalidFunds)
  }

  /** `amount * (Decimal::one() / exchange_rate)`. */
  function IssueAmount(amount: nat, rate: nat): Result<nat> {
    if rate == 0 then Err(DivideByZero) else Ok(MulFloor(amount, Ratio(ONE, rate)))
  }

  /** `check_denom`: nothing to do for the base denom; otherwise the remote denom that the
      trace and validator queries answer, if any. The chain's own denom has no trace. */
  function BondShares(c: Core, cfg: Config, coin: Coin, trace: Option<string>): Result<Core> {
    if coin.denom == cfg.baseDenom then Ok(c)
    else if trace.None? || coin.denom == LOCAL_DENOM then Err(InvalidDenom)
    else if coin.amount < cfg.lsmMinBondAmount then Err(LsmBondAmountIsBelowMinimum)
    else Ok(c.(totalLsmShares := c.totalLsmShares + coin.amount,
               pendingLsmShares := Credit(c.pendingLsmShares, coin.denom, trace.value, coin.amount)))
  }

  /** The new storage and the ld tokens to mint. */
  function Bond(c: Core, cfg: Config, env: Env, trace: Option<string>): Result<(Core, nat)> {
    var coin :- OneCoin(env.funds);
    if cfg.bondLimit.Some? && c.bondedAmount + coin.amount > cfg.bondLimit.value then Err(BondLimitExceeded)
    else
      var c1 :- BondShares(c.(bondedAmount := c.bondedAmount + coin.amount), cfg, coin, trace);
      var rate :- ExchangeRate(c1, cfg, env, coin.amount);
      var issue :- IssueAmount(coin.amount, rate);
      Ok((c1, issue))
  }

  function MustPay(cfg: Config, funds: seq<Coin>): Result<nat> {
    if cfg.ldDenom.None? then Err(LdDenomIsNotSet)
    else
      var coin :- OneCoin(funds);
      if coin.denom != cfg.ldDenom.value then Err(InvalidFunds) else Ok(coin.amount)
  }

  /** The new storage and the item for which a voucher is minted. */
  function Unbond(c: Core, cfg: Config, env: Env, sender: string): Result<(Core, UnbondItem)> {
    var amount :- MustPay(cfg, env.funds);
    if c.batchId !in c.batches then Err(NotFound)
    else
      var rate :- ExchangeRate(c, cfg, env, 0);
      var item := UnbondItem(sender, amount, MulFloor(amount, rate));
      Ok((c.(batches := c.batches[c.batchId := AddItem(c.batches[c.batchId], item)]), item))
  }

  function AddItem(b: UnbondBatch, item: UnbondItem): UnbondBatch {
    b.(unbondItems := b.unbondItems + [item],
       totalAmount := b.totalAmount + item.amount,
       expectedAmount := b.expectedAmount + item.expectedAmount)
  }

  // ---------------------------------------------------------------- puppeteer hook

  function LsmShareSent(c: Core, denom: string, amount: nat): Result<Core> {
    if denom !in c.pendingLsmShares then Ok(c)
    else if c.pendingLsmShares[denom].amount < amount then Err(Overflow)
    else
      var remote := c.pendingLsmShares[denom].remoteDenom;
      Ok(c.(lsmSharesToRedeem := Credit(c.lsmSharesToRedeem, denom, remote, amount),
            pendingLsmShares := Debit(c.pendingLsmShares, denom, amount)))
  }

  function SharesRedeemed(c: Core, items: seq<RedeemItem>, now: nat): Result<Core> {
    if c.totalLsmShares < SumItems(items) then Err(Overflow)
    else Ok(c.(lsmSharesToRedeem := RemoveItems(c.lsmSharesToRedeem, items),
               totalLsmShares := c.totalLsmShares - SumItems(items),
               lastLsmRedeem := now))
  }

  function HookSuccess(c: Core, env: Env, tx: Transaction): Result<Core> {
    var c1 := c.(lastIcaBalanceChangeHeight := env.height);
    match tx
    case IbcTransfer(denom, amount, reason) => if reason.LsmShare? then LsmShareSent(c1, denom, amount) else Ok(c1)
    case RedeemShares(items) => SharesRedeemed(c1, items, env.now)
    case _ => Ok(c1)
  }

  /** The failed transactions that send core back to Idle. */
  predicate ReturnsToIdle(tx: Transaction) {
    tx.Transfer? || tx.RedeemShares? || tx.ClaimRewards? || (tx.IbcTransfer? && tx.reason.LsmShare?)
  }

  function PuppeteerHook(c: Core, env: Env, hook: Hook): Result<Core> {
    var c1 :- match hook
              case Success(tx) => HookSuccess(c, env, tx)
              case Failure(tx) => if ReturnsToIdle(tx) then GoTo(c, Idle) else Ok(c);
    Ok(c1.(lastResponse := Some(hook)))
  }

  // ---------------------------------------------------------------- messages

  function PendingRedeemMsg(c: Core, cfg: Config, env: Env): Option<PuppeteerMsg> {
    var count := |c.lsmSharesToRedeem|;
    if count == 0 || count < cfg.lsmRedeemThreshold || c.lastLsmRedeem + cfg.lsmRedeemMaximumInterval > env.now
    then None
    else Some(Submit(RedeemShares(RedeemItems(c.lsmSharesToRedeem))))
  }

  function PendingLsmShareMsg(c: Core, env: Env): Option<PuppeteerMsg> {
    if c.pendingLsmShares == map[] then None
    else
      var denom := Least(c.pendingLsmShares.Keys);
      Some(SendFunds(LsmShare, [Coin(denom, c.pendingLsmShares[denom].amount)] + env.funds))
  }

  function RewardPayments(c: Core, cfg: Config, env: Env): seq<(string, Coin)> {
    env.reports.rewardPayments
    + if c.collectedFees.Some? then [(c.collectedFees.value.0, Coin(cfg.remoteDenom, c.collectedFees.value.1))] else []
  }

  function Fee(cfg: Config, balance: nat): nat {
    MulFloor(balance, if cfg.fee.Some? then cfg.fee.value else 0)
  }

  function CollectFee(c: Core, cfg: Config, fee: nat): Core {
    if fee > 0 && cfg.feeAddress.Some?
    then c.(collectedFees := Some(if c.collectedFees.Some?
                                  then (c.collectedFees.value.0, c.collectedFees.value.1 + fee)
                                  else (cfg.feeAddress.value, fee)))
    else c
  }

  function PlanItems(plan: seq<Distribution.IdealDelegation>): seq<(string, nat)> {
    if plan == [] then [] else [(plan[0].valoper, plan[0].stakeChange)] + PlanItems(plan[1..])
  }

  function StakeMsg(c: Core, cfg: Config, env: Env): Result<Outcome> {
    var balance := env.reports.icaBalance;
    if balance < cfg.minStakeAmount then Ok(Outcome(c, None))
    else if c.lastIcaBalanceChangeHeight > env.reports.height then Err(PuppeteerBalanceOutdated)
    else
      var fee := Fee(cfg, balance);
      if balance < fee then Err(Overflow)
      else
        var plan :- Strategy.CalcDeposit(env.reports.validators, env.reports.delegations, cfg.remoteDenom,
                                         balance - fee);
        Ok(Outcome(CollectFee(c, cfg, fee), Some(Submit(Delegate(PlanItems(plan))))))
  }

  /** The batch to undelegate: the failed one first. */
  function BatchToUnbond(c: Core): nat {
    if c.failedBatchId.Some? then c.failedBatchId.value else c.batchId
  }

  predicate ReadyToUnbond(b: UnbondBatch, cfg: Config, now: nat) {
    b.created + cfg.unbondBatchSwitchTime > now && b.unbondItems != [] && b.totalAmount != 0
  }

  /** Marks the batch requested and stores a fresh batch behind it, whatever was there. */
  function RequestUnbond(c: Core, id: nat, env: Env): Core
    requires id in c.batches
  {
    c.(preUnbondingBalance := Some(env.reports.icaBalance),
       batchId := id + 1,
       batches := c.batches[id := c.batches[id].(status := UnbondRequested)][id + 1 := NewUnbond(env.now)])
  }

  function UnbondingMsg(c: Core, cfg: Config, env: Env): Result<Outcome> {
    var id := BatchToUnbond(c);
    if id !in c.batches then Err(NotFound)
    else if !ReadyToUnbond(c.batches[id], cfg, env.now) then Ok(Outcome(c, None))
    else
      var plan :- Strategy.CalcWithdraw(env.reports.validators, env.reports.delegations, cfg.remoteDenom,
                                        c.batches[id].totalAmount);
      Ok(Outcome(RequestUnbond(c, id, env), Some(Submit(Undelegate(PlanItems(plan), id)))))
  }

  // ---------------------------------------------------------------- ticks

  function UnbondOrIdle(c: Core, cfg: Config, env: Env): Result<Outcome> {
    var o :- UnbondingMsg(c, cfg, env);
    var c1 :- GoTo(o.core, if o.msg.Some? then Unbonding else Idle);
    Ok(Outcome(c1, o.msg))
  }

  function StakeOrUnbond(c: Core, cfg: Config, env: Env): Result<Outcome> {
    var o :- StakeMsg(c, cfg, env);
    if o.msg.Some? then
      var c1 :- GoTo(o.core, Staking);
      Ok(Outcome(c1, o.msg))
    else UnbondOrIdle(c, cfg, env)
  }

  function AfterClaiming(c: Core, cfg: Config, env: Env): Result<Outcome> {
    var balance := env.bank.coreBalance;
    if balance != 0 then
      var c1 :- GoTo(c, Transfering);
      Ok(Outcome(c1.(pendingTransfer := Some(balance)),
                 Some(SendFunds(Stake, [Coin(cfg.baseDenom, balance)] + env.funds))))
    else StakeOrUnbond(c, cfg, env)
  }

  function MarkWithdrawn(batches: map<nat, UnbondBatch>, ids: seq<nat>, emergency: bool)
    : Result<map<nat, UnbondBatch>>
  {
    if ids == [] then Ok(batches)
    else if ids[0] !in batches then Err(NotFound)
    else
      var status := if emergency then WithdrawnEmergency else Withdrawn;
      MarkWithdrawn(batches[ids[0] := batches[ids[0]].(status := status)], ids[1..], emergency)
  }

  function FinishClaim(c: Core, response: Hook): Result<Core> {
    match response
    case Failure(_) => Ok(c)
    case Success(ClaimRewards(_, None)) => Ok(c)
    case Success(ClaimRewards(_, Some(t))) =>
      var batches :- MarkWithdrawn(c.batches, t.batchIds, t.emergency);
      Ok(c.(batches := batches))
    case Success(_) => Err(InvalidTransaction)
  }

  function TickClaiming(c: Core, cfg: Config, env: Env): Result<Outcome> {
    if c.lastResponse.None? then Err(PuppeteerResponseIsNotReceived)
    else
      var c1 :- FinishClaim(c.(lastResponse := None), c.lastResponse.value);
      AfterClaiming(c1, cfg, env)
  }

  function TickTransfering(c: Core, cfg: Config, env: Env): Result<Outcome> {
    if c.lastResponse.None? then Err(PuppeteerResponseIsNotReceived)
    else StakeOrUnbond(c.(lastResponse := None), cfg, env)
  }

  function TickStaking(c: Core, cfg: Config, env: Env): Result<Outcome> {
    if c.lastResponse.None? then Err(PuppeteerResponseIsNotReceived)
    else if c.lastResponse.value.Failure? then Err(PreviousStakingWasFailed)
    else UnbondOrIdle(c.(lastResponse := None), cfg, env)
  }

  function FinishUnbond(c: Core, cfg: Config, env: Env, response: Hook): Result<Core> {
    if !response.tx.Undelegate? then Err(InvalidTransaction)
    else if response.tx.batchId !in c.batches then Err(NotFound)
    else
      var id := response.tx.batchId;
      match response
      case Success(_) =>
        var b := c.batches[id].(status := UnbondingStarted, expectedRelease := env.now + cfg.unbondingPeriod);
        Ok(c.(lastResponse := None, batches := c.batches[id := b], failedBatchId := None))
      case Failure(_) =>
        Ok(c.(batches := c.batches[id := c.batches[id].(status := UnbondFailed)], failedBatchId := Some(id)))
  }

  function TickUnbonding(c: Core, cfg: Config, env: Env): Result<Outcome> {
    if c.lastResponse.None? then Err(PuppeteerResponseIsNotReceived)
    else
      var c1 :- FinishUnbond(c, cfg, env, c.lastResponse.value);
      var c2 :- GoTo(c1, Idle);
      Ok(Outcome(c2, None))
  }

  /** The short idle tick: rewards and fees, else a redeem, else an LSM share transfer. */
  function IdleMessage(c: Core, cfg: Config, env: Env): Result<PuppeteerMsg> {
    var payments := RewardPayments(c, cfg, env);
    var redeem := PendingRedeemMsg(c, cfg, env);
    var share := PendingLsmShareMsg(c, env);
    if payments != [] then Ok(Submit(Transfer(payments)))
    else if redeem.Some? then Ok(redeem.value)
    else if share.Some? then Ok(share.value)
    else Err(IdleMinIntervalIsNotReached)
  }

  /** The batches in `Unbonding` status with an id below n, in id order. */
  function UnbondingIds(batches: map<nat, UnbondBatch>, n: nat): seq<nat> {
    if n == 0 then []
    else UnbondingIds(batches, n - 1)
         + if n - 1 in batches && batches[n - 1].status.UnbondingStarted? then [n - 1] else []
  }

  function TimeIsClose(b: UnbondBatch, now: nat, safePeriod: nat): Result<bool> {
    if now >= b.expectedRelease then Ok(false)
    else if b.expectedRelease < safePeriod then Err(Overflow)
    else Ok(now > b.expectedRelease - safePeriod)
  }

  function UnbondingTimeIsNear(batches: map<nat, UnbondBatch>, ids: seq<nat>, now: nat, safePeriod: nat): Result<bool>
    requires forall i | i in ids :: i in batches
  {
    if ids == [] then Ok(false)
    else
      var close :- TimeIsClose(batches[ids[0]], now, safePeriod);
      if close then Ok(true) else UnbondingTimeIsNear(batches, ids[1..], now, safePeriod)
  }

  predicate Due(b: UnbondBatch, env: Env) {
    b.expectedRelease <= env.now && b.expectedRelease < env.reports.time
  }

  function DueIds(batches: map<nat, UnbondBatch>, ids: seq<nat>, env: Env): seq<nat>
    requires forall i | i in ids :: i in batches
  {
    if ids == [] then []
    else (if Due(batches[ids[0]], env) then [ids[0]] else []) + DueIds(batches, ids[1..], env)
  }

  function ExpectedTotal(batches: map<nat, UnbondBatch>, ids: seq<nat>): nat
    requires forall i | i in ids :: i in batches
  {
    if ids == [] then 0 else batches[ids[0]].expectedAmount + ExpectedTotal(batches, ids[1..])
  }

  /** One due batch bears the whole shortfall as slashing. */
  function SlashSingle(b: UnbondBatch, icaBalance: nat): UnbondBatch {
    if icaBalance < b.expectedAmount
    then b.(unbondedAmount := Some(icaBalance), slashingEffect := Some(Ratio(icaBalance, b.expectedAmount)),
            status := Withdrawing)
    else b.(unbondedAmount := Some(b.expectedAmount), slashingEffect := Some(ONE), status := Withdrawing)
  }

  function ReleaseOne(b: UnbondBatch, emergency: bool): UnbondBatch {
    if emergency then b.(unbondedAmount := None, slashingEffect := None, status := WithdrawingEmergency)
    else b.(unbondedAmount := Some(b.expectedAmount), slashingEffect := Some(ONE), status := Withdrawing)
  }

  function ReleaseAll(batches: map<nat, UnbondBatch>, ids: seq<nat>, emergency: bool): map<nat, UnbondBatch>
    requires forall i | i in ids :: i in batches
  {
    if ids == [] then batches
    else ReleaseAll(batches[ids[0] := ReleaseOne(batches[ids[0]], emergency)], ids[1..], emergency)
  }

  function PrepareTransfer(batches: map<nat, UnbondBatch>, ids: seq<nat>, cfg: Config, pump: string, icaBalance: nat)
    : Result<(map<nat, UnbondBatch>, Option<ReadyBatches>)>
    requires forall i | i in ids :: i in batches
  {
    if |ids| == 0 then Ok((batches, None))
    else if |ids| == 1 then
      var b := SlashSingle(batches[ids[0]], icaBalance);
      Ok((batches[ids[0] := b], Some(ReadyBatches(ids, false, b.unbondedAmount.value, pump))))
    else
      var total := ExpectedTotal(batches, ids);
      var emergency := icaBalance < total;
      if emergency && cfg.emergencyAddress.None? then Err(EmergencyAddressIsNotSet)
      else
        var recipient := if emergency then cfg.emergencyAddress.value else pump;
        var amount := if emergency then icaBalance else total;
        Ok((ReleaseAll(batches, ids, emergency), Some(ReadyBatches(ids, emergency, amount, recipient))))
  }

  function ValidatorsToClaim(validators: seq<Strategy.Validator>, entries: seq<Strategy.DelegationEntry>): seq<string> {
    if entries == [] then []
    else (if IsListed(validators, entries[0].validator) then [entries[0].validator] else [])
         + ValidatorsToClaim(validators, entries[1..])
  }

  predicate IsListed(validators: seq<Strategy.Validator>, valoper: string) {
    exists i | 0 <= i < |validators| :: validators[i].valoper == valoper
  }

  lemma {:induction false} UnbondingIdsExist(batches: map<nat, UnbondBatch>, n: nat)
    ensures forall i | i in UnbondingIds(batches, n) ::
              i < n && i in batches && batches[i].status.UnbondingStarted?
  {
    if n > 0 { UnbondingIdsExist(batches, n - 1); }
  }

  lemma {:induction false} DueIdsExist(batches: map<nat, UnbondBatch>, ids: seq<nat>, env: Env)
    requires forall i | i in ids :: i in batches
    ensures forall i | i in DueIds(batches, ids, env) :: i in ids && Due(batches[i], env)
  {
    if ids != [] { DueIdsExist(batches, ids[1..], env); }
  }

  /** The batches an idle tick releases: in `Unbonding` status and past their release time. */
  function ReadyIds(c: Core, env: Env): (ids: seq<nat>)
    ensures forall i | i in ids :: i in c.batches
  {
    UnbondingIdsExist(c.batches, c.batchId + 1);
    DueIdsExist(c.batches, UnbondingIds(c.batches, c.batchId + 1), env);
    DueIds(c.batches, UnbondingIds(c.batches, c.batchId + 1), env)
  }

  function TimeCheck(c: Core, cfg: Config, env: Env): Result<bool> {
    UnbondingIdsExist(c.batches, c.batchId + 1);
    UnbondingTimeIsNear(c.batches, UnbondingIds(c.batches, c.batchId + 1), env.now, cfg.unbondingSafePeriod)
  }

  /** The long idle tick: releases batches, then claims, or goes on when nothing is claimable. */
  function IdleExcursion(c: Core, cfg: Config, env: Env): Result<Outcome> {
    var close :- TimeCheck(c, cfg, env);
    if close then Err(UnbondingTimeIsClose)
    else if cfg.pumpAddress.None? then Err(PumpAddressIsNotSet)
    else
      var (batches, transfer) :-
        PrepareTransfer(c.batches, ReadyIds(c, env), cfg, cfg.pumpAddress.value, env.reports.icaBalance);
      var validators := ValidatorsToClaim(env.reports.validators, env.reports.delegations);
      var c1 :- GoTo(c.(batches := batches), Claiming);
      var o :- if validators == [] then AfterClaiming(c1, cfg, env)
               else Ok(Outcome(c1, Some(Submit(ClaimRewards(validators, transfer)))));
      Ok(Outcome(o.core.(lastIdleCall := env.now), o.msg))
  }

  function TickIdle(c: Core, cfg: Config, env: Env): Result<Outcome> {
    var rate :- ExchangeRate(c, cfg, env, 0);
    var c1 := c.(exchangeRate := Some(rate));
    if env.now < c.lastIdleCall then Err(Overflow)
    else if env.now - c.lastIdleCall < cfg.idleMinInterval then
      var msg :- IdleMessage(c1, cfg, env);
      Ok(Outcome(c1, Some(msg)))
    else IdleExcursion(c1, cfg, env)
  }

  function Tick(c: Core, cfg: Config, env: Env): Result<Outcome> {
    match c.fsm
    case Idle => TickIdle(c, cfg, env)
    case Claiming => TickClaiming(c, cfg, env)
    case Transfering => TickTransfering(c, cfg, env)
    case Unbonding => TickUnbonding(c, cfg, env)
    case Staking => TickStaking(c, cfg, env)
  }
}
