/** What a successful tick does, state by state: which transaction it submits, exactly when, and
    what it changes. Conditions are on the stored items and the reports themselves. */
module TickTheorems {
  import opened Results
  import opened FixedPoint
  import opened ProtocolTypes
  import opened ProtocolSpec
  import opened ProtocolTheorems
  import opened BatchUpdates
  import opened BatchInvariant
  import opened TickFacts
  import CoreSpec
  import PuppeteerSpec
  import StakingPlan
  import Strategy
  import ShareLedger
  import KeyOrder
  import ClaimSolvency
  import MachineInvariant
  import D = Distribution

  ghost predicate Submits(w: World, w': World, tx: Transaction) { w'.submitted == w.submitted + [tx] }

  ghost predicate SubmitsNothing(w: World, w': World) { w'.submitted == w.submitted }

  // ---------------------------------------------------------------- release of batches

  /** A long idle tick: enough time since the last one. */
  predicate IsLong(c: Core, cfg: Config, now: nat) { c.fsm.Idle? && c.lastIdleCall + cfg.idleMinInterval <= now }

  /** The tick finds the batch released and the reported balance newer than its release. */
  predicate CanRelease(c: Core, cfg: Config, env: Env, b: UnbondBatch) {
    IsLong(c, cfg, env.now) && b.expectedRelease <= env.now && b.expectedRelease < env.reports.time
  }

  /** A successful tick releases an unbonding batch exactly when it is a long idle tick, the
      release time has come, and the balance was reported after it; otherwise the batch stays as
      it is, whatever else the tick does. */
  lemma ReleasedIff(w: World, cfg: Config, env: Env, submitSucceeds: bool, b: nat)
    requires Inv(w) && TickStep(w, cfg, env, submitSucceeds).Ok?
    requires b in w.core.batches && w.core.batches[b].status.UnbondingStarted?
    ensures var w' := TickStep(w, cfg, env, submitSucceeds).value;
            && b in w'.core.batches
            && (if CanRelease(w.core, cfg, env, w.core.batches[b])
                then w'.core.batches[b].status.Withdrawing? || w'.core.batches[b].status.WithdrawingEmergency?
                else w'.core.batches[b] == w.core.batches[b])
  {
    TickSubmits(w, cfg, env, submitSucceeds);
    var c, e := w.core, env.(bank := w.bank);
    if IsLong(c, cfg, env.now) { LongTickReleases(c, cfg, e); }
    else { OtherTickKeepsUnbonding(w, cfg, env, b); }
  }

  /** The batches after a long idle tick. */
  lemma LongTickReleases(c: Core, cfg: Config, env: Env)
    requires IsLong(c, cfg, env.now) && CoreSpec.Tick(c, cfg, env).Ok? && Contiguous(c)
    ensures var d := CoreSpec.Tick(c, cfg, env).value.core;
            && d.batches.Keys == c.batches.Keys
            && forall b | b in c.batches ::
                 if c.batches[b].status.UnbondingStarted? && CanRelease(c, cfg, env, c.batches[b])
                 then d.batches[b].status.Withdrawing? || d.batches[b].status.WithdrawingEmergency?
                 else d.batches[b] == c.batches[b]
  {
    var c1 := c.(exchangeRate := Some(CoreSpec.ExchangeRate(c, cfg, env, 0).value));
    IdleExcursionFacts(c1, cfg, env);
    ReadyIdsExact(c1, env);
    PrepareTransferAt(c1.batches, CoreSpec.ReadyIds(c1, env), cfg, cfg.pumpAddress.value, env.reports.icaBalance);
  }

  lemma OtherTickKeepsUnbonding(w: World, cfg: Config, env: Env, b: nat)
    requires Inv(w) && CoreSpec.Tick(w.core, cfg, env.(bank := w.bank)).Ok? && !IsLong(w.core, cfg, env.now)
    requires b in w.core.batches && w.core.batches[b].status.UnbondingStarted?
    ensures var d := CoreSpec.Tick(w.core, cfg, env.(bank := w.bank)).value.core;
            b in d.batches && d.batches[b] == w.core.batches[b]
  {
    var c, e := w.core, env.(bank := w.bank);
    match c.fsm
    case Idle => ShortTick(c, cfg, e);
    case Claiming =>
      NotOnStoredClaim(c, b);
      FinishedClaim(c);
      AfterClaimingFacts(CoreSpec.FinishClaim(c.(lastResponse := None), c.lastResponse.value).value, cfg, e);
    case Transfering => StakeOrUnbondFacts(c.(lastResponse := None), cfg, e);
    case Staking =>
      NotToRequest(c, b);
      StakingTick(c, cfg, e);
    case Unbonding =>
      NotRequested(c, w.puppeteer.tx.transaction, b);
      UnbondingTick(c, cfg, e);
  }

  lemma NotOnStoredClaim(c: Core, b: nat)
    requires Waiting(c, StoredClaim(c)) && b in c.batches && c.batches[b].status.UnbondingStarted?
    ensures !Listed(StoredClaim(c), b)
  {
  }

  lemma NotToRequest(c: Core, b: nat)
    requires Shape(c) && c.fsm.Staking? && b in c.batches && c.batches[b].status.UnbondingStarted?
    ensures b != CoreSpec.BatchToUnbond(c) && b != CoreSpec.BatchToUnbond(c) + 1
  {
    assert Fits(c.batches[b], b, c.batchId, false, c.failedBatchId);
  }

  lemma NotRequested(c: Core, inFlight: Option<Transaction>, b: nat)
    requires Shape(c) && c.fsm.Unbonding? && MachineInvariant.UnbondsLastBatch(c, inFlight)
    requires b in c.batches && c.batches[b].status.UnbondingStarted?
    ensures c.lastResponse.Some? ==> c.lastResponse.value.tx.Undelegate? && c.lastResponse.value.tx.batchId != b
  {
    assert Fits(c.batches[b], b, c.batchId, true, c.failedBatchId);
  }

  /** A long idle tick succeeds only when no unbonding batch is about to be released: none is
      within the safe period before its release. */
  lemma NoReleaseIsClose(w: World, cfg: Config, env: Env, submitSucceeds: bool, b: nat)
    requires Inv(w) && IsLong(w.core, cfg, env.now) && TickStep(w, cfg, env, submitSucceeds).Ok?
    requires b in w.core.batches && w.core.batches[b].status.UnbondingStarted?
    ensures var release := w.core.batches[b].expectedRelease;
            !(env.now < release < env.now + cfg.unbondingSafePeriod)
  {
    TickSubmits(w, cfg, env, submitSucceeds);
    assert Contiguous(w.core);
    LongTickChecksTime(w.core, cfg, env.(bank := w.bank), b);
  }

  lemma LongTickChecksTime(c: Core, cfg: Config, env: Env, b: nat)
    requires IsLong(c, cfg, env.now) && CoreSpec.Tick(c, cfg, env).Ok?
    requires b in c.batches && b <= c.batchId && c.batches[b].status.UnbondingStarted?
    ensures !(env.now < c.batches[b].expectedRelease < env.now + cfg.unbondingSafePeriod)
  {
    LongTickIsNotClose(c, cfg, env);
    CheckedTimeIsNotClose(c, cfg, env, b);
  }

  lemma LongTickIsNotClose(c: Core, cfg: Config, env: Env)
    requires IsLong(c, cfg, env.now) && CoreSpec.Tick(c, cfg, env).Ok?
    ensures CoreSpec.TimeCheck(c, cfg, env) == Ok(false)
  {
    var c1 := c.(exchangeRate := Some(CoreSpec.ExchangeRate(c, cfg, env, 0).value));
    assert CoreSpec.TimeCheck(c1, cfg, env) == Ok(false);
  }

  lemma CheckedTimeIsNotClose(c: Core, cfg: Config, env: Env, b: nat)
    requires CoreSpec.TimeCheck(c, cfg, env) == Ok(false)
    requires b in c.batches && b <= c.batchId && c.batches[b].status.UnbondingStarted?
    ensures !(env.now < c.batches[b].expectedRelease < env.now + cfg.unbondingSafePeriod)
  {
    UnbondingIdsExact(c.batches, c.batchId + 1);
    CoreSpec.UnbondingIdsExist(c.batches, c.batchId + 1);
    NotClose(c.batches, CoreSpec.UnbondingIds(c.batches, c.batchId + 1), env.now, cfg.unbondingSafePeriod, b);
  }

  lemma {:induction false} NotClose(batches: BatchMap, ids: seq<nat>, now: nat, safePeriod: nat, b: nat)
    requires forall i | i in ids :: i in batches
    requires CoreSpec.UnbondingTimeIsNear(batches, ids, now, safePeriod) == Ok(false) && b in ids
    ensures !(now < batches[b].expectedRelease < now + safePeriod)
  {
    if b != ids[0] { NotClose(batches, ids[1..], now, safePeriod, b); }
  }

  // ---------------------------------------------------------------- long idle ticks

  /** A validator of the set with a reported delegation. */
  predicate Claimable(env: Env, valoper: string) {
    && (exists i :: 0 <= i < |env.reports.delegations| && env.reports.delegations[i].validator == valoper)
    && (exists i :: 0 <= i < |env.reports.validators| && env.reports.validators[i].valoper == valoper)
  }

  lemma {:induction false} ClaimablesAreListed(vs: seq<Strategy.Validator>, es: seq<Strategy.DelegationEntry>,
                                               v: string)
    ensures v in CoreSpec.ValidatorsToClaim(vs, es) <==>
              && (exists i :: 0 <= i < |es| && es[i].validator == v)
              && (exists i :: 0 <= i < |vs| && vs[i].valoper == v)
  {
    if es != [] {
      ClaimablesAreListed(vs, es[1..], v);
      assert es[0].validator == v ==> exists i :: 0 <= i < |es| && es[i].validator == v;
      if i :| 0 <= i < |es[1..]| && es[1..][i].validator == v { assert es[i + 1].validator == v; }
      if i :| 0 <= i < |es| && es[i].validator == v && i > 0 { assert es[1..][i - 1].validator == v; }
    }
  }

  /** A successful long idle tick claims exactly from the validators of the set with a reported
      delegation; without any it goes on as after a claim. Its time is recorded. */
  lemma LongTickClaims(w: World, cfg: Config, env: Env, submitSucceeds: bool)
    requires Inv(w) && IsLong(w.core, cfg, env.now) && TickStep(w, cfg, env, submitSucceeds).Ok?
    ensures var w' := TickStep(w, cfg, env, submitSucceeds).value;
            && w'.core.lastIdleCall == env.now && cfg.pumpAddress.Some?
            && if exists v :: Claimable(env, v)
               then && w'.core.fsm.Claiming? && |w'.submitted| == |w.submitted| + 1
                    && w'.submitted[|w.submitted|].ClaimRewards?
                    && forall v :: v in w'.submitted[|w.submitted|].validators <==> Claimable(env, v)
               else GoesOn(w, w', cfg, env)
  {
    var c, e := w.core, env.(bank := w.bank);
    var c1 := c.(exchangeRate := Some(CoreSpec.ExchangeRate(c, cfg, e, 0).value));
    IdleExcursionFacts(c1, cfg, e);
    TickSubmits(w, cfg, env, submitSucceeds);
    var vs := CoreSpec.ValidatorsToClaim(env.reports.validators, env.reports.delegations);
    forall v ensures v in vs <==> Claimable(env, v) {
      ClaimablesAreListed(env.reports.validators, env.reports.delegations, v);
    }
    if vs != [] { assert vs[0] in vs; }
    else {
      var batches := CoreSpec.PrepareTransfer(c1.batches, CoreSpec.ReadyIds(c1, e), cfg, cfg.pumpAddress.value,
                                              env.reports.icaBalance).value.0;
      AfterClaimGoesOn(w, c1.(batches := batches, fsm := Claiming), cfg, env, submitSucceeds);
    }
  }

  /** A claim carries a transfer exactly when batches are released with it, for exactly those. */
  lemma ClaimCarriesReleased(w: World, cfg: Config, env: Env, submitSucceeds: bool)
    requires Inv(w) && IsLong(w.core, cfg, env.now) && TickStep(w, cfg, env, submitSucceeds).Ok?
    requires exists v :: Claimable(env, v)
    ensures var w' := TickStep(w, cfg, env, submitSucceeds).value;
            && |w'.submitted| == |w.submitted| + 1 && w'.submitted[|w.submitted|].ClaimRewards?
            && forall b :: Listed(w'.submitted[|w.submitted|].transfer, b) <==>
                 && b in w.core.batches && w.core.batches[b].status.UnbondingStarted?
                 && CanRelease(w.core, cfg, env, w.core.batches[b])
  {
    LongTickClaims(w, cfg, env, submitSucceeds);
    TickSubmits(w, cfg, env, submitSucceeds);
    assert Contiguous(w.core) && MachineInvariant.Machine(w);
    ClaimTickCarries(w.core, cfg, env.(bank := w.bank));
  }

  lemma ClaimTickCarries(c: Core, cfg: Config, env: Env)
    requires IsLong(c, cfg, env.now) && CoreSpec.Tick(c, cfg, env).Ok? && Contiguous(c)
    requires var msg := CoreSpec.Tick(c, cfg, env).value.msg;
             msg.Some? && msg.value.Submit? && msg.value.tx.ClaimRewards?
    ensures forall b :: Listed(CoreSpec.Tick(c, cfg, env).value.msg.value.tx.transfer, b) <==>
              b in c.batches && c.batches[b].status.UnbondingStarted? && CanRelease(c, cfg, env, c.batches[b])
  {
    ClaimSolvency.ClaimsComeFromIdle(c, cfg, env);
    ReadyIdsExact(c, env);
    PrepareTransferAt(c.batches, CoreSpec.ReadyIds(c, env), cfg, cfg.pumpAddress.value, env.reports.icaBalance);
  }

  /** After a claim: all coins of core are sent first; else a sufficient balance is staked, when
      it was reported after the last success; else core rests. */
  ghost predicate GoesOn(w: World, w': World, cfg: Config, env: Env) {
    if w.bank.coreBalance > 0 then
      && w'.core.fsm.Transfering? && w'.bank.coreBalance == 0 && w'.core.pendingTransfer == Some(w.bank.coreBalance)
      && (cfg.baseDenom != LOCAL_DENOM ==> Submits(w, w', IbcTransfer(cfg.baseDenom, w.bank.coreBalance, Stake)))
    else Stakes(w, w', cfg, env)
  }

  ghost predicate Stakes(w: World, w': World, cfg: Config, env: Env) {
    if env.reports.icaBalance >= cfg.minStakeAmount then
      && w'.core.fsm.Staking? && w.core.lastIcaBalanceChangeHeight <= env.reports.height
      && |w'.submitted| == |w.submitted| + 1 && w'.submitted[|w.submitted|].Delegate?
    else
      w'.core.fsm.Idle? && SubmitsNothing(w, w')
  }

  lemma StakeOrRest(c: Core, cfg: Config, env: Env)
    requires (c.fsm.Claiming? || c.fsm.Transfering?) && CoreSpec.StakeOrUnbond(c, cfg, env).Ok?
    ensures var o := CoreSpec.StakeOrUnbond(c, cfg, env).value;
            if env.reports.icaBalance >= cfg.minStakeAmount then
              && o.core.fsm.Staking? && c.lastIcaBalanceChangeHeight <= env.reports.height
              && o.msg.Some? && o.msg.value.Submit? && o.msg.value.tx.Delegate?
            else o.core.fsm.Idle? && o.msg.None?
  {
    if env.reports.icaBalance < cfg.minStakeAmount { UnbondOrIdleFacts(c, cfg, env); }
  }

  lemma CoinsAreSentWhole(w: World, o: CoreSpec.Outcome, cfg: Config, env: Env, submitSucceeds: bool)
    requires o.msg == Some(SendFunds(Stake, [Coin(cfg.baseDenom, w.bank.coreBalance)] + env.funds))
    requires Dispatch(w.(core := o.core), o.msg, submitSucceeds).Ok?
    ensures var w' := Dispatch(w.(core := o.core), o.msg, submitSucceeds).value;
            && w'.bank.coreBalance == 0
            && (cfg.baseDenom != LOCAL_DENOM ==> Submits(w, w', IbcTransfer(cfg.baseDenom, w.bank.coreBalance, Stake)))
  {
    var funds := [Coin(cfg.baseDenom, w.bank.coreBalance)] + env.funds;
    assert funds[1..] == env.funds;
    if cfg.baseDenom != LOCAL_DENOM {
      assert PuppeteerSpec.MessageFunds(funds) == [funds[0]] + PuppeteerSpec.MessageFunds(env.funds);
    }
  }

  lemma AfterClaimGoesOn(w: World, c: Core, cfg: Config, env: Env, submitSucceeds: bool)
    requires c.fsm.Claiming? && c.lastIcaBalanceChangeHeight == w.core.lastIcaBalanceChangeHeight
    requires TickStep(w, cfg, env, submitSucceeds).Ok?
    requires var e := env.(bank := w.bank);
             var o, r := CoreSpec.Tick(w.core, cfg, e).value, CoreSpec.AfterClaiming(c, cfg, e);
             && r.Ok? && o.msg == r.value.msg && o.core.fsm == r.value.core.fsm
             && o.core.pendingTransfer == r.value.core.pendingTransfer
    ensures GoesOn(w, TickStep(w, cfg, env, submitSucceeds).value, cfg, env)
  {
    var e := env.(bank := w.bank);
    var o := CoreSpec.Tick(w.core, cfg, e).value;
    TickSubmits(w, cfg, env, submitSucceeds);
    if w.bank.coreBalance > 0 {
      var w1 := w.(overwritten := w.overwritten + Dropped(w.core.batches, o.core.batches));
      CoinsAreSentWhole(w1, o, cfg, env, submitSucceeds);
    } else {
      StakeOrRest(c, cfg, e);
    }
  }

  // ---------------------------------------------------------------- claiming, transfering

  /** A successful claiming tick gives exactly the batches of a stored successful claim their
      final status, reads the response away and goes on. */
  lemma ClaimingTickFinishes(w: World, cfg: Config, env: Env, submitSucceeds: bool)
    requires Inv(w) && w.core.fsm.Claiming? && TickStep(w, cfg, env, submitSucceeds).Ok?
    ensures var w', claim := TickStep(w, cfg, env, submitSucceeds).value, StoredClaim(w.core);
            && w.core.lastResponse.Some? && w'.core.lastResponse.None?
            && w'.core.batches.Keys == w.core.batches.Keys
            && (forall b | b in w.core.batches ::
                  w'.core.batches[b] == if claim.Some? && b in claim.value.batchIds
                                        then w.core.batches[b].(status := if claim.value.emergency
                                                                          then WithdrawnEmergency else Withdrawn)
                                        else w.core.batches[b])
            && GoesOn(w, w', cfg, env)
  {
    var c, e := w.core, env.(bank := w.bank);
    TickSubmits(w, cfg, env, submitSucceeds);
    FinishedClaim(c);
    var c1 := CoreSpec.FinishClaim(c.(lastResponse := None), c.lastResponse.value).value;
    AfterClaimingFacts(c1, cfg, e);
    AfterClaimGoesOn(w, c1, cfg, env, submitSucceeds);
  }

  lemma FinishedClaim(c: Core)
    requires Waiting(c, StoredClaim(c))
    requires c.lastResponse.Some? && CoreSpec.FinishClaim(c.(lastResponse := None), c.lastResponse.value).Ok?
    ensures var d, claim := CoreSpec.FinishClaim(c.(lastResponse := None), c.lastResponse.value).value, StoredClaim(c);
            && d == c.(lastResponse := None, batches := d.batches) && d.batches.Keys == c.batches.Keys
            && (forall b | b in c.batches ::
                  d.batches[b] == if claim.Some? && b in claim.value.batchIds
                                  then c.batches[b].(status := if claim.value.emergency
                                                               then WithdrawnEmergency else Withdrawn)
                                  else c.batches[b])
  {
    match c.lastResponse.value
    case Success(ClaimRewards(_, Some(t))) =>
      assert forall i | i in t.batchIds :: Listed(StoredClaim(c), i);
      MarkWithdrawnAt(c.batches, t.batchIds, t.emergency);
    case _ =>
  }

  /** A successful transfering tick reads its response away, leaves the batches alone and stakes
      or rests. */
  lemma TransferingTickStakes(w: World, cfg: Config, env: Env, submitSucceeds: bool)
    requires w.core.fsm.Transfering? && TickStep(w, cfg, env, submitSucceeds).Ok?
    ensures var w' := TickStep(w, cfg, env, submitSucceeds).value;
            && w.core.lastResponse.Some? && w'.core.lastResponse.None?
            && SameBatches(w.core, w'.core) && Stakes(w, w', cfg, env)
  {
    TickSubmits(w, cfg, env, submitSucceeds);
    StakeOrUnbondFacts(w.core.(lastResponse := None), cfg, env.(bank := w.bank));
    StakeOrRest(w.core.(lastResponse := None), cfg, env.(bank := w.bank));
  }

  // ---------------------------------------------------------------- staking, unbonding

  /** The stake with the validators behind the break of a plan. */
  ghost function StakeBehind(cfg: Config, env: Env, reached: nat): nat {
    var ds := Strategy.Join(env.reports.validators, env.reports.delegations, cfg.remoteDenom);
    if reached <= |ds| then D.TotalStake(ds[reached..]) else 0
  }

  /** What a tick that undelegates a batch leaves: the batch requested and otherwise unchanged, a
      fresh one behind it, the balance noted, and a message for the batch that undelegates its ld
      total up to the stake behind the break of the plan. */
  ghost predicate Undelegates(w: World, w': World, cfg: Config, env: Env, id: nat)
    requires id in w.core.batches
  {
    && w'.core.fsm.Unbonding? && w'.core.batchId == id + 1
    && w'.core.batches == w.core.batches[id := w.core.batches[id].(status := UnbondRequested)]
                                        [id + 1 := UnbondBatch(0, 0, 0, [], New, None, None, env.now)]
    && w'.core.preUnbondingBalance == Some(env.reports.icaBalance)
    && |w'.submitted| == |w.submitted| + 1
    && var tx, total := w'.submitted[|w.submitted|], w.core.batches[id].totalAmount;
       && tx.Undelegate? && tx.batchId == id
       && StakingPlan.SumItems(tx.items) <= total
       && total <= StakingPlan.SumItems(tx.items) + StakeBehind(cfg, env, |tx.items|)
  }

  /** A successful staking tick undelegates, the failed batch first, exactly when that batch is
      young enough, has items and a total; otherwise it rests and changes no batch. */
  lemma StakingTickUndelegatesIff(w: World, cfg: Config, env: Env, submitSucceeds: bool)
    requires w.core.fsm.Staking? && TickStep(w, cfg, env, submitSucceeds).Ok?
    ensures var w' := TickStep(w, cfg, env, submitSucceeds).value;
            var id := if w.core.failedBatchId.Some? then w.core.failedBatchId.value else w.core.batchId;
            && w.core.lastResponse.Some? && w.core.lastResponse.value.Success? && w'.core.lastResponse.None?
            && id in w.core.batches
            && var b := w.core.batches[id];
               if env.now < b.created + cfg.unbondBatchSwitchTime && |b.unbondItems| > 0 && b.totalAmount > 0
               then Undelegates(w, w', cfg, env, id)
               else w'.core.fsm.Idle? && SubmitsNothing(w, w') && SameBatches(w.core, w'.core)
  {
    var e := env.(bank := w.bank);
    TickSubmits(w, cfg, env, submitSucceeds);
    StakingTick(w.core, cfg, e);
    if CoreSpec.Tick(w.core, cfg, e).value.msg.Some? { UndelegateReachesTotal(w.core.(lastResponse := None), cfg, e); }
  }

  lemma StakingTick(c: Core, cfg: Config, env: Env)
    requires c.fsm.Staking? && CoreSpec.Tick(c, cfg, env).Ok?
    ensures var o, id := CoreSpec.Tick(c, cfg, env).value, CoreSpec.BatchToUnbond(c);
            && c.lastResponse.Some? && c.lastResponse.value.Success? && id in c.batches
            && var b, cleared := c.batches[id], c.(lastResponse := None);
               if env.now < b.created + cfg.unbondBatchSwitchTime && |b.unbondItems| > 0 && b.totalAmount > 0
               then && o.core == CoreSpec.RequestUnbond(cleared, id, env).(fsm := Unbonding)
                    && o.msg.Some? && CoreSpec.UnbondingMsg(cleared, cfg, env).Ok?
                    && o.msg == CoreSpec.UnbondingMsg(cleared, cfg, env).value.msg
                    && o.msg.value.Submit? && o.msg.value.tx.Undelegate? && o.msg.value.tx.batchId == id
               else o.core == cleared.(fsm := Idle) && o.msg.None?
  {
    UnbondOrIdleFacts(c.(lastResponse := None), cfg, env);
  }

  lemma UndelegateReachesTotal(c: Core, cfg: Config, env: Env)
    requires CoreSpec.UnbondingMsg(c, cfg, env).Ok? && CoreSpec.UnbondingMsg(c, cfg, env).value.msg.Some?
    ensures var msg := CoreSpec.UnbondingMsg(c, cfg, env).value.msg.value;
            && msg.Submit? && msg.tx.Undelegate? && msg.tx.batchId in c.batches
            && var total, sum := c.batches[msg.tx.batchId].totalAmount, StakingPlan.SumItems(msg.tx.items);
               sum <= total <= sum + StakeBehind(cfg, env, |msg.tx.items|)
  {
    var ds := Strategy.Join(env.reports.validators, env.reports.delegations, cfg.remoteDenom);
    var withdraw := c.batches[CoreSpec.BatchToUnbond(c)].totalAmount;
    D.WithdrawBounded(withdraw, ds);
    StakingPlan.PlanItemsSum(D.CalcWithdraw(withdraw, ds).value);
  }

  /** A successful unbonding tick reads the answer for the batch before the newest: a success
      starts its unbonding and forgets a failure, a failure is recorded. Nothing else changes and
      nothing is sent. */
  lemma UnbondingTickAnswers(w: World, cfg: Config, env: Env, submitSucceeds: bool)
    requires Inv(w) && w.core.fsm.Unbonding? && TickStep(w, cfg, env, submitSucceeds).Ok?
    ensures var w', id := TickStep(w, cfg, env, submitSucceeds).value, w.core.batchId - 1;
            && w'.core.fsm.Idle? && SubmitsNothing(w, w') && id in w.core.batches && w.core.lastResponse.Some?
            && var b := w.core.batches[id];
               if w.core.lastResponse.value.Success?
               then && w'.core.batches == w.core.batches[id := b.(status := UnbondingStarted,
                                                                  expectedRelease := env.now + cfg.unbondingPeriod)]
                    && w'.core.failedBatchId.None? && w'.core.lastResponse.None?
               else && w'.core.batches == w.core.batches[id := b.(status := UnbondFailed)]
                    && w'.core.failedBatchId == Some(id)
  {
    TickSubmits(w, cfg, env, submitSucceeds);
    UnbondingTick(w.core, cfg, env.(bank := w.bank));
    assert w.core.lastResponse.value.tx.batchId + 1 == w.core.batchId;
  }

  lemma UnbondingTick(c: Core, cfg: Config, env: Env)
    requires c.fsm.Unbonding? && CoreSpec.Tick(c, cfg, env).Ok?
    ensures var o := CoreSpec.Tick(c, cfg, env).value;
            && o.core.fsm.Idle? && o.msg.None? && c.lastResponse.Some? && c.lastResponse.value.tx.Undelegate?
            && var id := c.lastResponse.value.tx.batchId;
               && id in c.batches
               && if c.lastResponse.value.Success?
                  then && o.core.batches
                          == c.batches[id := c.batches[id].(status := UnbondingStarted,
                                                            expectedRelease := env.now + cfg.unbondingPeriod)]
                       && o.core.failedBatchId.None? && o.core.lastResponse.None?
                  else && o.core.batches == c.batches[id := c.batches[id].(status := UnbondFailed)]
                       && o.core.failedBatchId == Some(id)
  {
  }

  // ---------------------------------------------------------------- short idle ticks

  /** What a short idle tick pays out before anything else: rewards, then the collected fee. */
  ghost function Payments(w: World, cfg: Config, env: Env): seq<(string, Coin)> {
    match w.core.collectedFees
    case None => env.reports.rewardPayments
    case Some((address, amount)) => env.reports.rewardPayments + [(address, Coin(cfg.remoteDenom, amount))]
  }

  /** A redeem is due: enough denoms, and long enough after the last one. */
  predicate RedeemDue(c: Core, cfg: Config, now: nat) {
    && |c.lsmSharesToRedeem| >= 1 && |c.lsmSharesToRedeem| >= cfg.lsmRedeemThreshold
    && c.lastLsmRedeem + cfg.lsmRedeemMaximumInterval <= now
  }

  /** A short idle tick sends the payments if there are any; else, when due, a redeem of every
      entry of the ledger; else the whole pending amount of the first denom; and when there is
      none of these it is refused. It changes nothing but the cached rate. */
  lemma ShortTickSends(w: World, cfg: Config, env: Env, submitSucceeds: bool)
    requires Inv(w) && w.core.fsm.Idle? && w.core.lastIdleCall <= env.now && !IsLong(w.core, cfg, env.now)
    requires TickStep(w, cfg, env, submitSucceeds).Ok?
    ensures var w' := TickStep(w, cfg, env, submitSucceeds).value;
            && w'.core == w.core.(exchangeRate := w'.core.exchangeRate) && w'.bank == w.bank
            && |w'.submitted| == |w.submitted| + 1
            && var tx := w'.submitted[|w.submitted|];
               if Payments(w, cfg, env) != [] then tx == Transfer(Payments(w, cfg, env))
               else if RedeemDue(w.core, cfg, env.now) then ListsLedger(tx, w.core.lsmSharesToRedeem)
               else SendsFirst(tx, w.core.pendingLsmShares)
  {
    var e := env.(bank := w.bank);
    TickSubmits(w, cfg, env, submitSucceeds);
    ShortTick(w.core, cfg, e);
    var msg := CoreSpec.Tick(w.core, cfg, e).value.msg.value;
    if msg.SendFunds? { FirstShareIsSent(w.core, e, msg); }
    else if msg.tx.RedeemShares? { ShareLedger.RedeemItemsListLedger(w.core.lsmSharesToRedeem); }
  }

  lemma ShortTick(c: Core, cfg: Config, env: Env)
    requires c.fsm.Idle? && c.lastIdleCall <= env.now && !IsLong(c, cfg, env.now) && CoreSpec.Tick(c, cfg, env).Ok?
    ensures var o, payments := CoreSpec.Tick(c, cfg, env).value, CoreSpec.RewardPayments(c, cfg, env);
            && o.core == c.(exchangeRate := o.core.exchangeRate) && o.msg.Some?
            && if payments != [] then o.msg.value == Submit(Transfer(payments))
               else if RedeemDue(c, cfg, env.now)
                 then o.msg.value == Submit(RedeemShares(ShareLedger.RedeemItems(c.lsmSharesToRedeem)))
               else c.pendingLsmShares != map[] && o.msg == CoreSpec.PendingLsmShareMsg(c, env)
  {
  }

  lemma FirstShareIsSent(c: Core, env: Env, msg: PuppeteerMsg)
    requires c.pendingLsmShares != map[] && LOCAL_DENOM !in c.pendingLsmShares
    requires CoreSpec.PendingLsmShareMsg(c, env) == Some(msg) && PuppeteerSpec.TransactionOf(msg).Ok?
    ensures msg.SendFunds? && msg.reason.LsmShare?
    ensures SendsFirst(PuppeteerSpec.TransactionOf(msg).value, c.pendingLsmShares)
  {
    var pending := c.pendingLsmShares;
    var d := KeyOrder.Least(pending.Keys);
    var funds := [Coin(d, pending[d].amount)] + env.funds;
    assert funds[1..] == env.funds;
    assert PuppeteerSpec.MessageFunds(funds) == [funds[0]] + PuppeteerSpec.MessageFunds(env.funds);
  }

  ghost predicate ListsLedger(tx: Transaction, ledger: ShareLedger.Shares) {
    && tx.RedeemShares? && |tx.shares| == |ledger|
    && (forall d | d in ledger :: exists i :: 0 <= i < |tx.shares| && tx.shares[i].localDenom == d)
    && (forall i :: 0 <= i < |tx.shares| ==>
          var item := tx.shares[i];
          item.localDenom in ledger && ledger[item.localDenom] == ShareLedger.Share(item.remoteDenom, item.amount))
  }

  ghost predicate SendsFirst(tx: Transaction, pending: ShareLedger.Shares) {
    && tx.IbcTransfer? && tx.reason.LsmShare?
    && tx.denom in pending && tx.amount == pending[tx.denom].amount
    && forall d | d in pending :: d == tx.denom || KeyOrder.Less(tx.denom, d)
  }

  /** And it is refused for having nothing to do exactly when it has nothing to do. */
  lemma ShortTickRefusedIff(w: World, cfg: Config, env: Env, submitSucceeds: bool)
    requires w.core.fsm.Idle? && w.core.lastIdleCall <= env.now && !IsLong(w.core, cfg, env.now)
    requires CoreSpec.ExchangeRate(w.core, cfg, env.(bank := w.bank), 0).Ok?
    ensures CoreSpec.Tick(w.core, cfg, env.(bank := w.bank)) == Err(IdleMinIntervalIsNotReached)
            <==> Payments(w, cfg, env) == [] && !RedeemDue(w.core, cfg, env.now) && w.core.pendingLsmShares == map[]
  {
  }
}
