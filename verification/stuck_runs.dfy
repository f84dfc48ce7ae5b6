/** Runs from the initial state into the states in which the protocol is stuck, for good or for
    a tick. */
module StuckRuns {
  import opened Results
  import opened FixedPoint
  import opened ShareLedger
  import opened ProtocolTypes
  import opened ProtocolSpec
  import opened ProtocolTheorems
  import RunViews
  import RetryRun
  import CoreSpec
  import PuppeteerSpec
  import KeyOrder
  import Strategy

  /** Idle ticks within ten seconds are short. */
  const SHORT: Config := RunViews.CFG.(idleMinInterval := 10)

  /** And a tenth of what is staked goes to an address for fees. */
  const FEES: Config := SHORT.(fee := Some(ONE / 10), feeAddress := Some("fees"))

  const OPEN: Step := OpenAck("ica")
  const BOND: Step := Step.Bond(RunViews.At(1, [Coin("share", 5)], 0, []), Some("remote-share"))
  const SEND: Step := Step.Tick(RunViews.At(1, [], 0, []), true)
  const ACK: Step := Deliver(0, AckSuccess, RunViews.At(1, [], 0, []))
  const CLAIM: Step := Step.Tick(RunViews.At(20, [], 0, RunViews.Staked(5)), true)

  const SHARES: Transaction := IbcTransfer("share", 5, LsmShare)

  // ---------------------------------------------------------------- the steps

  /** An LSM share was bonded. */
  ghost predicate Bonded(w: World) {
    && w.core == CoreSpec.Instantiate(0).(bondedAmount := 5, totalLsmShares := 5,
                                          pendingLsmShares := map["share" := Share("remote-share", 5)])
    && w.puppeteer == Puppeteer(NO_TX, Registered("ica"))
    && w.bank == Bank(5, 0) && w.submitted == [] && w.outstanding == {}
  }

  lemma OpensAndBonds(cfg: Config)
    requires cfg == SHORT || cfg == FEES
    ensures Bonded(Next(Next(Init(0), cfg, OPEN), cfg, BOND))
  {
    var w := Next(Init(0), cfg, OPEN);
    assert w == Init(0).(puppeteer := Puppeteer(NO_TX, Registered("ica")));
    assert MulFloor(5, Ratio(ONE, ONE)) == 5;
    assert Credit(map[], "share", "remote-share", 5) == map["share" := Share("remote-share", 5)];
  }

  /** Its transfer is in flight, sent while Idle. */
  ghost predicate SharesInFlight(w: World) {
    && w.core.fsm.Idle? && w.core.batchId == 0 && w.core.batches == map[0 := NewUnbond(0)] && w.core.failedBatchId.None?
    && w.core.lastIdleCall == 0 && w.core.totalLsmShares == 5
    && w.core.pendingLsmShares == map["share" := Share("remote-share", 5)]
    && w.puppeteer == Puppeteer(TxState(TxWaitingForAck, Some(0), Some(SHARES)), Registered("ica"))
    && w.bank == Bank(5, 0) && w.outstanding == {0}
  }

  lemma SendsShares(w: World)
    requires Bonded(w)
    ensures SharesInFlight(Next(w, SHORT, SEND))
  {
    var env := RunViews.At(1, [], 0, []).(bank := w.bank);
    assert CoreSpec.ComputedRate(w.core, env, 0).Ok?;
    var keys := w.core.pendingLsmShares.Keys;
    assert keys == {"share"};
    assert KeyOrder.Least(keys) == "share" by { assert KeyOrder.Least(keys) in keys; }
    var coins := [Coin("share", 5)];
    assert coins + [] == coins && coins[1..] == [];
    assert PuppeteerSpec.MessageFunds(coins) == coins + PuppeteerSpec.MessageFunds([]);
    var c1 := w.core.(exchangeRate := Some(CoreSpec.ComputedRate(w.core, env, 0).value));
    assert CoreSpec.IdleMessage(c1, SHORT, env) == Ok(SendFunds(LsmShare, coins));
  }

  /** The transfer succeeded, and its answer stays stored. */
  ghost predicate SharesSent(w: World) {
    && w.core.fsm.Idle? && w.core.batchId == 0 && w.core.batches == map[0 := NewUnbond(0)] && w.core.failedBatchId.None?
    && w.core.lastIdleCall == 0 && w.core.lastResponse == Some(Success(SHARES))
    && w.puppeteer == Puppeteer(NO_TX, Registered("ica"))
  }

  lemma AcksShares(w: World)
    requires SharesInFlight(w)
    ensures SharesSent(Next(w, SHORT, ACK))
  {
  }

  /** A claim is in flight while the answer to the transfer is still stored. */
  ghost predicate ClaimWithStaleAnswer(w: World) {
    && w.core.fsm.Claiming? && w.core.lastResponse == Some(Success(SHARES))
    && w.puppeteer.tx.status == TxWaitingForAck
    && w.puppeteer.tx.transaction == Some(ClaimRewards(["v"], None))
  }

  lemma SendsClaim(w: World)
    requires SharesSent(w)
    ensures ClaimWithStaleAnswer(Next(w, SHORT, CLAIM))
  {
    var env := RunViews.At(20, [], 0, RunViews.Staked(5)).(bank := w.bank);
    RunViews.Reported(5);
    assert CoreSpec.UnprocessedUnbonds(w.core) == Ok(0);
    var c1 := w.core.(exchangeRate := Some(CoreSpec.ComputedRate(w.core, env, 0).value));
    CoreSpec.UnbondingIdsExist(c1.batches, 1);
    RunViews.NothingDue(c1.batches, CoreSpec.UnbondingIds(c1.batches, 1), env);
    assert RunViews.Staked(5)[1..] == [];
    assert CoreSpec.IsListed(env.reports.validators, "v") by { assert env.reports.validators[0].valoper == "v"; }
    assert CoreSpec.ValidatorsToClaim(env.reports.validators, []) == [];
    assert CoreSpec.ValidatorsToClaim(env.reports.validators, RunViews.Staked(5)) == ["v"];
    assert CoreSpec.PrepareTransfer(c1.batches, [], SHORT, "pump", 0) == Ok((c1.batches, None));
  }

  // ---------------------------------------------------------------- the runs

  lemma RunToBonded(cfg: Config) returns (steps: seq<Step>)
    requires cfg == SHORT || cfg == FEES
    ensures Bonded(Run(Init(0), cfg, steps))
  {
    OpensAndBonds(cfg);
    steps := [OPEN] + [BOND];
    assert Run(Init(0), cfg, []) == Init(0);
    RunViews.RunThen(Init(0), cfg, [], OPEN);
    assert [] + [OPEN] == [OPEN];
    RunViews.RunThen(Init(0), cfg, [OPEN], BOND);
  }

  lemma RunToSharesInFlight() returns (steps: seq<Step>)
    ensures SharesInFlight(Run(Init(0), SHORT, steps))
  {
    steps := RunToBonded(SHORT);
    SendsShares(Run(Init(0), SHORT, steps));
    RunViews.RunThen(Init(0), SHORT, steps, SEND);
    steps := steps + [SEND];
  }

  /** Three calls lead to a transaction whose failure cannot be accepted. */
  lemma BlockedIsReachable()
    ensures exists steps :: Blocked(Run(Init(0), SHORT, steps))
  {
    var steps := RunToSharesInFlight();
    assert Blocked(Run(Init(0), SHORT, steps));
  }

  lemma RunToStaleAnswer() returns (steps: seq<Step>)
    ensures ClaimWithStaleAnswer(Run(Init(0), SHORT, steps))
  {
    steps := RunToSharesInFlight();
    AcksShares(Run(Init(0), SHORT, steps));
    RunViews.RunThen(Init(0), SHORT, steps, ACK);
    steps := steps + [ACK];
    SendsClaim(Run(Init(0), SHORT, steps));
    RunViews.RunThen(Init(0), SHORT, steps, CLAIM);
    steps := steps + [CLAIM];
  }

  ghost predicate RefusesTicks(w: World) {
    forall env, submitSucceeds :: TickStep(w, SHORT, env, submitSucceeds) == Err(InvalidTransaction)
  }

  /** Five calls lead to a claim in flight before whose acknowledgement every tick answers
      `InvalidTransaction`. */
  lemma InvalidTransactionIsReachable()
    ensures exists steps ::
              var w := Run(Init(0), SHORT, steps);
              w.core.fsm.Claiming? && w.puppeteer.tx.status == TxWaitingForAck && RefusesTicks(w)
  {
    var steps := RunToStaleAnswer();
    StaleAnswerRefusesTicks(Run(Init(0), SHORT, steps));
  }

  lemma StaleAnswerRefusesTicks(w: World)
    requires ClaimWithStaleAnswer(w)
    ensures RefusesTicks(w)
  {
  }

  /** A bond, an unbond, two ticks and their answers, the second one a failure, freeze the
      protocol for good. */
  lemma FailedStakingIsReachable()
    ensures exists steps :: StakingFailed(Run(Init(0), RunViews.CFG, steps))
  {
    var steps := RetryRun.ToFirstStake();
    steps := RunViews.Acks(steps, RetryRun.FirstStake(), false);
    assert StakingFailed(RunViews.After(steps));
  }

  // ---------------------------------------------------------------- collected fees

  const COINS: Transaction := IbcTransfer("base", 100, Stake)

  const BASE: Step := Step.Bond(RunViews.At(1, [Coin("base", 100)], 0, []), None)
  const MOVE: Step := Step.Tick(RunViews.At(20, [], 0, []), true)
  const MOVED: Step := Deliver(0, AckSuccess, RunViews.At(20, [], 0, []))
  const STAKE: Step := Step.Tick(RunViews.At(20, [], 100, []), true)

  /** The bonded share waits for its transfer. */
  ghost predicate ShareWaits(c: Core) {
    && c.batchId == 0 && c.batches == map[0 := NewUnbond(0)] && c.failedBatchId.None?
    && c.totalLsmShares == 5 && c.pendingLsmShares == map["share" := Share("remote-share", 5)]
    && c.lastIcaBalanceChangeHeight <= 1
  }

  /** A hundred coins were bonded as well. */
  ghost predicate BothBonded(w: World) {
    && ShareWaits(w.core) && w.core.fsm.Idle? && w.core.lastIdleCall == 0 && w.core.collectedFees.None?
    && w.puppeteer == Puppeteer(NO_TX, Registered("ica"))
    && w.bank == Bank(105, 100) && w.submitted == [] && w.outstanding == {}
  }

  lemma BondsBase(w: World)
    requires Bonded(w)
    ensures BothBonded(Next(w, FEES, BASE))
  {
    assert CoreSpec.ReportedStake([]) == 0;
    assert Ratio(5, 5) == ONE;
    assert MulFloor(100, Ratio(ONE, ONE)) == 100;
  }

  /** The coins are on their way. */
  ghost predicate CoinsInFlight(w: World) {
    && ShareWaits(w.core) && w.core.fsm.Transfering? && w.core.collectedFees.None?
    && w.puppeteer == Puppeteer(TxState(TxWaitingForAck, Some(0), Some(COINS)), Registered("ica"))
    && w.outstanding == {0}
  }

  lemma MovesBase(w: World)
    requires BothBonded(w)
    ensures CoinsInFlight(Next(w, FEES, MOVE))
  {
    MoveTick(w.core, RunViews.At(20, [], 0, []).(bank := w.bank));
    var coins := [Coin("base", 100)];
    assert coins[1..] == [];
    assert PuppeteerSpec.MessageFunds(coins) == coins + PuppeteerSpec.MessageFunds([]);
  }

  lemma MoveTick(c: Core, env: Env)
    requires ShareWaits(c) && c.fsm.Idle? && c.lastIdleCall == 0 && c.collectedFees.None?
    requires env == RunViews.At(20, [], 0, []).(bank := Bank(105, 100))
    ensures var o := CoreSpec.Tick(c, FEES, env);
            && o.Ok? && ShareWaits(o.value.core) && o.value.core.fsm.Transfering? && o.value.core.collectedFees.None?
            && o.value.msg == Some(SendFunds(Stake, [Coin("base", 100)]))
  {
    assert CoreSpec.ReportedStake([]) == 0;
    var c1 := c.(exchangeRate := Some(CoreSpec.ComputedRate(c, env, 0).value));
    CoreSpec.UnbondingIdsExist(c1.batches, 1);
    RunViews.NothingDue(c1.batches, CoreSpec.UnbondingIds(c1.batches, 1), env);
    assert CoreSpec.PrepareTransfer(c1.batches, [], FEES, "pump", 0) == Ok((c1.batches, None));
    assert [Coin("base", 100)] + [] == [Coin("base", 100)];
  }

  /** They arrived. */
  ghost predicate CoinsArrived(w: World) {
    && ShareWaits(w.core) && w.core.fsm.Transfering? && w.core.collectedFees.None? && w.core.lastResponse.Some?
    && w.puppeteer == Puppeteer(NO_TX, Registered("ica"))
  }

  lemma AcksBase(w: World)
    requires CoinsInFlight(w)
    ensures CoinsArrived(Next(w, FEES, MOVED))
  {
  }

  lemma StakesAndCollects(w: World)
    requires CoinsArrived(w)
    ensures ShareWaits(Next(w, FEES, STAKE).core) && Next(w, FEES, STAKE).core.collectedFees == Some(("fees", 10))
  {
    var env := RunViews.At(20, [], 100, []).(bank := w.bank);
    RunViews.JoinOfOne([]);
    assert Strategy.Delegated([], "remote", "v") == 0;
    RunViews.IdealOfOne(90, 0);
    assert CoreSpec.Fee(FEES, 100) == 10;
    assert Strategy.CalcDeposit(env.reports.validators, [], "remote", 90).Ok?;
  }

  ghost predicate NeverSendsShares(w: World) {
    forall more, j :: |w.submitted| <= j < |Run(w, FEES, more).submitted| ==> NoShareTx(Run(w, FEES, more).submitted[j])
  }

  /** Six calls lead to a collected fee with LSM shares still waiting: in no continuation are
      they sent or redeemed. */
  lemma StarvedSharesAreReachable()
    ensures exists steps ::
              var w := Run(Init(0), FEES, steps);
              w.core.collectedFees.Some? && w.core.pendingLsmShares != map[] && NeverSendsShares(w)
  {
    var steps := RunToCollected();
    NeverSent(Run(Init(0), FEES, steps));
    assert "share" in Run(Init(0), FEES, steps).core.pendingLsmShares;
  }

  lemma NeverSent(w: World)
    requires w.core.collectedFees.Some?
    ensures NeverSendsShares(w)
  {
    forall more, j | |w.submitted| <= j < |Run(w, FEES, more).submitted|
      ensures NoShareTx(Run(w, FEES, more).submitted[j])
    {
      FeesStarveRedeems(w, FEES, more, j);
    }
  }

  lemma RunToCollected() returns (steps: seq<Step>)
    ensures var w := Run(Init(0), FEES, steps); ShareWaits(w.core) && w.core.collectedFees.Some?
  {
    steps := RunToMoved();
    StakesAndCollects(Run(Init(0), FEES, steps));
    RunViews.RunThen(Init(0), FEES, steps, STAKE);
    steps := steps + [STAKE];
  }

  lemma RunToMoved() returns (steps: seq<Step>)
    ensures CoinsArrived(Run(Init(0), FEES, steps))
  {
    steps := RunToBonded(FEES);
    BondsBase(Run(Init(0), FEES, steps));
    RunViews.RunThen(Init(0), FEES, steps, BASE);
    steps := steps + [BASE];
    MovesBase(Run(Init(0), FEES, steps));
    RunViews.RunThen(Init(0), FEES, steps, MOVE);
    steps := steps + [MOVE];
    AcksBase(Run(Init(0), FEES, steps));
    RunViews.RunThen(Init(0), FEES, steps, MOVED);
    steps := steps + [MOVED];
  }
}
