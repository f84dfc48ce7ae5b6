/** The invariant of the whole protocol and what it gives for every run. */
module ProtocolTheorems {
  import opened Results
  import opened FixedPoint
  import opened ShareLedger
  import opened ProtocolTypes
  import opened ProtocolSpec
  import opened ChannelInvariant
  import opened LsmInvariant
  import opened MachineInvariant
  import opened BatchInvariant
  import opened VoucherInvariant
  import opened TickFacts
  import CoreSpec
  import PuppeteerSpec

  ghost predicate Inv(w: World) {
    Channel(w) && Lsm(w) && Machine(w) && Batches(w) && Vouchers(w)
  }

  lemma InitHolds(now: nat)
    ensures Inv(Init(now))
  {
    assert Channel(Init(now)) && Lsm(Init(now)) && Machine(Init(now));
    InitBatches(now);
    assert Vouchers(Init(now));
  }

  lemma InitBatches(now: nat)
    ensures Batches(Init(now))
  {
    var c := Init(now).core;
    assert Contiguous(c) && Shape(c) && Sums(c);
  }

  lemma StepKeeps(w: World, cfg: Config, step: Step)
    requires Inv(w)
    ensures Inv(Next(w, cfg, step))
    ensures Advances(w.core, Next(w, cfg, step).core)
  {
    StepKeepsChannel(w, cfg, step);
    StepKeepsLsm(w, cfg, step);
    StepKeepsMachine(w, cfg, step);
    StepKeepsBatches(w, cfg, step);
    StepKeepsVouchers(w, cfg, step);
  }

  /** Every state of every run satisfies the invariant. */
  lemma {:induction false} RunKeeps(w: World, cfg: Config, steps: seq<Step>)
    requires Inv(w)
    ensures Inv(Run(w, cfg, steps))
    decreases |steps|
  {
    if steps != [] {
      StepKeeps(w, cfg, steps[0]);
      RunKeeps(Next(w, cfg, steps[0]), cfg, steps[1..]);
    }
  }

  // ---------------------------------------------------------------- LSM shares

  /** After any run the total is the pending shares plus the shares to redeem, and a redeem
      in flight covers exactly the shares to redeem. */
  lemma LsmSharesBalance(now: nat, cfg: Config, steps: seq<Step>)
    ensures var w := Run(Init(now), cfg, steps);
            && w.core.totalLsmShares == Total(w.core.pendingLsmShares) + Total(w.core.lsmSharesToRedeem)
            && forall items | w.puppeteer.tx.transaction == Some(RedeemShares(items)) ::
                 && SumItems(items) == Total(w.core.lsmSharesToRedeem)
                 && RemoveItems(w.core.lsmSharesToRedeem, items) == map[]
  {
    InitHolds(now);
    RunKeeps(Init(now), cfg, steps);
    RedeemItemsCoverLedger(Run(Init(now), cfg, steps).core.lsmSharesToRedeem);
  }

  // ---------------------------------------------------------------- transactions and hooks

  /** After any run every submitted transaction was hooked exactly once, in order, with its
      own content, or it is the single one in flight. */
  lemma OneTransactionAtATime(now: nat, cfg: Config, steps: seq<Step>)
    ensures var w := Run(Init(now), cfg, steps);
            && |w.hooks| <= |w.submitted| <= |w.hooks| + 1
            && (forall j | 0 <= j < |w.hooks| :: w.hooks[j].0 == j && w.hooks[j].1.tx == w.submitted[j])
            && (w.puppeteer.tx.status == TxIdle <==> |w.submitted| == |w.hooks|)
            && w.puppeteer.tx.status != TxInProgress
            && (w.puppeteer.tx.status == TxWaitingForAck ==>
                  w.puppeteer.tx.transaction == Some(w.submitted[|w.hooks|]) && w.outstanding == {|w.hooks|})
  {
    InitHolds(now);
    RunKeeps(Init(now), cfg, steps);
  }

  /** After any run a transaction in flight while core is away from Idle is the one that the
      state of core names. */
  lemma StateNamesTransaction(now: nat, cfg: Config, steps: seq<Step>)
    ensures var w := Run(Init(now), cfg, steps);
            w.outstanding != {} && !w.core.fsm.Idle? ==>
              w.submitted != [] && Expected(w.core.fsm, w.submitted[|w.submitted| - 1])
  {
    InitHolds(now);
    RunKeeps(Init(now), cfg, steps);
    FlightIsExpected(Run(Init(now), cfg, steps));
  }

  lemma FlightIsExpected(w: World)
    requires Channel(w) && Machine(w)
    ensures w.outstanding != {} && !w.core.fsm.Idle? ==>
              w.submitted != [] && Expected(w.core.fsm, w.submitted[|w.submitted| - 1])
  {
  }

  // ---------------------------------------------------------------- batches

  /** Batches only advance: after any continuation of a run each batch is still there, a
      Withdrawn one unchanged. */
  lemma {:induction false} WithdrawnIsFinal(w: World, cfg: Config, steps: seq<Step>, b: nat)
    requires Inv(w) && b in w.core.batches
    ensures var w' := Run(w, cfg, steps);
            && b in w'.core.batches
            && (w.core.batches[b].status.Withdrawn? ==> w'.core.batches[b] == w.core.batches[b])
            && (w.core.batches[b].status.WithdrawnEmergency? ==> w'.core.batches[b].status.WithdrawnEmergency?)
    decreases |steps|
  {
    if steps != [] {
      StepKeeps(w, cfg, steps[0]);
      WithdrawnIsFinal(Next(w, cfg, steps[0]), cfg, steps[1..], b);
    }
  }

  /** Solvency over any run. */
  lemma PayoutsNeverExceedUnbonded(now: nat, cfg: Config, steps: seq<Step>, b: nat)
    requires var w := Run(Init(now), cfg, steps);
             b in w.core.batches && b !in w.overwritten && w.core.batches[b].status.Withdrawn?
    ensures var w := Run(Init(now), cfg, steps);
            var batch := w.core.batches[b];
            && batch.unbondedAmount.Some?
            && Paid(w, b) <= batch.unbondedAmount.value <= batch.expectedAmount
            && ((forall t | t in w.vouchers && t.batchId == b :: t in w.redeemed) ==>
                  batch.unbondedAmount.value * ONE
                  <= (Paid(w, b) + |batch.unbondItems|) * ONE + batch.expectedAmount)
  {
    InitHolds(now);
    RunKeeps(Init(now), cfg, steps);
    var w := Run(Init(now), cfg, steps);
    assert Fits(w.core.batches[b], b, w.core.batchId, w.core.fsm.Unbonding?, w.core.failedBatchId);
    Solvent(w, b);
  }

  // ---------------------------------------------------------------- reverted hooks

  /** An acknowledgement is reverted exactly when it reports the failure of a claim, a redeem,
      an LSM share transfer or a rewards transfer while core is Idle: the machine may not go
      from Idle to Idle. */
  lemma AckRevertsIff(w: World, env: Env, seqId: nat, ack: Ack)
    requires Inv(w) && seqId in w.outstanding
    ensures DeliverStep(w, env, seqId, ack).Err? <==>
              && !ack.AckSuccess? && w.core.fsm.Idle?
              && var tx := w.submitted[seqId];
                 tx.ClaimRewards? || tx.RedeemShares? || (tx.IbcTransfer? && tx.reason == LsmShare) || tx.Transfer?
  {
    AckIsForStoredTransaction(w, seqId);
    HookKeepsLsm(w.core, env.(bank := w.bank), PuppeteerSpec.Sudo(w.puppeteer, ack).value.1);
  }

  /** The slot is taken by a transaction whose failure cannot be accepted. */
  ghost predicate Blocked(w: World) {
    && w.core.fsm.Idle?
    && w.puppeteer.tx.status == TxWaitingForAck && w.puppeteer.tx.transaction.Some?
    && CoreSpec.ReturnsToIdle(w.puppeteer.tx.transaction.value)
  }

  lemma BlockedStep(w: World, cfg: Config, step: Step)
    requires Inv(w) && Blocked(w) && !(step.Deliver? && step.ack.AckSuccess?)
    ensures var w' := Next(w, cfg, step);
            Blocked(w') && w'.submitted == w.submitted && w'.hooks == w.hooks && w'.outstanding == w.outstanding
  {
    if Try(w, cfg, step).Ok? {
      match step
      case Tick(env, submitSucceeds) => BlockedTick(w, cfg, env, submitSucceeds);
      case Deliver(seqId, ack, env) => AckRevertsIff(w, env, seqId, ack);
      case _ => BlockedTrade(w, cfg, step);
    }
  }

  lemma BlockedTick(w: World, cfg: Config, env: Env, submitSucceeds: bool)
    requires Inv(w) && Blocked(w) && TickStep(w, cfg, env, submitSucceeds).Ok?
    ensures var w' := TickStep(w, cfg, env, submitSucceeds).value;
            && w'.core.fsm.Idle? && w'.puppeteer == w.puppeteer
            && w'.submitted == w.submitted && w'.hooks == w.hooks && w'.outstanding == w.outstanding
  {
    TickLands(w.core, cfg, env.(bank := w.bank));
  }

  lemma BlockedTrade(w: World, cfg: Config, step: Step)
    requires Blocked(w) && !step.Tick? && !step.Deliver?
    ensures var w' := Next(w, cfg, step);
            Blocked(w') && w'.submitted == w.submitted && w'.hooks == w.hooks && w'.outstanding == w.outstanding
  {
    if Try(w, cfg, step).Ok? {
      match step
      case Bond(env, trace) => BondMoves(w.core, cfg, env.(bank := CreditBond(w.bank, cfg, env.funds)), trace);
      case _ =>
    }
  }

  /** Such a failure freezes the protocol: whatever else is called, without a successful
      acknowledgement core stays Idle and nothing is ever submitted again. */
  lemma {:induction false} BlockedUntilSuccess(w: World, cfg: Config, steps: seq<Step>)
    requires Inv(w) && Blocked(w)
    requires forall s | s in steps :: !(s.Deliver? && s.ack.AckSuccess?)
    ensures var w' := Run(w, cfg, steps);
            w'.core.fsm.Idle? && w'.submitted == w.submitted && w'.hooks == w.hooks
    decreases |steps|
  {
    if steps != [] {
      assert steps[0] in steps;
      StepKeeps(w, cfg, steps[0]);
      BlockedStep(w, cfg, steps[0]);
      BlockedUntilSuccess(Next(w, cfg, steps[0]), cfg, steps[1..]);
    }
  }

  /** A failed delegation freezes the protocol for good: its response is never cleared. */
  ghost predicate StakingFailed(w: World) {
    && w.core.fsm.Staking? && w.outstanding == {}
    && w.core.lastResponse.Some? && w.core.lastResponse.value.Failure?
  }

  lemma FailedStakingStep(w: World, cfg: Config, step: Step)
    requires Inv(w) && StakingFailed(w)
    ensures StakingFailed(Next(w, cfg, step)) && Next(w, cfg, step).submitted == w.submitted
  {
    if Try(w, cfg, step).Ok? {
      match step
      case Bond(env, trace) => BondMoves(w.core, cfg, env.(bank := CreditBond(w.bank, cfg, env.funds)), trace);
      case _ =>
    }
  }

  lemma {:induction false} FailedStakingIsFinal(w: World, cfg: Config, steps: seq<Step>)
    requires Inv(w) && StakingFailed(w)
    ensures var w' := Run(w, cfg, steps);
            StakingFailed(w') && w'.submitted == w.submitted
    decreases |steps|
  {
    if steps != [] {
      StepKeeps(w, cfg, steps[0]);
      FailedStakingStep(w, cfg, steps[0]);
      FailedStakingIsFinal(Next(w, cfg, steps[0]), cfg, steps[1..]);
    }
  }

  /** A delegation that is not acknowledged as a success leads there, and from there no run
      leaves Staking or submits anything. */
  lemma FailedDelegationIsFinal(w: World, cfg: Config, seqId: nat, ack: Ack, env: Env, steps: seq<Step>)
    requires Inv(w) && w.core.fsm.Staking? && seqId in w.outstanding && !ack.AckSuccess?
    ensures DeliverStep(w, env, seqId, ack).Ok? && w.submitted[seqId].Delegate?
    ensures var failed := DeliverStep(w, env, seqId, ack).value;
            var w' := Run(failed, cfg, steps);
            StakingFailed(failed) && w'.core.fsm.Staking? && w'.submitted == w.submitted
  {
    AckIsForStoredTransaction(w, seqId);
    AckRevertsIff(w, env, seqId, ack);
    StepKeeps(w, cfg, Deliver(seqId, ack, env));
    var failed := DeliverStep(w, env, seqId, ack).value;
    HookMoves(w.core, env.(bank := w.bank), PuppeteerSpec.Sudo(w.puppeteer, ack).value.1);
    assert failed == Next(w, cfg, Deliver(seqId, ack, env));
    FailedStakingIsFinal(failed, cfg, steps);
  }

  // ---------------------------------------------------------------- prices during an excursion

  /** Every state before the last step is away from Idle. */
  ghost predicate AwayFromIdle(w: World, cfg: Config, steps: seq<Step>)
    decreases |steps|
  {
    steps == [] || (!w.core.fsm.Idle? && AwayFromIdle(Next(w, cfg, steps[0]), cfg, steps[1..]))
  }

  lemma AwayStepKeepsRate(w: World, cfg: Config, step: Step)
    requires Inv(w) && !w.core.fsm.Idle?
    ensures Next(w, cfg, step).core.exchangeRate == w.core.exchangeRate
  {
    if Try(w, cfg, step).Ok? {
      match step
      case Bond(env, trace) => BondMoves(w.core, cfg, env.(bank := CreditBond(w.bank, cfg, env.funds)), trace);
      case Tick(env, _) => TickLands(w.core, cfg, env.(bank := w.bank));
      case Deliver(seqId, ack, env) =>
        HookMoves(w.core, env.(bank := w.bank), PuppeteerSpec.Sudo(w.puppeteer, ack).value.1);
      case _ =>
    }
  }

  /** During an excursion from Idle every bond and unbond is priced at the one rate the idle
      tick that started it cached, which is there: the default of one is never used. */
  lemma {:induction false} OneRatePerExcursion(w: World, cfg: Config, steps: seq<Step>, env: Env, stake: nat)
    requires Inv(w) && !w.core.fsm.Idle? && AwayFromIdle(w, cfg, steps)
    ensures w.core.exchangeRate.Some?
    ensures var w' := Run(w, cfg, steps);
            && w'.core.exchangeRate == w.core.exchangeRate
            && (!w'.core.fsm.Idle? ==> CoreSpec.ExchangeRate(w'.core, cfg, env, stake) == Ok(w.core.exchangeRate.value))
    decreases |steps|
  {
    if steps != [] {
      StepKeeps(w, cfg, steps[0]);
      AwayStepKeepsRate(w, cfg, steps[0]);
      if steps[1..] != [] { OneRatePerExcursion(Next(w, cfg, steps[0]), cfg, steps[1..], env, stake); }
    }
  }

  /** The rate cached by an idle tick that leaves Idle is the one it computed. */
  lemma ExcursionStartsAtComputedRate(w: World, cfg: Config, env: Env, submitSucceeds: bool)
    requires w.core.fsm.Idle? && TickStep(w, cfg, env, submitSucceeds).Ok?
    ensures var e := env.(bank := w.bank);
            && CoreSpec.ComputedRate(w.core, e, 0).Ok?
            && TickStep(w, cfg, env, submitSucceeds).value.core.exchangeRate
               == Some(CoreSpec.ComputedRate(w.core, e, 0).value)
  {
    var e := env.(bank := w.bank);
    var c1 := w.core.(exchangeRate := Some(CoreSpec.ExchangeRate(w.core, cfg, e, 0).value));
    if env.now - w.core.lastIdleCall >= cfg.idleMinInterval { IdleExcursionFacts(c1, cfg, e); }
  }

  /** From the idle tick that leaves Idle to the return, every bond issues and every unbond
      promises at the one rate computed by that tick. */
  lemma ExcursionTradesAtOneRate(w: World, cfg: Config, env: Env, submitSucceeds: bool, steps: seq<Step>)
    requires Inv(w) && w.core.fsm.Idle? && TickStep(w, cfg, env, submitSucceeds).Ok?
    requires var left := TickStep(w, cfg, env, submitSucceeds).value;
             AwayFromIdle(left, cfg, steps) && !left.core.fsm.Idle? && !Run(left, cfg, steps).core.fsm.Idle?
    ensures CoreSpec.ComputedRate(w.core, env.(bank := w.bank), 0).Ok?
    ensures var rate := CoreSpec.ComputedRate(w.core, env.(bank := w.bank), 0).value;
            TradesAt(Run(TickStep(w, cfg, env, submitSucceeds).value, cfg, steps), cfg, rate)
  {
    var left := TickStep(w, cfg, env, submitSucceeds).value;
    var w' := Run(left, cfg, steps);
    ExcursionStartsAtComputedRate(w, cfg, env, submitSucceeds);
    StepKeeps(w, cfg, Tick(env, submitSucceeds));
    assert left == Next(w, cfg, Tick(env, submitSucceeds));
    OneRatePerExcursion(left, cfg, steps, env, 0);
    AwayTradesAtCachedRate(w', cfg);
  }

  /** Every bond issues and every unbond promises at this rate. */
  ghost predicate TradesAt(w: World, cfg: Config, rate: nat) {
    && (forall env, trace | BondStep(w, cfg, env, trace).Ok? ::
          && |env.funds| == 1
          && CoreSpec.IssueAmount(env.funds[0].amount, rate)
             == Ok(BondStep(w, cfg, env, trace).value.bank.ldSupply - w.bank.ldSupply))
    && (forall env, sender | UnbondStep(w, cfg, env, sender).Ok? ::
          var id, w' := w.core.batchId, UnbondStep(w, cfg, env, sender).value;
          && |env.funds| == 1 && id in w.core.batches && id in w'.core.batches
          && w'.core.batches[id].unbondItems
             == w.core.batches[id].unbondItems
                + [UnbondItem(sender, env.funds[0].amount, MulFloor(env.funds[0].amount, rate))])
  }

  lemma AwayTradesAtCachedRate(w: World, cfg: Config)
    requires !w.core.fsm.Idle? && w.core.exchangeRate.Some?
    ensures TradesAt(w, cfg, w.core.exchangeRate.value)
  {
    forall env, sender | UnbondStep(w, cfg, env, sender).Ok?
      ensures w.core.batchId in w.core.batches
      ensures var id, w' := w.core.batchId, UnbondStep(w, cfg, env, sender).value;
              && |env.funds| == 1 && id in w'.core.batches
              && w'.core.batches[id].unbondItems
                 == w.core.batches[id].unbondItems
                    + [UnbondItem(sender, env.funds[0].amount,
                                  MulFloor(env.funds[0].amount, w.core.exchangeRate.value))]
    {
    }
  }

  // ---------------------------------------------------------------- collected fees

  /** Neither a redeem nor an LSM share transfer: all that is submitted once a fee was
      collected. The fees are never cleared, and their transfer takes precedence in every
      short idle tick. */
  ghost predicate NoShareTx(tx: Transaction) {
    !tx.RedeemShares? && !(tx.IbcTransfer? && tx.reason.LsmShare?)
  }

  lemma FeesComeFirst(w: World, cfg: Config, step: Step)
    requires w.core.collectedFees.Some?
    ensures var w' := Next(w, cfg, step);
            && w'.core.collectedFees.Some?
            && (|w'.submitted| > |w.submitted| ==> NoShareTx(w'.submitted[|w.submitted|]))
  {
    if Try(w, cfg, step).Ok? {
      match step
      case Tick(env, submitSucceeds) =>
        FeesTickKeepsFees(w, cfg, env, submitSucceeds);
        FeesTickSendsNoShares(w, cfg, env, submitSucceeds);
      case _ =>
    }
  }

  lemma FeesTickKeepsFees(w: World, cfg: Config, env: Env, submitSucceeds: bool)
    requires w.core.collectedFees.Some? && TickStep(w, cfg, env, submitSucceeds).Ok?
    ensures TickStep(w, cfg, env, submitSucceeds).value.core.collectedFees.Some?
  {
    FeesStay(w.core, cfg, env.(bank := w.bank));
    TickSubmits(w, cfg, env, submitSucceeds);
  }

  lemma FeesTickSendsNoShares(w: World, cfg: Config, env: Env, submitSucceeds: bool)
    requires w.core.collectedFees.Some? && TickStep(w, cfg, env, submitSucceeds).Ok?
    ensures var w' := TickStep(w, cfg, env, submitSucceeds).value;
            |w'.submitted| > |w.submitted| ==> NoShareTx(w'.submitted[|w.submitted|])
  {
    FeesStay(w.core, cfg, env.(bank := w.bank));
    TickSubmits(w, cfg, env, submitSucceeds);
    var msg := CoreSpec.Tick(w.core, cfg, env.(bank := w.bank)).value.msg;
    if msg.Some? { NoShareMessage(msg.value); }
  }

  lemma NoShareMessage(msg: PuppeteerMsg)
    requires PuppeteerSpec.TransactionOf(msg).Ok?
    requires !(msg.Submit? && msg.tx.RedeemShares?) && !(msg.SendFunds? && msg.reason.LsmShare?)
    requires msg.Submit? ==> !msg.tx.IbcTransfer?
    ensures NoShareTx(PuppeteerSpec.TransactionOf(msg).value)
  {
  }

  /** What a tick submits is the transaction of its message. */
  lemma TickSubmits(w: World, cfg: Config, env: Env, submitSucceeds: bool)
    requires TickStep(w, cfg, env, submitSucceeds).Ok?
    ensures CoreSpec.Tick(w.core, cfg, env.(bank := w.bank)).Ok?
    ensures var w' := TickStep(w, cfg, env, submitSucceeds).value;
            var o := CoreSpec.Tick(w.core, cfg, env.(bank := w.bank)).value;
            && w'.core == o.core
            && (o.msg.None? ==> w'.submitted == w.submitted)
            && (o.msg.Some? ==> PuppeteerSpec.TransactionOf(o.msg.value).Ok?
                                && w'.submitted == w.submitted + [PuppeteerSpec.TransactionOf(o.msg.value).value])
  {
    var o := CoreSpec.Tick(w.core, cfg, env.(bank := w.bank)).value;
    DispatchAppends(w.(core := o.core, overwritten := w.overwritten + Dropped(w.core.batches, o.core.batches)),
                    o.msg, submitSucceeds);
  }

  lemma DispatchAppends(w: World, msg: Option<PuppeteerMsg>, submitSucceeds: bool)
    requires Dispatch(w, msg, submitSucceeds).Ok?
    ensures var w' := Dispatch(w, msg, submitSucceeds).value;
            && w'.core == w.core
            && (msg.None? ==> w'.submitted == w.submitted)
            && (msg.Some? ==> PuppeteerSpec.TransactionOf(msg.value).Ok?
                              && w'.submitted == w.submitted + [PuppeteerSpec.TransactionOf(msg.value).value])
  {
  }

  lemma FeesStay(c: Core, cfg: Config, env: Env)
    requires c.collectedFees.Some? && CoreSpec.Tick(c, cfg, env).Ok?
    ensures var o := CoreSpec.Tick(c, cfg, env).value;
            && o.core.collectedFees.Some?
            && (o.msg.Some? ==> !(o.msg.value.Submit? && o.msg.value.tx.RedeemShares?)
                                && !(o.msg.value.SendFunds? && o.msg.value.reason.LsmShare?)
                                && !(o.msg.value.Submit? && o.msg.value.tx.IbcTransfer?))
  {
    match c.fsm
    case Idle =>
      var c1 := c.(exchangeRate := Some(CoreSpec.ExchangeRate(c, cfg, env, 0).value));
      if env.now - c.lastIdleCall >= cfg.idleMinInterval { IdleExcursionFacts(c1, cfg, env); }
    case Claiming =>
      AfterClaimingFacts(CoreSpec.FinishClaim(c.(lastResponse := None), c.lastResponse.value).value, cfg, env);
    case Transfering => StakeOrUnbondFacts(c.(lastResponse := None), cfg, env);
    case Staking => UnbondOrIdleFacts(c.(lastResponse := None), cfg, env);
    case Unbonding =>
  }

  /** Over any run: after the first collected fee no LSM share is ever redeemed again, beyond
      a redeem already in flight. */
  lemma {:induction false} FeesStarveRedeems(w: World, cfg: Config, steps: seq<Step>, j: nat)
    requires w.core.collectedFees.Some?
    requires |w.submitted| <= j < |Run(w, cfg, steps).submitted|
    ensures NoShareTx(Run(w, cfg, steps).submitted[j])
    decreases |steps|
  {
    if steps != [] {
      var w1 := Next(w, cfg, steps[0]);
      FeesComeFirst(w, cfg, steps[0]);
      SubmittedGrows(w, cfg, steps[0]);
      SubmittedIsPrefix(w1, cfg, steps[1..]);
      if j >= |w1.submitted| { FeesStarveRedeems(w1, cfg, steps[1..], j); }
    }
  }

  lemma SubmittedGrows(w: World, cfg: Config, step: Step)
    ensures w.submitted <= Next(w, cfg, step).submitted
    ensures |Next(w, cfg, step).submitted| <= |w.submitted| + 1
  {
  }

  lemma {:induction false} SubmittedIsPrefix(w: World, cfg: Config, steps: seq<Step>)
    ensures w.submitted <= Run(w, cfg, steps).submitted
    decreases |steps|
  {
    if steps != [] {
      SubmittedGrows(w, cfg, steps[0]);
      SubmittedIsPrefix(Next(w, cfg, steps[0]), cfg, steps[1..]);
    }
  }
}
