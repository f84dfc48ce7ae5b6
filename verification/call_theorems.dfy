/** When trades, messages and acknowledgements are accepted, what they leave, and what that
    means for later calls of a run. */
module CallTheorems {
  import opened Results
  import opened FixedPoint
  import opened ProtocolTypes
  import opened ProtocolSpec
  import opened ProtocolTheorems
  import opened BatchInvariant
  import opened TickFacts
  import opened TickTheorems
  import CoreSpec
  import PuppeteerSpec
  import ExchangeRateTheorems
  import ChannelInvariant
  import StakingPlan
  import Strategy

  // ---------------------------------------------------------------- trades

  /** The rate quoted before a call. */
  ghost function Quote(w: World, cfg: Config, env: Env): Result<nat> {
    CoreSpec.ExchangeRate(w.core, cfg, env.(bank := w.bank), 0)
  }

  /** It is the cached one away from Idle; in Idle it is priced from the books, once the ld denom
      is known. */
  lemma QuoteIs(w: World, cfg: Config, env: Env)
    requires Inv(w)
    ensures !w.core.fsm.Idle? ==> w.core.exchangeRate.Some? && Quote(w, cfg, env) == Ok(w.core.exchangeRate.value)
    ensures w.core.fsm.Idle? && cfg.ldDenom.None? ==> Quote(w, cfg, env).Err?
    ensures w.core.fsm.Idle? && cfg.ldDenom.Some? ==> Quote(w, cfg, env) == ExchangeRateTheorems.Rate(w, env)
  {
  }

  /** A coin core takes: the base denom, or shares traced to a validator, enough of them. */
  predicate Bondable(cfg: Config, coin: Coin, trace: Option<string>) {
    coin.denom == cfg.baseDenom || (trace.Some? && coin.denom != "untrn" && cfg.lsmMinBondAmount <= coin.amount)
  }

  predicate WithinLimit(cfg: Config, bonded: nat) { cfg.bondLimit.Some? ==> bonded <= cfg.bondLimit.value }

  /** A bond is accepted exactly when one bondable coin is attached, the limit is kept and a
      positive rate is quoted; it issues at that rate and counts towards the limit. */
  lemma BondAcceptedIff(w: World, cfg: Config, env: Env, trace: Option<string>)
    ensures BondStep(w, cfg, env, trace).Ok? <==>
              && |env.funds| == 1 && env.funds[0].amount > 0 && Bondable(cfg, env.funds[0], trace)
              && WithinLimit(cfg, w.core.bondedAmount + env.funds[0].amount)
              && Quote(w, cfg, env).Ok? && Quote(w, cfg, env).value > 0
    ensures BondStep(w, cfg, env, trace).Ok? ==>
              var w', coin := BondStep(w, cfg, env, trace).value, env.funds[0];
              && w'.core.bondedAmount == w.core.bondedAmount + coin.amount
              && w'.bank.coreBalance == w.bank.coreBalance + (if coin.denom == cfg.baseDenom then coin.amount else 0)
              && CoreSpec.IssueAmount(coin.amount, Quote(w, cfg, env).value) == Ok(w'.bank.ldSupply - w.bank.ldSupply)
  {
    if |env.funds| == 1 && env.funds[0].amount > 0 && Bondable(cfg, env.funds[0], trace) {
      BondKeepsQuote(w, cfg, env, trace);
    }
  }

  lemma BondKeepsQuote(w: World, cfg: Config, env: Env, trace: Option<string>)
    requires |env.funds| == 1 && Bondable(cfg, env.funds[0], trace)
    ensures var coin := env.funds[0];
            var bonded := w.core.(bondedAmount := w.core.bondedAmount + coin.amount);
            var shares := CoreSpec.BondShares(bonded, cfg, coin, trace);
            && shares.Ok? && shares.value.bondedAmount == bonded.bondedAmount
            && CoreSpec.ExchangeRate(shares.value, cfg, env.(bank := CreditBond(w.bank, cfg, env.funds)), coin.amount)
               == Quote(w, cfg, env)
  {
  }

  /** An unbond is accepted exactly when ld tokens that exist are attached, a rate is quoted, and
      the voucher is new. Its item and voucher carry sender and amount, and what the quoted rate
      makes of the amount; the ld tokens are burned. */
  lemma UnbondAcceptedIff(w: World, cfg: Config, env: Env, sender: string)
    requires Inv(w)
    ensures UnbondStep(w, cfg, env, sender).Ok? <==>
              && |env.funds| == 1 && 0 < env.funds[0].amount <= w.bank.ldSupply
              && cfg.ldDenom == Some(env.funds[0].denom)
              && Quote(w, cfg, env).Ok?
              && TokenId(w.core.batchId, sender, |w.core.batches[w.core.batchId].unbondItems| + 1) !in w.vouchers
    ensures UnbondStep(w, cfg, env, sender).Ok? ==>
              var w', id, amount := UnbondStep(w, cfg, env, sender).value, w.core.batchId, env.funds[0].amount;
              var b, expected := w.core.batches[id], MulFloor(amount, Quote(w, cfg, env).value);
              && w'.core.batches == w.core.batches[id := b.(
                                      unbondItems := b.unbondItems + [UnbondItem(sender, amount, expected)],
                                      totalAmount := b.totalAmount + amount,
                                      expectedAmount := b.expectedAmount + expected)]
              && w'.vouchers == w.vouchers[TokenId(id, sender, |b.unbondItems| + 1) := Voucher(id, amount, expected)]
              && w'.bank == w.bank.(ldSupply := w.bank.ldSupply - amount)
  {
    NewestIsStored(w);
    UnbondCases(w, cfg, env, sender);
  }

  lemma NewestIsStored(w: World)
    requires Inv(w)
    ensures w.core.batchId in w.core.batches
  {
  }

  lemma UnbondCases(w: World, cfg: Config, env: Env, sender: string)
    requires w.core.batchId in w.core.batches
    ensures var token := TokenId(w.core.batchId, sender, |w.core.batches[w.core.batchId].unbondItems| + 1);
            UnbondStep(w, cfg, env, sender).Ok? <==>
              && |env.funds| == 1 && 0 < env.funds[0].amount <= w.bank.ldSupply
              && cfg.ldDenom == Some(env.funds[0].denom)
              && Quote(w, cfg, env).Ok? && token !in w.vouchers
  {
    var e := env.(bank := w.bank);
    if CoreSpec.Unbond(w.core, cfg, e, sender).Ok? {
      var (core, item) := CoreSpec.Unbond(w.core, cfg, e, sender).value;
      assert |core.batches[w.core.batchId].unbondItems| == |w.core.batches[w.core.batchId].unbondItems| + 1;
    }
  }

  // ---------------------------------------------------------------- the bond limit

  /** What the successful bonds of a run brought. */
  ghost function BondedBy(w: World, cfg: Config, steps: seq<Step>): nat
    decreases |steps|
  {
    if steps == [] then 0
    else (if steps[0].Bond? && |steps[0].env.funds| > 0 && Try(w, cfg, steps[0]).Ok?
          then steps[0].env.funds[0].amount else 0)
         + BondedBy(Next(w, cfg, steps[0]), cfg, steps[1..])
  }

  lemma OtherStepsBondNothing(w: World, cfg: Config, step: Step)
    requires !step.Bond?
    ensures Next(w, cfg, step).core.bondedAmount == w.core.bondedAmount
  {
    if Try(w, cfg, step).Ok? && step.Tick? {
      TickSubmits(w, cfg, step.env, step.submitSucceeds);
      TickKeepsMarks(w.core, cfg, step.env.(bank := w.bank));
    }
  }

  /** The bonded amount adds up all bonds of a run, base coins and shares alike, and never
      exceeds a configured limit. */
  lemma {:induction false} BondedWithinLimit(w: World, cfg: Config, steps: seq<Step>)
    requires WithinLimit(cfg, w.core.bondedAmount)
    ensures var bonded := Run(w, cfg, steps).core.bondedAmount;
            bonded == w.core.bondedAmount + BondedBy(w, cfg, steps) && WithinLimit(cfg, bonded)
    decreases |steps|
  {
    if steps != [] {
      if steps[0].Bond? { BondAcceptedIff(w, cfg, steps[0].env, steps[0].trace); }
      else { OtherStepsBondNothing(w, cfg, steps[0]); }
      BondedWithinLimit(Next(w, cfg, steps[0]), cfg, steps[1..]);
    }
  }

  /** What a tick leaves alone. */
  lemma TickKeepsMarks(c: Core, cfg: Config, env: Env)
    requires CoreSpec.Tick(c, cfg, env).Ok?
    ensures var d := CoreSpec.Tick(c, cfg, env).value.core;
            && d.bondedAmount == c.bondedAmount
            && d.lastIcaBalanceChangeHeight == c.lastIcaBalanceChangeHeight && d.lastLsmRedeem == c.lastLsmRedeem
  {
    match c.fsm
    case Idle => if IsLong(c, cfg, env.now) { LongTickKeepsMarks(c, cfg, env); }
    case Claiming =>
      AfterClaimingKeepsMarks(CoreSpec.FinishClaim(c.(lastResponse := None), c.lastResponse.value).value, cfg, env);
    case _ =>
  }

  lemma AfterClaimingKeepsMarks(c: Core, cfg: Config, env: Env)
    requires CoreSpec.AfterClaiming(c, cfg, env).Ok?
    ensures var d := CoreSpec.AfterClaiming(c, cfg, env).value.core;
            && d.bondedAmount == c.bondedAmount
            && d.lastIcaBalanceChangeHeight == c.lastIcaBalanceChangeHeight && d.lastLsmRedeem == c.lastLsmRedeem
  {
  }

  lemma LongTickKeepsMarks(c: Core, cfg: Config, env: Env)
    requires IsLong(c, cfg, env.now) && CoreSpec.Tick(c, cfg, env).Ok?
    ensures var d := CoreSpec.Tick(c, cfg, env).value.core;
            && d.bondedAmount == c.bondedAmount
            && d.lastIcaBalanceChangeHeight == c.lastIcaBalanceChangeHeight && d.lastLsmRedeem == c.lastLsmRedeem
  {
    var c1 := c.(exchangeRate := Some(CoreSpec.ExchangeRate(c, cfg, env, 0).value));
    var r := CoreSpec.PrepareTransfer(c1.batches, CoreSpec.ReadyIds(c1, env), cfg, cfg.pumpAddress.value,
                                      env.reports.icaBalance);
    var c2 := c1.(batches := r.value.0, fsm := Claiming);
    if CoreSpec.ValidatorsToClaim(env.reports.validators, env.reports.delegations) == [] {
      AfterClaimingKeepsMarks(c2, cfg, env);
    }
  }

  // ---------------------------------------------------------------- messages and acknowledgements

  /** The one attached coin that is not a fee. */
  predicate IsOnlyCoin(funds: seq<Coin>, i: int) {
    && 0 <= i < |funds| && funds[i].denom != "untrn"
    && forall j :: 0 <= j < |funds| && j != i ==> funds[j].denom == "untrn"
  }

  lemma {:induction false} OnlyCoinIff(funds: seq<Coin>)
    ensures |PuppeteerSpec.MessageFunds(funds)| == 0 <==> forall j :: 0 <= j < |funds| ==> funds[j].denom == "untrn"
    ensures |PuppeteerSpec.MessageFunds(funds)| == 1 <==> exists i :: IsOnlyCoin(funds, i)
    ensures forall i | IsOnlyCoin(funds, i) :: PuppeteerSpec.MessageFunds(funds) == [funds[i]]
  {
    if funds != [] {
      OnlyCoinIff(funds[1..]);
      var rest := PuppeteerSpec.MessageFunds(funds[1..]);
      if funds[0].denom == "untrn" {
        assert forall i | 0 < i :: IsOnlyCoin(funds, i) <==> IsOnlyCoin(funds[1..], i - 1);
        if |rest| == 1 {
          var i :| IsOnlyCoin(funds[1..], i);
          assert IsOnlyCoin(funds, i + 1);
        }
      } else {
        assert forall i | IsOnlyCoin(funds, i) :: i == 0;
        if |rest| == 0 { assert IsOnlyCoin(funds, 0); }
        if i :| IsOnlyCoin(funds, i) {
          forall j | 0 <= j < |funds[1..]| ensures funds[1..][j].denom == "untrn" {
            assert funds[j + 1].denom == "untrn";
          }
        }
      }
    }
  }

  /** The puppeteer takes a message exactly when it is idle and its account is registered, and
      for a transfer when one coin besides the fee is attached, which is what it then sends. */
  lemma MessageAcceptedIff(p: Puppeteer, msg: PuppeteerMsg)
    ensures PuppeteerSpec.Execute(p, msg).Ok? <==>
              && p.tx.status == TxIdle && p.ica.Registered?
              && (msg.SendFunds? ==> exists i :: IsOnlyCoin(msg.funds, i))
    ensures PuppeteerSpec.Execute(p, msg).Ok? ==>
              var p' := PuppeteerSpec.Execute(p, msg).value;
              && p'.ica == p.ica && p'.tx.status == TxInProgress && p'.tx.seqId.None? && p'.tx.transaction.Some?
              && (msg.Submit? ==> p'.tx.transaction == Some(msg.tx))
              && (msg.SendFunds? ==> forall i | IsOnlyCoin(msg.funds, i) ::
                    p'.tx.transaction == Some(IbcTransfer(msg.funds[i].denom, msg.funds[i].amount, msg.reason)))
  {
    if msg.SendFunds? { OnlyCoinIff(msg.funds); }
  }

  /** The failures that send core back to Idle. */
  predicate SendsBack(tx: Transaction) {
    tx.Transfer? || tx.RedeemShares? || tx.ClaimRewards? || (tx.IbcTransfer? && tx.reason == LsmShare)
  }

  /** What an acknowledgement leaves: a free slot, the answer with its transaction, the marks of
      a success, Idle after some failures, and a lost account after a timeout. */
  lemma AckLeaves(w: World, cfg: Config, env: Env, seqId: nat, ack: Ack)
    requires Inv(w) && seqId in w.outstanding
    ensures DeliverStep(w, env, seqId, ack).Err?
            <==> !ack.AckSuccess? && w.core.fsm.Idle? && SendsBack(w.submitted[seqId])
    ensures DeliverStep(w, env, seqId, ack).Ok? ==>
              var w', tx := DeliverStep(w, env, seqId, ack).value, w.submitted[seqId];
              && w'.puppeteer
                 == Puppeteer(TxState(TxIdle, None, None), if ack.AckTimeout? then TimedOut else w.puppeteer.ica)
              && w'.submitted == w.submitted && SameBatches(w.core, w'.core)
              && w'.core.lastResponse == Some(if ack.AckSuccess? then Success(tx) else Failure(tx))
              && w'.core.fsm == (if !ack.AckSuccess? && SendsBack(tx) then Idle else w.core.fsm)
              && w'.core.lastIcaBalanceChangeHeight
                 == (if ack.AckSuccess? then env.height else w.core.lastIcaBalanceChangeHeight)
              && w'.core.lastLsmRedeem
                 == (if ack.AckSuccess? && tx.RedeemShares? then env.now else w.core.lastLsmRedeem)
              && (!ack.AckSuccess? ==> SameShares(w.core, w'.core))
  {
    AckRevertsIff(w, env, seqId, ack);
    ChannelInvariant.AckIsForStoredTransaction(w, seqId);
    var tx := w.submitted[seqId];
    HookLeaves(w.core, env.(bank := w.bank), if ack.AckSuccess? then Success(tx) else Failure(tx));
  }

  lemma HookLeaves(c: Core, env: Env, hook: Hook)
    ensures CoreSpec.PuppeteerHook(c, env, hook).Ok? ==>
              var d, tx := CoreSpec.PuppeteerHook(c, env, hook).value, hook.tx;
              && SameBatches(c, d) && d.lastResponse == Some(hook)
              && d.fsm == (if hook.Failure? && SendsBack(tx) then Idle else c.fsm)
              && d.lastIcaBalanceChangeHeight == (if hook.Success? then env.height else c.lastIcaBalanceChangeHeight)
              && d.lastLsmRedeem == (if hook.Success? && tx.RedeemShares? then env.now else c.lastLsmRedeem)
              && (hook.Failure? ==> SameShares(c, d))
  {
  }

  /** A tick whose message cannot be submitted is reverted. */
  lemma FailedSubmissionReverts(w: World, cfg: Config, env: Env)
    requires TickStep(w, cfg, env, false).Ok?
    ensures SubmitsNothing(w, TickStep(w, cfg, env, false).value)
    ensures TickStep(w, cfg, env, true) == TickStep(w, cfg, env, false)
  {
  }

  // ---------------------------------------------------------------- after a timeout

  lemma ClosedStep(w: World, cfg: Config, step: Step)
    requires !w.puppeteer.ica.Registered? && !step.OpenAck?
    ensures !Next(w, cfg, step).puppeteer.ica.Registered? && Next(w, cfg, step).submitted == w.submitted
  {
    if Try(w, cfg, step).Ok? && step.Tick? {
      var o := CoreSpec.Tick(w.core, cfg, step.env.(bank := w.bank)).value;
      if o.msg.Some? { MessageAcceptedIff(w.puppeteer, o.msg.value); }
    }
  }

  lemma {:induction false} ClosedRun(w: World, cfg: Config, steps: seq<Step>)
    requires !w.puppeteer.ica.Registered? && forall s | s in steps :: !s.OpenAck?
    ensures Run(w, cfg, steps).submitted == w.submitted
    decreases |steps|
  {
    if steps != [] {
      assert steps[0] in steps;
      ClosedStep(w, cfg, steps[0]);
      ClosedRun(Next(w, cfg, steps[0]), cfg, steps[1..]);
    }
  }

  /** After a timeout nothing is submitted in any run until the account is opened again. */
  lemma TimeoutClosesAccount(w: World, cfg: Config, env: Env, seqId: nat, steps: seq<Step>)
    requires Inv(w) && DeliverStep(w, env, seqId, AckTimeout).Ok? && forall s | s in steps :: !s.OpenAck?
    ensures Run(DeliverStep(w, env, seqId, AckTimeout).value, cfg, steps).submitted == w.submitted
  {
    AckLeaves(w, cfg, env, seqId, AckTimeout);
    ClosedRun(DeliverStep(w, env, seqId, AckTimeout).value, cfg, steps);
  }

  // ---------------------------------------------------------------- after a success

  predicate IsSuccess(s: Step) { s.Deliver? && s.ack.AckSuccess? }

  lemma StepKeepsMarks(w: World, cfg: Config, step: Step)
    requires Inv(w) && !IsSuccess(step)
    ensures var c, d := w.core, Next(w, cfg, step).core;
            d.lastIcaBalanceChangeHeight == c.lastIcaBalanceChangeHeight && d.lastLsmRedeem == c.lastLsmRedeem
  {
    if Try(w, cfg, step).Ok? {
      match step
      case Tick(env, submitSucceeds) =>
        TickSubmits(w, cfg, env, submitSucceeds);
        TickKeepsMarks(w.core, cfg, env.(bank := w.bank));
      case Deliver(seqId, ack, env) => AckLeaves(w, cfg, env, seqId, ack);
      case _ =>
    }
  }

  lemma {:induction false} RunKeepsMarks(w: World, cfg: Config, steps: seq<Step>)
    requires Inv(w) && forall s | s in steps :: !IsSuccess(s)
    ensures var c, d := w.core, Run(w, cfg, steps).core;
            d.lastIcaBalanceChangeHeight == c.lastIcaBalanceChangeHeight && d.lastLsmRedeem == c.lastLsmRedeem
    ensures Inv(Run(w, cfg, steps))
    decreases |steps|
  {
    if steps != [] {
      assert steps[0] in steps;
      StepKeeps(w, cfg, steps[0]);
      StepKeepsMarks(w, cfg, steps[0]);
      RunKeepsMarks(Next(w, cfg, steps[0]), cfg, steps[1..]);
    }
  }

  /** What a tick that submits a delegation or a redeem requires. */
  lemma SubmissionNeeds(w: World, cfg: Config, env: Env, submitSucceeds: bool)
    requires Inv(w) && TickStep(w, cfg, env, submitSucceeds).Ok?
    requires |TickStep(w, cfg, env, submitSucceeds).value.submitted| > |w.submitted|
    ensures var tx := TickStep(w, cfg, env, submitSucceeds).value.submitted[|w.submitted|];
            && (tx.Delegate? ==> cfg.minStakeAmount <= env.reports.icaBalance
                                 && w.core.lastIcaBalanceChangeHeight <= env.reports.height)
            && (tx.RedeemShares? ==> RedeemDue(w.core, cfg, env.now))
  {
    match w.core.fsm
    case Idle =>
      IdleTickTime(w.core, cfg, env.(bank := w.bank));
      if IsLong(w.core, cfg, env.now) { LongTickSubmission(w, cfg, env, submitSucceeds); }
      else { ShortTickSends(w, cfg, env, submitSucceeds); }
    case Claiming =>
      ClaimingTickFinishes(w, cfg, env, submitSucceeds);
      CoinsOrStake(w, cfg, env, submitSucceeds);
    case Transfering => TransferingTickStakes(w, cfg, env, submitSucceeds);
    case Staking => StakingTickUndelegatesIff(w, cfg, env, submitSucceeds);
    case Unbonding => UnbondingTickAnswers(w, cfg, env, submitSucceeds);
  }

  lemma IdleTickTime(c: Core, cfg: Config, env: Env)
    requires c.fsm.Idle? && CoreSpec.Tick(c, cfg, env).Ok?
    ensures c.lastIdleCall <= env.now
  {
  }

  lemma LongTickSubmission(w: World, cfg: Config, env: Env, submitSucceeds: bool)
    requires Inv(w) && IsLong(w.core, cfg, env.now) && TickStep(w, cfg, env, submitSucceeds).Ok?
    requires |TickStep(w, cfg, env, submitSucceeds).value.submitted| > |w.submitted|
    ensures var tx := TickStep(w, cfg, env, submitSucceeds).value.submitted[|w.submitted|];
            && !tx.RedeemShares?
            && (tx.Delegate? ==> cfg.minStakeAmount <= env.reports.icaBalance
                                 && w.core.lastIcaBalanceChangeHeight <= env.reports.height)
  {
    LongTickClaims(w, cfg, env, submitSucceeds);
    if !exists v :: Claimable(env, v) { CoinsOrStake(w, cfg, env, submitSucceeds); }
  }

  lemma CoinsOrStake(w: World, cfg: Config, env: Env, submitSucceeds: bool)
    requires Inv(w) && TickStep(w, cfg, env, submitSucceeds).Ok?
    requires |TickStep(w, cfg, env, submitSucceeds).value.submitted| > |w.submitted|
    requires GoesOn(w, TickStep(w, cfg, env, submitSucceeds).value, cfg, env)
    ensures var tx := TickStep(w, cfg, env, submitSucceeds).value.submitted[|w.submitted|];
            && !tx.RedeemShares?
            && (tx.Delegate? ==> cfg.minStakeAmount <= env.reports.icaBalance
                                 && w.core.lastIcaBalanceChangeHeight <= env.reports.height)
  {
    var w' := TickStep(w, cfg, env, submitSucceeds).value;
    if w.bank.coreBalance > 0 {
      StepKeeps(w, cfg, Tick(env, submitSucceeds));
      assert w' == Next(w, cfg, Tick(env, submitSucceeds));
      SubmittedGrows(w, cfg, Tick(env, submitSucceeds));
      FlightIsExpected(w');
      NewSubmissionIsInFlight(w, w');
    }
  }

  lemma NewSubmissionIsInFlight(w: World, w': World)
    requires ChannelInvariant.Channel(w) && ChannelInvariant.Channel(w') && w'.hooks == w.hooks
    requires |w'.submitted| == |w.submitted| + 1
    ensures w'.outstanding != {}
  {
  }

  /** The marks of a success last until the next one. */
  lemma MarksAfterSuccess(w: World, cfg: Config, seqId: nat, env: Env, steps: seq<Step>)
    requires Inv(w) && seqId in w.outstanding && DeliverStep(w, env, seqId, AckSuccess).Ok?
    requires forall s | s in steps :: !IsSuccess(s)
    ensures var later := Run(DeliverStep(w, env, seqId, AckSuccess).value, cfg, steps);
            && Inv(later) && later.core.lastIcaBalanceChangeHeight == env.height
            && (w.submitted[seqId].RedeemShares? ==> later.core.lastLsmRedeem == env.now)
  {
    AckLeaves(w, cfg, env, seqId, AckSuccess);
    StepKeeps(w, cfg, Deliver(seqId, AckSuccess, env));
    var w1 := DeliverStep(w, env, seqId, AckSuccess).value;
    assert w1 == Next(w, cfg, Deliver(seqId, AckSuccess, env));
    RunKeepsMarks(w1, cfg, steps);
  }

  /** Over any run: after a success acknowledged at some height, a balance is staked only when it
      was reported at that height or later. */
  lemma StakeUsesFreshBalance(w: World, cfg: Config, seqId: nat, ackEnv: Env, steps: seq<Step>, env: Env,
                              submitSucceeds: bool)
    requires Inv(w) && DeliverStep(w, ackEnv, seqId, AckSuccess).Ok? && forall s | s in steps :: !IsSuccess(s)
    requires var later := Run(DeliverStep(w, ackEnv, seqId, AckSuccess).value, cfg, steps);
             && TickStep(later, cfg, env, submitSucceeds).Ok?
             && |TickStep(later, cfg, env, submitSucceeds).value.submitted| > |later.submitted|
             && TickStep(later, cfg, env, submitSucceeds).value.submitted[|later.submitted|].Delegate?
    ensures ackEnv.height <= env.reports.height
  {
    MarksAfterSuccess(w, cfg, seqId, ackEnv, steps);
    SubmissionNeeds(Run(DeliverStep(w, ackEnv, seqId, AckSuccess).value, cfg, steps), cfg, env, submitSucceeds);
  }

  /** Over any run: after a redeem acknowledged as a success at some time, the next one is
      submitted only when the maximum interval has passed. */
  lemma RedeemsKeepInterval(w: World, cfg: Config, seqId: nat, ackEnv: Env, steps: seq<Step>, env: Env,
                            submitSucceeds: bool)
    requires Inv(w) && seqId in w.outstanding && w.submitted[seqId].RedeemShares?
    requires DeliverStep(w, ackEnv, seqId, AckSuccess).Ok? && forall s | s in steps :: !IsSuccess(s)
    requires var later := Run(DeliverStep(w, ackEnv, seqId, AckSuccess).value, cfg, steps);
             && TickStep(later, cfg, env, submitSucceeds).Ok?
             && |TickStep(later, cfg, env, submitSucceeds).value.submitted| > |later.submitted|
             && TickStep(later, cfg, env, submitSucceeds).value.submitted[|later.submitted|].RedeemShares?
    ensures ackEnv.now + cfg.lsmRedeemMaximumInterval <= env.now
  {
    MarksAfterSuccess(w, cfg, seqId, ackEnv, steps);
    SubmissionNeeds(Run(DeliverStep(w, ackEnv, seqId, AckSuccess).value, cfg, steps), cfg, env, submitSucceeds);
  }

  // ---------------------------------------------------------------- fees

  ghost function Collected(c: Core): nat { if c.collectedFees.Some? then c.collectedFees.value.1 else 0 }

  /** What is not delegated of a balance is the fee: the rate times the balance, rounded down.
      With an address for fees it is added to what was collected, for the address that is already
      there or else the configured one; without one it is not booked. */
  ghost predicate FeeBooked(c: Core, d: Core, cfg: Config, balance: nat, delegated: nat) {
    var rate := if cfg.fee.Some? then cfg.fee.value else 0;
    && delegated <= balance
    && (balance - delegated) * ONE <= balance * rate < (balance - delegated) * ONE + ONE
    && if cfg.feeAddress.None? || delegated == balance then d.collectedFees == c.collectedFees
       else && d.collectedFees.Some? && Collected(d) == Collected(c) + (balance - delegated)
            && d.collectedFees.value.0
               == (if c.collectedFees.Some? then c.collectedFees.value.0 else cfg.feeAddress.value)
  }

  lemma StakeBooksFee(c: Core, cfg: Config, env: Env)
    requires CoreSpec.StakeMsg(c, cfg, env).Ok? && Strategy.TotalWeight(env.reports.validators) <= ONE
    ensures var o := CoreSpec.StakeMsg(c, cfg, env).value;
            if o.msg.Some?
            then && o.msg.value.Submit? && o.msg.value.tx.Delegate?
                 && FeeBooked(c, o.core, cfg, env.reports.icaBalance, StakingPlan.SumItems(o.msg.value.tx.items))
            else o.core == c
  {
    if CoreSpec.StakeMsg(c, cfg, env).value.msg.Some? {
      StakingPlan.DelegateSpendsBalance(c, cfg, env);
      FloorBounds(env.reports.icaBalance * (if cfg.fee.Some? then cfg.fee.value else 0), ONE);
    }
  }

  lemma StakeOrUnbondBooksFee(c: Core, cfg: Config, env: Env)
    requires CoreSpec.StakeOrUnbond(c, cfg, env).Ok? && Strategy.TotalWeight(env.reports.validators) <= ONE
    ensures var o := CoreSpec.StakeOrUnbond(c, cfg, env).value;
            if o.msg.Some? && o.msg.value.Submit? && o.msg.value.tx.Delegate?
            then FeeBooked(c, o.core, cfg, env.reports.icaBalance, StakingPlan.SumItems(o.msg.value.tx.items))
            else o.core.collectedFees == c.collectedFees
  {
    StakeBooksFee(c, cfg, env);
  }

  /** Every tick that submits a delegation books its fee, and no other tick changes the fees. */
  lemma TickBooksFee(c: Core, cfg: Config, env: Env)
    requires CoreSpec.Tick(c, cfg, env).Ok? && Strategy.TotalWeight(env.reports.validators) <= ONE
    ensures var o := CoreSpec.Tick(c, cfg, env).value;
            if o.msg.Some? && o.msg.value.Submit? && o.msg.value.tx.Delegate?
            then FeeBooked(c, o.core, cfg, env.reports.icaBalance, StakingPlan.SumItems(o.msg.value.tx.items))
            else o.core.collectedFees == c.collectedFees
  {
    match c.fsm
    case Idle => if IsLong(c, cfg, env.now) { LongTickBooksFee(c, cfg, env); }
    case Claiming => ClaimingTickBooksFee(c, cfg, env);
    case Transfering => StakeOrUnbondBooksFee(c.(lastResponse := None), cfg, env);
    case Staking => UnbondOrIdleFacts(c.(lastResponse := None), cfg, env);
    case Unbonding =>
  }

  lemma ClaimingTickBooksFee(c: Core, cfg: Config, env: Env)
    requires c.fsm.Claiming? && CoreSpec.Tick(c, cfg, env).Ok?
    requires Strategy.TotalWeight(env.reports.validators) <= ONE
    ensures var o := CoreSpec.Tick(c, cfg, env).value;
            if o.msg.Some? && o.msg.value.Submit? && o.msg.value.tx.Delegate?
            then FeeBooked(c, o.core, cfg, env.reports.icaBalance, StakingPlan.SumItems(o.msg.value.tx.items))
            else o.core.collectedFees == c.collectedFees
  {
    var c1 := CoreSpec.FinishClaim(c.(lastResponse := None), c.lastResponse.value).value;
    if env.bank.coreBalance == 0 { StakeOrUnbondBooksFee(c1, cfg, env); }
  }

  lemma LongTickBooksFee(c: Core, cfg: Config, env: Env)
    requires IsLong(c, cfg, env.now) && CoreSpec.Tick(c, cfg, env).Ok?
    requires Strategy.TotalWeight(env.reports.validators) <= ONE
    ensures var o := CoreSpec.Tick(c, cfg, env).value;
            if o.msg.Some? && o.msg.value.Submit? && o.msg.value.tx.Delegate?
            then FeeBooked(c, o.core, cfg, env.reports.icaBalance, StakingPlan.SumItems(o.msg.value.tx.items))
            else o.core.collectedFees == c.collectedFees
  {
    var c1 := c.(exchangeRate := Some(CoreSpec.ExchangeRate(c, cfg, env, 0).value));
    var r := CoreSpec.PrepareTransfer(c1.batches, CoreSpec.ReadyIds(c1, env), cfg, cfg.pumpAddress.value,
                                      env.reports.icaBalance);
    var c2 := c1.(batches := r.value.0, fsm := Claiming);
    if CoreSpec.ValidatorsToClaim(env.reports.validators, env.reports.delegations) == [] && env.bank.coreBalance == 0 {
      StakeOrUnbondBooksFee(c2, cfg, env);
    }
  }
}
