/** The state of core names the transaction in flight, and a response read with nothing in
    flight is the answer to that transaction. */
module MachineInvariant {
  import opened Results
  import opened ProtocolTypes
  import opened ProtocolSpec
  import opened TickFacts
  import opened ChannelInvariant
  import CoreSpec
  import PuppeteerSpec

  /** The transaction whose response a state waits for. */
  ghost predicate Expected(state: ContractState, tx: Transaction) {
    match state
    case Idle => !tx.Undelegate?
    case Claiming => tx.ClaimRewards?
    case Transfering => tx.IbcTransfer? && tx.reason.Stake?
    case Staking => tx.Delegate?
    case Unbonding => tx.Undelegate?
  }

  ghost predicate Machine(w: World) {
    var c, inFlight := w.core, w.puppeteer.tx.transaction;
    && (inFlight.Some? ==> Expected(c.fsm, inFlight.value))
    && (!c.fsm.Idle? ==> c.exchangeRate.Some?)
    && (!c.fsm.Idle? && inFlight.None? ==> Fresh(c))
    && (c.fsm.Unbonding? ==> UnbondsLastBatch(c, inFlight))
  }

  /** The stored response answers the transaction of the current state. */
  ghost predicate Fresh(c: Core) {
    && c.lastResponse.Some?
    && Expected(c.fsm, c.lastResponse.value.tx)
    && (c.fsm.Claiming? ==> c.lastResponse.value.Success?)
  }

  /** In Unbonding the undelegation of the batch before the newest one is in flight and no
      response is stored, or it is not in flight and its response is stored. */
  ghost predicate UnbondsLastBatch(c: Core, inFlight: Option<Transaction>) {
    match inFlight
    case Some(tx) => c.lastResponse.None? && tx.Undelegate? && tx.batchId + 1 == c.batchId
    case None => c.lastResponse.Some? && c.lastResponse.value.tx.Undelegate?
                 && c.lastResponse.value.tx.batchId + 1 == c.batchId
  }

  /** Where a tick can lead and what it leaves stored. */
  ghost predicate TickLandsIn(c: Core, o: CoreSpec.Outcome) {
    && (o.core.fsm.Idle? && o.msg.Some? ==> c.fsm.Idle? && !(o.msg.value.Submit? && o.msg.value.tx.Undelegate?))
    && (!o.core.fsm.Idle? ==> Announced(o.core.fsm, o.msg) && o.core.exchangeRate.Some?)
    && (o.core.fsm.Unbonding? ==>
          o.core.lastResponse.None? && o.msg.value.tx.batchId + 1 == o.core.batchId)
    && (!c.fsm.Idle? ==> o.core.exchangeRate == c.exchangeRate && c.lastResponse.Some?)
  }

  lemma TickLands(c: Core, cfg: Config, env: Env)
    requires CoreSpec.Tick(c, cfg, env).Ok?
    requires !c.fsm.Idle? ==> c.exchangeRate.Some?
    ensures TickLandsIn(c, CoreSpec.Tick(c, cfg, env).value)
  {
    match c.fsm
    case Idle =>
      var c1 := c.(exchangeRate := Some(CoreSpec.ExchangeRate(c, cfg, env, 0).value));
      if env.now - c.lastIdleCall >= cfg.idleMinInterval { IdleExcursionFacts(c1, cfg, env); }
    case Claiming =>
      AfterClaimingFacts(CoreSpec.FinishClaim(c.(lastResponse := None), c.lastResponse.value).value, cfg, env);
    case Transfering => StakeOrUnbondFacts(c.(lastResponse := None), cfg, env);
    case Staking => UnbondOrIdleFacts(c.(lastResponse := None), cfg, env);
    case Unbonding =>
  }

  lemma TickKeepsMachine(w: World, cfg: Config, env: Env, submitSucceeds: bool)
    requires Channel(w) && Machine(w) && TickStep(w, cfg, env, submitSucceeds).Ok?
    ensures Machine(TickStep(w, cfg, env, submitSucceeds).value)
  {
    TickLands(w.core, cfg, env.(bank := w.bank));
  }

  lemma DeliverKeepsMachine(w: World, env: Env, seqId: nat, ack: Ack)
    requires Channel(w) && Machine(w) && DeliverStep(w, env, seqId, ack).Ok?
    ensures Machine(DeliverStep(w, env, seqId, ack).value)
  {
    var hook := PuppeteerSpec.Sudo(w.puppeteer, ack).value.1;
    assert w.puppeteer.tx.transaction == Some(hook.tx);
    HookMoves(w.core, env.(bank := w.bank), hook);
  }

  /** A hook changes the machine state only when it sends core back to Idle. */
  lemma HookMoves(c: Core, env: Env, hook: Hook)
    requires CoreSpec.PuppeteerHook(c, env, hook).Ok?
    ensures var d := CoreSpec.PuppeteerHook(c, env, hook).value;
            && d.fsm == (if hook.Failure? && CoreSpec.ReturnsToIdle(hook.tx) then Idle else c.fsm)
            && d.lastResponse == Some(hook)
            && d.exchangeRate == c.exchangeRate
            && SameBatches(c, d)
  {
  }

  lemma BondMoves(c: Core, cfg: Config, env: Env, trace: Option<string>)
    requires CoreSpec.Bond(c, cfg, env, trace).Ok?
    ensures var d := CoreSpec.Bond(c, cfg, env, trace).value.0;
            SameBatches(c, d) && d.fsm == c.fsm && d.lastResponse == c.lastResponse && d.exchangeRate == c.exchangeRate
  {
  }

  lemma StepKeepsMachine(w: World, cfg: Config, step: Step)
    requires Channel(w) && Machine(w)
    ensures Machine(Next(w, cfg, step))
  {
    if Try(w, cfg, step).Ok? {
      match step
      case Bond(env, trace) => BondMoves(w.core, cfg, env.(bank := CreditBond(w.bank, cfg, env.funds)), trace);
      case Tick(env, submitSucceeds) => TickKeepsMachine(w, cfg, env, submitSucceeds);
      case Deliver(seqId, ack, env) => DeliverKeepsMachine(w, env, seqId, ack);
      case _ =>
    }
  }

  // ---------------------------------------------------------------- consequences

  /** A tick outside Idle that succeeds before its transaction is acknowledged sends nothing
      and only falls back to Idle. */
  lemma EarlyTickFallsBack(w: World, cfg: Config, env: Env, submitSucceeds: bool)
    requires Channel(w) && Machine(w) && !w.core.fsm.Idle? && w.outstanding != {}
    requires TickStep(w, cfg, env, submitSucceeds).Ok?
    ensures var w' := TickStep(w, cfg, env, submitSucceeds).value;
            && w'.core.fsm.Idle? && w'.submitted == w.submitted && w'.outstanding == w.outstanding
            && !w.core.fsm.Unbonding?
  {
    TickLands(w.core, cfg, env.(bank := w.bank));
  }

  /** The two checks that answer `InvalidTransaction`. In Unbonding it cannot happen. In
      Claiming it happens exactly when the success of another transaction is stored, and then
      the claim is still in flight. */
  lemma InvalidTransactionIff(w: World, cfg: Config, env: Env)
    requires Channel(w) && Machine(w) && w.core.lastResponse.Some?
    ensures w.core.fsm.Unbonding? ==>
              CoreSpec.FinishUnbond(w.core, cfg, env, w.core.lastResponse.value) != Err(InvalidTransaction)
    ensures var c, response := w.core, w.core.lastResponse.value;
            var stale := response.Success? && !response.tx.ClaimRewards?;
            c.fsm.Claiming? ==>
              && (CoreSpec.FinishClaim(c.(lastResponse := None), response) == Err(InvalidTransaction) <==> stale)
              && (stale ==> w.puppeteer.tx.status == TxWaitingForAck && w.puppeteer.tx.transaction.value.ClaimRewards?)
  {
    match w.core.lastResponse.value
    case Success(ClaimRewards(_, Some(t))) => MarkWithdrawnErrors(w.core.batches, t.batchIds, t.emergency);
    case _ =>
  }

  lemma {:induction false} MarkWithdrawnErrors(batches: map<nat, UnbondBatch>, ids: seq<nat>, emergency: bool)
    ensures CoreSpec.MarkWithdrawn(batches, ids, emergency) != Err(InvalidTransaction)
  {
    if ids != [] && ids[0] in batches {
      var status := if emergency then WithdrawnEmergency else Withdrawn;
      MarkWithdrawnErrors(batches[ids[0] := batches[ids[0]].(status := status)], ids[1..], emergency);
    }
  }
}
