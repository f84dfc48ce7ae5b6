/** The LSM share ledgers of core balance because of the single slot of the puppeteer. */
module LsmInvariant {
  import opened Results
  import opened ShareLedger
  import opened ProtocolTypes
  import opened ProtocolSpec
  import opened TickFacts
  import KeyOrder
  import CoreSpec
  import PuppeteerSpec
  import ChannelInvariant

  /** The total is what is pending plus what waits for redemption. */
  ghost predicate Balanced(c: Core) {
    && c.totalLsmShares == Total(c.pendingLsmShares) + Total(c.lsmSharesToRedeem)
    && LOCAL_DENOM !in c.pendingLsmShares
  }

  /** A redeem in flight lists the whole redeem ledger; an LSM share transfer in flight moves
      at most what is pending in its denom. */
  ghost predicate Covered(c: Core, inFlight: Option<Transaction>) {
    match inFlight
    case Some(RedeemShares(items)) => items == RedeemItems(c.lsmSharesToRedeem)
    case Some(IbcTransfer(denom, amount, LsmShare)) =>
      denom in c.pendingLsmShares && amount <= c.pendingLsmShares[denom].amount
    case _ => true
  }

  ghost predicate Lsm(w: World) {
    Balanced(w.core) && Covered(w.core, w.puppeteer.tx.transaction)
  }

  lemma BondKeepsLsm(c: Core, cfg: Config, coin: Coin, trace: Option<string>, inFlight: Option<Transaction>)
    requires Balanced(c) && Covered(c, inFlight)
    requires CoreSpec.BondShares(c, cfg, coin, trace).Ok?
    ensures Balanced(CoreSpec.BondShares(c, cfg, coin, trace).value)
    ensures Covered(CoreSpec.BondShares(c, cfg, coin, trace).value, inFlight)
  {
    if trace.Some? { TotalOfCredit(c.pendingLsmShares, coin.denom, trace.value, coin.amount); }
  }

  /** A hook for the transaction in flight keeps the books, and no subtraction underflows:
      only the machine's own refusal to return to Idle can revert it. */
  lemma HookKeepsLsm(c: Core, env: Env, hook: Hook)
    requires Balanced(c) && Covered(c, Some(hook.tx))
    ensures var r := CoreSpec.PuppeteerHook(c, env, hook);
            && (r.Ok? ==> Balanced(r.value))
            && (r.Err? <==> hook.Failure? && CoreSpec.ReturnsToIdle(hook.tx) && !CoreSpec.Allowed(c.fsm, Idle))
  {
    match hook
    case Failure(_) =>
    case Success(RedeemShares(items)) => RedeemItemsCoverLedger(c.lsmSharesToRedeem);
    case Success(IbcTransfer(denom, amount, LsmShare)) =>
      TotalOfDebit(c.pendingLsmShares, denom, amount);
      TotalOfCredit(c.lsmSharesToRedeem, denom, c.pendingLsmShares[denom].remoteDenom, amount);
    case Success(_) =>
  }

  /** A successful redeem empties the redeem ledger; the total keeps what is pending. */
  lemma RedeemEmptiesLedger(c: Core, env: Env, items: seq<RedeemItem>)
    requires Balanced(c) && Covered(c, Some(RedeemShares(items)))
    ensures var r := CoreSpec.PuppeteerHook(c, env, Success(RedeemShares(items)));
            && r.Ok?
            && r.value.lsmSharesToRedeem == map[]
            && r.value.totalLsmShares == Total(c.pendingLsmShares)
            && r.value.pendingLsmShares == c.pendingLsmShares
  {
    RedeemItemsCoverLedger(c.lsmSharesToRedeem);
  }

  lemma TickKeepsShares(c: Core, cfg: Config, env: Env)
    requires CoreSpec.Tick(c, cfg, env).Ok?
    ensures SameShares(c, CoreSpec.Tick(c, cfg, env).value.core)
  {
    match c.fsm
    case Idle =>
      var c1 := c.(exchangeRate := Some(CoreSpec.ExchangeRate(c, cfg, env, 0).value));
      if env.now - c.lastIdleCall >= cfg.idleMinInterval { IdleExcursionFacts(c1, cfg, env); }
    case Claiming =>
      AfterClaimingFacts(CoreSpec.FinishClaim(c.(lastResponse := None), c.lastResponse.value).value, cfg, env);
    case Transfering => StakeOrUnbondFacts(c.(lastResponse := None), cfg, env);
    case Staking => UnbondOrIdleFacts(c.(lastResponse := None), cfg, env);
    case Unbonding =>
  }

  /** The transaction a tick's message turns into is covered by the ledgers. */
  lemma TickMessageCovered(c: Core, cfg: Config, env: Env)
    requires Balanced(c) && CoreSpec.Tick(c, cfg, env).Ok?
    requires CoreSpec.Tick(c, cfg, env).value.msg.Some?
    requires PuppeteerSpec.TransactionOf(CoreSpec.Tick(c, cfg, env).value.msg.value).Ok?
    ensures Covered(c, Some(PuppeteerSpec.TransactionOf(CoreSpec.Tick(c, cfg, env).value.msg.value).value))
  {
    var msg := CoreSpec.Tick(c, cfg, env).value.msg.value;
    match c.fsm
    case Idle =>
      var c1 := c.(exchangeRate := Some(CoreSpec.ExchangeRate(c, cfg, env, 0).value));
      if env.now - c.lastIdleCall >= cfg.idleMinInterval {
        IdleExcursionFacts(c1, cfg, env);
      } else if msg.SendFunds? {
        var denom := KeyOrder.Least(c.pendingLsmShares.Keys);
        assert msg.funds[0] == Coin(denom, c.pendingLsmShares[denom].amount);
      }
    case Claiming =>
      AfterClaimingFacts(CoreSpec.FinishClaim(c.(lastResponse := None), c.lastResponse.value).value, cfg, env);
    case Transfering => StakeOrUnbondFacts(c.(lastResponse := None), cfg, env);
    case Staking => UnbondOrIdleFacts(c.(lastResponse := None), cfg, env);
    case Unbonding =>
  }

  lemma TickStepKeepsLsm(w: World, cfg: Config, env: Env, submitSucceeds: bool)
    requires ChannelInvariant.Channel(w) && Lsm(w) && TickStep(w, cfg, env, submitSucceeds).Ok?
    ensures Lsm(TickStep(w, cfg, env, submitSucceeds).value)
  {
    var e := env.(bank := w.bank);
    TickKeepsShares(w.core, cfg, e);
    if CoreSpec.Tick(w.core, cfg, e).value.msg.Some? { TickMessageCovered(w.core, cfg, e); }
  }

  lemma BondStepKeepsLsm(w: World, cfg: Config, env: Env, trace: Option<string>)
    requires Lsm(w) && BondStep(w, cfg, env, trace).Ok?
    ensures Lsm(BondStep(w, cfg, env, trace).value)
  {
    var coin := env.funds[0];
    var c := w.core.(bondedAmount := w.core.bondedAmount + coin.amount);
    BondKeepsLsm(c, cfg, coin, trace, w.puppeteer.tx.transaction);
  }

  /** Every step of the protocol keeps the ledgers balanced and the flight covered. */
  lemma StepKeepsLsm(w: World, cfg: Config, step: Step)
    requires ChannelInvariant.Channel(w) && Lsm(w)
    ensures Lsm(Next(w, cfg, step))
  {
    if Try(w, cfg, step).Ok? {
      match step
      case Bond(env, trace) => BondStepKeepsLsm(w, cfg, env, trace);
      case Tick(env, submitSucceeds) => TickStepKeepsLsm(w, cfg, env, submitSucceeds);
      case Deliver(seqId, ack, env) =>
        HookKeepsLsm(w.core, env.(bank := w.bank), PuppeteerSpec.Sudo(w.puppeteer, ack).value.1);
      case _ =>
    }
  }
}
