/** The exchange rate over runs of bonds and unbonds while core is Idle. */
module RateOverRuns {
  import opened Results
  import opened FixedPoint
  import opened ProtocolTypes
  import opened ProtocolSpec
  import opened ExchangeRateTheorems
  import opened ProtocolTheorems
  import CoreSpec
  import Strategy
  import BatchInvariant

  /** In every reachable Idle state the unprocessed unbonds are those of the newest batch and
      of the failed one: no request is open, so that branch of the formula is never taken. */
  lemma UnprocessedWhileIdle(w: World)
    requires Inv(w) && w.core.fsm.Idle?
    ensures var c := w.core;
            var failed := if c.failedBatchId.Some? then c.batches[c.failedBatchId.value].totalAmount else 0;
            CoreSpec.UnprocessedUnbonds(c) == Ok(c.batches[c.batchId].totalAmount + failed)
  {
    var c := w.core;
    assert BatchInvariant.Fits(c.batches[c.batchId], c.batchId, c.batchId, false, c.failedBatchId);
    if c.batchId > 0 {
      assert BatchInvariant.Fits(c.batches[c.batchId - 1], c.batchId - 1, c.batchId, false, c.failedBatchId);
    }
  }

  /** Bonds and unbonds that all see the same delegations. */
  ghost predicate Trades(steps: seq<Step>, entries: seq<Strategy.DelegationEntry>) {
    forall s | s in steps :: (s.Bond? || s.Unbond?) && s.env.reports.delegations == entries
  }

  ghost predicate OnlyBonds(steps: seq<Step>) { forall s | s in steps :: s.Bond? }

  /** Some ld tokens exist in every state of the run. */
  ghost predicate SupplyStays(w: World, cfg: Config, steps: seq<Step>)
    decreases |steps|
  {
    w.bank.ldSupply > 0 && (steps == [] || SupplyStays(Next(w, cfg, steps[0]), cfg, steps[1..]))
  }

  lemma SameDelegationsSameRate(w: World, a: Env, b: Env)
    requires a.reports.delegations == b.reports.delegations
    ensures Rate(w, a) == Rate(w, b)
  {
  }

  lemma TradeKeepsRate(w: World, cfg: Config, step: Step, env: Env)
    requires Inv(w) && w.core.fsm.Idle? && w.bank.ldSupply > 0 && Next(w, cfg, step).bank.ldSupply > 0
    requires (step.Bond? || step.Unbond?) && step.env.reports.delegations == env.reports.delegations
    requires Rate(w, env).Ok? && (step.Bond? || Rate(w, env).value >= ONE)
    ensures var w' := Next(w, cfg, step);
            w'.core.fsm.Idle? && Rate(w', env).Ok? && Rate(w', env).value >= Rate(w, env).value
  {
    if Try(w, cfg, step).Ok? {
      SameDelegationsSameRate(w, env, step.env);
      SameDelegationsSameRate(Next(w, cfg, step), env, step.env);
      match step
      case Bond(e, trace) =>
        BondKeepsRate(w, cfg, e, trace);
        BondPricedAtOldRate(w, cfg, e, trace);
      case Unbond(e, sender) =>
        var c := w.core;
        assert BatchInvariant.Fits(c.batches[c.batchId], c.batchId, c.batchId, false, c.failedBatchId);
        UnprocessedWhileIdle(w);
        UnbondKeepsRate(w, cfg, e, sender);
        UnbondMoves(w, cfg, e, sender);
    }
  }

  /** No run of bonds lowers the rate; with a rate of at least one, no run of bonds and
      unbonds does, whatever the roundings. */
  lemma {:induction false} TradesNeverLowerRate(w: World, cfg: Config, steps: seq<Step>, env: Env)
    requires Inv(w) && w.core.fsm.Idle? && Trades(steps, env.reports.delegations) && SupplyStays(w, cfg, steps)
    requires Rate(w, env).Ok? && (OnlyBonds(steps) || Rate(w, env).value >= ONE)
    ensures var w' := Run(w, cfg, steps);
            Rate(w', env).Ok? && Rate(w', env).value >= Rate(w, env).value
    decreases |steps|
  {
    if steps != [] {
      var w1 := Next(w, cfg, steps[0]);
      assert steps[0] in steps;
      StepKeeps(w, cfg, steps[0]);
      TradeKeepsRate(w, cfg, steps[0], env);
      TradesNeverLowerRate(w1, cfg, steps[1..], env);
    }
  }
}
