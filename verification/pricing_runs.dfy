/** Runs from the initial state into rates below one, where an unbond lowers the rate or leaves
    none. */
module PricingRuns {
  import opened Results
  import opened FixedPoint
  import opened ProtocolTypes
  import opened ProtocolSpec
  import opened RunViews
  import opened ExchangeRateTheorems

  /** A hundred coins were bonded and staked, and core came to rest. */
  function Resting(): View {
    View(1, Idle, 0, map[0 := NewUnbond(0)], None, None, None, 100, 0, map[], {})
  }

  lemma ToResting() returns (steps: seq<Step>)
    ensures Shows(After(steps), Resting())
  {
    var v := Resting().(coins := 100);
    steps := Opens(100);
    steps := MovesCoins(steps, v);
    v := Resting().(fsm := Transfering, inFlight := Some(Coins));
    steps := Acks(steps, v, true);
    steps := StakesMoved(steps, v.(inFlight := None, last := Some(Answer(true, Coins))), 100);
    steps := Acks(steps, Resting().(fsm := Staking, inFlight := Some(Stakes)), true);
    steps := RestsStaked(steps, Resting());
  }

  /** After a slashing half of the stake is reported. */
  function Slashed(amount: nat): Env { At(1, [Coin("ld", amount)], 0, Staked(50)) }

  /** What is left after an unbond at the rate of one half. */
  lemma UnbondsSlashed(w: World, amount: nat)
    requires Shows(w, Resting()) && 0 < amount < 100
    ensures Rate(w, Slashed(amount)) == Ok(Ratio(50, 100)) && UnbondStep(w, CFG, Slashed(amount), "alice").Ok?
    ensures Rate(UnbondStep(w, CFG, Slashed(amount), "alice").value, Slashed(amount))
         == if amount <= 50 then Ok(Ratio(50 - amount, 100 - amount)) else Err(Overflow)
  {
    RateIs(w, Resting(), Slashed(amount), 50);
    Reported(50);
  }

  /** In this state the quoted rate is below one, and unbonding ten ld tokens lowers it. */
  lemma RateFallIsReachable()
    ensures exists steps ::
              var w, env := After(steps), Slashed(10);
              && w.core.fsm.Idle? && Rate(w, env).Ok? && Rate(w, env).value < ONE
              && UnbondStep(w, CFG, env, "alice").Ok?
              && Rate(UnbondStep(w, CFG, env, "alice").value, env).Ok?
              && Rate(UnbondStep(w, CFG, env, "alice").value, env).value < Rate(w, env).value
  {
    var steps := ToResting();
    UnbondsSlashed(After(steps), 10);
    assert Ratio(40, 90) < Ratio(50, 100) < ONE;
  }

  /** Without a rate nothing can be bonded or unbonded and no idle tick succeeds, as long as the
      reports stay as they are. */
  lemma NothingWithoutRate(w: World, cfg: Config, env: Env)
    requires w.core.fsm.Idle? && w.bank.ldSupply > 0 && Rate(w, env).Err?
    ensures forall trace :: BondStep(w, cfg, env, trace).Err?
    ensures forall sender :: UnbondStep(w, cfg, env, sender).Err?
    ensures forall submitSucceeds :: TickStep(w, cfg, env, submitSucceeds).Err?
  {
    forall trace ensures BondStep(w, cfg, env, trace).Err? {
      if BondStep(w, cfg, env, trace).Ok? { BondPricedAtOldRate(w, cfg, env, trace); }
    }
  }

  /** Unbonding sixty ld tokens instead leaves no rate. */
  lemma LostRateIsReachable()
    ensures exists steps ::
              var w, env := After(steps), Slashed(60);
              && w.core.fsm.Idle? && Rate(w, env).Ok? && Rate(w, env).value < ONE
              && UnbondStep(w, CFG, env, "alice").Ok?
              && LeavesNoRate(UnbondStep(w, CFG, env, "alice").value, env)
  {
    var steps := ToResting();
    UnbondsSlashed(After(steps), 60);
    UnbondLeaves(After(steps));
    assert Ratio(50, 100) < ONE;
    assert LeavesNoRate(UnbondStep(After(steps), CFG, Slashed(60), "alice").value, Slashed(60));
  }

  /** As `NothingWithoutRate` requires. */
  ghost predicate LeavesNoRate(w: World, env: Env) {
    w.core.fsm.Idle? && w.bank.ldSupply > 0 && Rate(w, env) == Err(Overflow)
  }

  lemma UnbondLeaves(w: World)
    requires Shows(w, Resting()) && UnbondStep(w, CFG, Slashed(60), "alice").Ok?
    ensures var w' := UnbondStep(w, CFG, Slashed(60), "alice").value; w'.core.fsm.Idle? && w'.bank.ldSupply == 40
  {
  }
}
