/** Pricing: what bonds and unbonds do to the exchange rate, and to one holder. */
module ExchangeRateTheorems {
  import opened Results
  import opened FixedPoint
  import opened ProtocolTypes
  import opened ProtocolSpec
  import CoreSpec
  import Strategy

  // ---------------------------------------------------------------- one holder

  /** Bonding an amount and unbonding what was issued, both at rate r / 10^18, promises at
      most the amount and at least amount - amount * r / 10^36 - r / 10^18 - 1. */
  lemma RoundTrip(amount: nat, r: nat)
    requires r > 0
    ensures CoreSpec.IssueAmount(amount, r).Ok?
    ensures var back := MulFloor(CoreSpec.IssueAmount(amount, r).value, r);
            && back <= amount
            && amount * ONE * ONE <= (back + 1) * ONE * ONE + amount * r + r * ONE
  {
    var q := Ratio(ONE, r);
    var issue := MulFloor(amount, q);
    var back := MulFloor(issue, r);
    FloorBounds(ONE * ONE, r);
    FloorBounds(amount * q, ONE);
    FloorBounds(issue * r, ONE);
    RoundTripUpper(amount, r, q, issue, back);
    RoundTripLower(amount, r, q, issue, back);
  }

  lemma RoundTripUpper(amount: nat, r: nat, q: nat, issue: nat, back: nat)
    requires q * r <= ONE * ONE && issue * ONE <= amount * q && back * ONE <= issue * r
    ensures back <= amount
  {
    MulLe(issue * ONE, amount * q, r);
    assert amount * q * r == (q * r) * amount;
    MulLe(q * r, ONE * ONE, amount);
    assert issue * ONE * r == issue * r * ONE;
  }

  lemma RoundTripLower(amount: nat, r: nat, q: nat, issue: nat, back: nat)
    requires ONE * ONE < q * r + r && amount * q < issue * ONE + ONE && issue * r < back * ONE + ONE
    ensures amount * ONE * ONE <= (back + 1) * ONE * ONE + amount * r + r * ONE
  {
    assert amount * (ONE * ONE) <= amount * (q * r + r) by { MulLe(ONE * ONE, q * r + r, amount); }
    assert amount * (q * r + r) == amount * q * r + amount * r;
    assert amount * q * r <= (issue * ONE + ONE) * r by { MulLe(amount * q, issue * ONE + ONE, r); }
    assert (issue * ONE + ONE) * r == issue * r * ONE + r * ONE;
  }

  // ---------------------------------------------------------------- arithmetic of the rate

  /** Issuing for a bond at the floored rate never dilutes. */
  lemma BondArithmetic(value: nat, supply: nat, amount: nat)
    requires supply > 0 && Ratio(value, supply) > 0
    ensures var issue := CoreSpec.IssueAmount(amount, Ratio(value, supply)).value;
            Ratio(value + amount, supply + issue) >= Ratio(value, supply)
  {
    var r := Ratio(value, supply);
    var q := Ratio(ONE, r);
    var issue := MulFloor(amount, q);
    FloorBounds(value * ONE, supply);
    FloorBounds(ONE * ONE, r);
    FloorBounds(amount * q, ONE);
    IssueIsWorthLess(amount, r, q, issue);
    assert r * (supply + issue) == r * supply + r * issue;
    QuotientAtLeast((value + amount) * ONE, supply + issue, r);
  }

  lemma IssueIsWorthLess(amount: nat, r: nat, q: nat, issue: nat)
    requires q * r <= ONE * ONE && issue * ONE <= amount * q
    ensures r * issue <= amount * ONE
  {
    MulLe(issue * ONE, amount * q, r);
    assert amount * q * r == (q * r) * amount;
    MulLe(q * r, ONE * ONE, amount);
    assert issue * ONE * r == r * issue * ONE;
  }

  /** An unbond takes the burned ld tokens, one for one, out of both sides of the quotient:
      the exact ratio does not fall exactly when it is at least one. */
  lemma UnbondRatioIff(value: nat, supply: nat, burned: nat)
    requires 0 < burned < supply
    ensures (value - burned) * supply >= value * (supply - burned) <==> value >= supply
  {
    assert (value - burned) * supply == value * supply - burned * supply;
    assert value * (supply - burned) == value * supply - value * burned;
    if value >= supply { MulLe(supply, value, burned); }
    else { SmallerProduct(value, supply, burned); }
  }

  lemma SmallerProduct(a: nat, b: nat, c: nat)
    requires a < b && c > 0
    ensures a * c < b * c
  {
  }

  lemma UnbondArithmetic(value: nat, supply: nat, burned: nat)
    requires supply <= value && burned < supply
    ensures Ratio(value - burned, supply - burned) >= Ratio(value, supply)
    ensures Ratio(value - burned, supply - burned) >= ONE
  {
    var r := Ratio(value, supply);
    FloorBounds(value * ONE, supply);
    assert r >= ONE by { QuotientAtLeast(value * ONE, supply, ONE); }
    assert r * (supply - burned) == r * supply - r * burned;
    MulLe(ONE, r, burned);
    QuotientAtLeast((value - burned) * ONE, supply - burned, r);
  }

  lemma RateAtLeastOne(value: nat, supply: nat)
    requires supply > 0
    ensures Ratio(value, supply) >= ONE <==> value >= supply
  {
    FloorBounds(value * ONE, supply);
    if Ratio(value, supply) >= ONE { MulLe(ONE, Ratio(value, supply), supply); }
    if value >= supply { QuotientAtLeast(value * ONE, supply, ONE); }
  }

  // ---------------------------------------------------------------- while Idle

  /** The rate of a state, with the delegations `env` reports. */
  ghost function Rate(w: World, env: Env): Result<nat> { CoreSpec.ComputedRate(w.core, env.(bank := w.bank), 0) }

  /** The base tokens the computed rate divides by the supply. */
  ghost function Value(w: World, env: Env): int
    requires CoreSpec.UnprocessedUnbonds(w.core).Ok?
  {
    CoreSpec.ReportedStake(env.reports.delegations) + w.bank.coreBalance + w.core.totalLsmShares
    - CoreSpec.UnprocessedUnbonds(w.core).value
  }

  lemma RateIsRatio(w: World, env: Env)
    requires w.bank.ldSupply > 0
    ensures Rate(w, env).Ok? <==> CoreSpec.UnprocessedUnbonds(w.core).Ok? && Value(w, env) >= 0
    ensures Rate(w, env).Ok? ==> Rate(w, env).value == Ratio(Value(w, env), w.bank.ldSupply)
  {
  }

  /** Every report counts once, wherever it stands: a delegation is worth as much to the rate as
      the same amount held by core. */
  lemma RateCountsEveryReport(c: Core, env: Env, a: seq<Strategy.DelegationEntry>, e: Strategy.DelegationEntry,
                              b: seq<Strategy.DelegationEntry>, stake: nat)
    ensures CoreSpec.ComputedRate(c, Reporting(env, a + [e] + b, env.bank.coreBalance), stake)
         == CoreSpec.ComputedRate(c, Reporting(env, a + b, env.bank.coreBalance + e.amount), stake)
  {
    ReportedWith(a, e, b);
  }

  function Reporting(env: Env, entries: seq<Strategy.DelegationEntry>, coins: nat): Env {
    env.(reports := env.reports.(delegations := entries), bank := env.bank.(coreBalance := coins))
  }

  lemma {:induction false} ReportedWith(a: seq<Strategy.DelegationEntry>, e: Strategy.DelegationEntry,
                                        b: seq<Strategy.DelegationEntry>)
    ensures CoreSpec.ReportedStake(a + [e] + b) == CoreSpec.ReportedStake(a + b) + e.amount
  {
    if a == [] {
      assert a + [e] + b == [e] + b && a + b == b && ([e] + b)[1..] == b;
    } else {
      assert (a + [e] + b)[1..] == a[1..] + [e] + b && (a + b)[1..] == a[1..] + b;
      ReportedWith(a[1..], e, b);
    }
  }

  /** Without reports the rate is what core holds, in coins and in LSM shares, less the bond
      being priced and the unbonds not yet undelegated, over the supply, rounded down. */
  lemma RateWithoutReports(c: Core, env: Env, stake: nat, unprocessed: nat)
    requires env.reports.delegations == [] && CoreSpec.UnprocessedUnbonds(c) == Ok(unprocessed)
    ensures var r := CoreSpec.ComputedRate(c, env, stake);
            var held, taken, supply := env.bank.coreBalance + c.totalLsmShares, stake + unprocessed, env.bank.ldSupply;
            && (supply == 0 ==> r == Ok(ONE))
            && (supply > 0 ==>
                  && (r.Ok? <==> taken <= held)
                  && (r.Ok? ==> r.value * supply <= (held - taken) * ONE < r.value * supply + supply))
  {
    if env.bank.ldSupply > 0 && env.bank.coreBalance + c.totalLsmShares >= stake + unprocessed {
      FloorBounds((env.bank.coreBalance + c.totalLsmShares - stake - unprocessed) * ONE, env.bank.ldSupply);
    }
  }

  /** A bond while Idle is priced at the rate that held before its coins arrived. */
  lemma BondPricedAtOldRate(w: World, cfg: Config, env: Env, trace: Option<string>)
    requires w.core.fsm.Idle? && BondStep(w, cfg, env, trace).Ok?
    ensures Rate(w, env).Ok?
    ensures var w' := BondStep(w, cfg, env, trace).value;
            var amount := env.funds[0].amount;
            && CoreSpec.IssueAmount(amount, Rate(w, env).value) == Ok(w'.bank.ldSupply - w.bank.ldSupply)
            && CoreSpec.UnprocessedUnbonds(w'.core) == CoreSpec.UnprocessedUnbonds(w.core)
            && (w.bank.ldSupply > 0 ==> Value(w', env) == Value(w, env) + amount)
            && w'.core.fsm.Idle?
  {
    BondMovesBooks(w, cfg, env, trace);
  }

  /** A bond leaves the batches alone and adds its amount to the books once. */
  lemma BondMovesBooks(w: World, cfg: Config, env: Env, trace: Option<string>)
    requires BondStep(w, cfg, env, trace).Ok?
    ensures var w' := BondStep(w, cfg, env, trace).value;
            && |env.funds| == 1 && w'.core.fsm == w.core.fsm
            && CoreSpec.UnprocessedUnbonds(w'.core) == CoreSpec.UnprocessedUnbonds(w.core)
            && w'.bank.coreBalance + w'.core.totalLsmShares
               == w.bank.coreBalance + w.core.totalLsmShares + env.funds[0].amount
  {
  }

  lemma BondKeepsRate(w: World, cfg: Config, env: Env, trace: Option<string>)
    requires w.core.fsm.Idle? && w.bank.ldSupply > 0 && BondStep(w, cfg, env, trace).Ok?
    ensures var w' := BondStep(w, cfg, env, trace).value;
            && Rate(w, env).Ok? && Rate(w', env).Ok?
            && Rate(w', env).value >= Rate(w, env).value
            && w'.bank.ldSupply >= w.bank.ldSupply
  {
    BondPricedAtOldRate(w, cfg, env, trace);
    RateIsRatio(w, env);
    BondArithmetic(Value(w, env), w.bank.ldSupply, env.funds[0].amount);
  }

  /** An unbond while Idle lowers value and supply by the burned amount. */
  lemma UnbondMoves(w: World, cfg: Config, env: Env, sender: string)
    requires w.core.fsm.Idle? && UnbondStep(w, cfg, env, sender).Ok?
    requires w.core.batchId in w.core.batches && w.core.batches[w.core.batchId].status.New?
    requires w.core.failedBatchId != Some(w.core.batchId)
    requires CoreSpec.UnprocessedUnbonds(w.core).Ok?
    ensures var w' := UnbondStep(w, cfg, env, sender).value;
            var amount := env.funds[0].amount;
            && amount <= w.bank.ldSupply && w'.bank.ldSupply == w.bank.ldSupply - amount
            && CoreSpec.UnprocessedUnbonds(w'.core).Ok?
            && Value(w', env) == Value(w, env) - amount
            && w'.core.fsm.Idle?
  {
  }

  /** With a rate of at least one an unbond does not lower it; whatever the rate, it leaves a
      computable one exactly when the books hold at least the burned number of tokens: below
      that the subtraction overflows and every call that needs the rate reverts. */
  lemma UnbondKeepsRate(w: World, cfg: Config, env: Env, sender: string)
    requires w.core.fsm.Idle? && UnbondStep(w, cfg, env, sender).Ok?
    requires w.core.batchId in w.core.batches && w.core.batches[w.core.batchId].status.New?
    requires w.core.failedBatchId != Some(w.core.batchId)
    requires UnbondStep(w, cfg, env, sender).value.bank.ldSupply > 0
    ensures var w' := UnbondStep(w, cfg, env, sender).value;
            var amount := env.funds[0].amount;
            && Rate(w, env).Ok?
            && (Rate(w', env).Ok? <==> amount <= Value(w, env))
            && (Rate(w, env).value >= ONE ==>
                  Rate(w', env).Ok? && Rate(w', env).value >= Rate(w, env).value && Rate(w', env).value >= ONE)
  {
    var w' := UnbondStep(w, cfg, env, sender).value;
    RateIsRatio(w, env);
    UnbondMoves(w, cfg, env, sender);
    RateIsRatio(w', env);
    RateAtLeastOne(Value(w, env), w.bank.ldSupply);
    if Rate(w, env).value >= ONE { UnbondArithmetic(Value(w, env), w.bank.ldSupply, env.funds[0].amount); }
  }

  /** The exact rate, before flooring, does not fall with an unbond exactly when the quoted
      rate is at least one. */
  lemma UnbondKeepsExactRateIff(w: World, cfg: Config, env: Env, sender: string)
    requires w.core.fsm.Idle? && UnbondStep(w, cfg, env, sender).Ok?
    requires w.core.batchId in w.core.batches && w.core.batches[w.core.batchId].status.New?
    requires w.core.failedBatchId != Some(w.core.batchId)
    requires UnbondStep(w, cfg, env, sender).value.bank.ldSupply > 0
    ensures var w' := UnbondStep(w, cfg, env, sender).value;
            && Rate(w, env).Ok? && CoreSpec.UnprocessedUnbonds(w'.core).Ok?
            && (Value(w', env) * w.bank.ldSupply >= Value(w, env) * w'.bank.ldSupply
                <==> Rate(w, env).value >= ONE)
  {
    RateIsRatio(w, env);
    UnbondMoves(w, cfg, env, sender);
    RateAtLeastOne(Value(w, env), w.bank.ldSupply);
    UnbondRatioIff(Value(w, env), w.bank.ldSupply, env.funds[0].amount);
  }
}
