/** From the reported balance to the delegations and undelegations that core orders. */
module StakingPlan {
  import opened Results
  import opened FixedPoint
  import opened ProtocolTypes
  import CoreSpec
  import D = Distribution
  import Strategy

  function SumItems(items: seq<(string, nat)>): nat {
    if items == [] then 0 else items[0].1 + SumItems(items[1..])
  }

  lemma {:induction false} PlanItemsSum(plan: seq<D.IdealDelegation>)
    ensures SumItems(CoreSpec.PlanItems(plan)) == D.TotalChange(plan)
    ensures |CoreSpec.PlanItems(plan)| == |plan|
    ensures forall i :: 0 <= i < |plan| ==> CoreSpec.PlanItems(plan)[i] == (plan[i].valoper, plan[i].stakeChange)
  {
    if plan != [] {
      PlanItemsSum(plan[1..]);
      assert CoreSpec.PlanItems(plan)[1..] == CoreSpec.PlanItems(plan[1..]);
    }
  }

  /** A fee rate of at most one takes at most the balance. */
  lemma FeeWithinBalance(cfg: Config, balance: nat)
    requires cfg.fee.Some? ==> cfg.fee.value <= ONE
    ensures CoreSpec.Fee(cfg, balance) <= balance
  {
    if cfg.fee.Some? {
      FloorBounds(balance * cfg.fee.value, ONE);
      MulLe(cfg.fee.value, ONE, balance);
    }
  }

  /** A Delegate message and the fee split the reported balance exactly, for a total weight of
      at most 10^18 and up to the dust of the distribution beyond that. Its items name a
      prefix of the validator set, in order, with at least one token each. */
  lemma DelegateSpendsBalance(c: Core, cfg: Config, env: Env)
    requires CoreSpec.StakeMsg(c, cfg, env).Ok? && CoreSpec.StakeMsg(c, cfg, env).value.msg.Some?
    ensures var msg := CoreSpec.StakeMsg(c, cfg, env).value.msg.value;
            var weight := Strategy.TotalWeight(env.reports.validators);
            var balance, fee := env.reports.icaBalance, CoreSpec.Fee(cfg, env.reports.icaBalance);
            && msg.Submit? && msg.tx.Delegate?
            && fee + SumItems(msg.tx.items) <= balance <= fee + SumItems(msg.tx.items) + D.Dust(weight)
            && (weight <= ONE ==> fee + SumItems(msg.tx.items) == balance)
            && |msg.tx.items| <= |env.reports.validators|
            && forall i :: 0 <= i < |msg.tx.items| ==>
                 msg.tx.items[i].0 == env.reports.validators[i].valoper && msg.tx.items[i].1 >= 1
  {
    var vs, es := env.reports.validators, env.reports.delegations;
    var ds := Strategy.Join(vs, es, cfg.remoteDenom);
    var deposit := env.reports.icaBalance - CoreSpec.Fee(cfg, env.reports.icaBalance);
    var plan := D.CalcDeposit(deposit, ds).value;
    D.DepositConserves(deposit, ds);
    PlanItemsSum(plan);
    Strategy.JoinKeepsWeight(vs, es, cfg.remoteDenom);
    forall i | 0 <= i < |plan| ensures plan[i].valoper == vs[i].valoper {
      Strategy.JoinAt(vs, es, cfg.remoteDenom, i);
    }
  }

  /** The items of a message are the changes of a plan for the validator set with its reported
      stake in the remote denom. */
  ghost predicate FollowsPlan(cfg: Config, env: Env, dir: D.Direction, total: nat, items: seq<(string, nat)>) {
    var ds := Strategy.Join(env.reports.validators, env.reports.delegations, cfg.remoteDenom);
    && D.CalcIdealStake(total, ds).Ok?
    && exists ys :: D.Follows(dir, ys, D.CalcIdealStake(total, ds).value, ds) && ItemsOf(items, ys)
  }

  ghost predicate ItemsOf(items: seq<(string, nat)>, ys: seq<D.IdealDelegation>) {
    |items| == |ys| && forall i :: 0 <= i < |ys| ==> items[i] == (ys[i].valoper, ys[i].stakeChange)
  }

  /** What is delegated moves the validators towards their ideal shares of the stake with the
      deposit added. */
  lemma DelegateFollowsPlan(c: Core, cfg: Config, env: Env)
    requires CoreSpec.StakeMsg(c, cfg, env).Ok? && CoreSpec.StakeMsg(c, cfg, env).value.msg.Some?
    requires Strategy.TotalWeight(env.reports.validators) <= ONE
    ensures var msg := CoreSpec.StakeMsg(c, cfg, env).value.msg.value;
            var ds := Strategy.Join(env.reports.validators, env.reports.delegations, cfg.remoteDenom);
            && msg.Submit? && msg.tx.Delegate?
            && FollowsPlan(cfg, env, D.Deposit, D.TotalStake(ds) + SumItems(msg.tx.items), msg.tx.items)
  {
    var ds := Strategy.Join(env.reports.validators, env.reports.delegations, cfg.remoteDenom);
    var deposit := env.reports.icaBalance - CoreSpec.Fee(cfg, env.reports.icaBalance);
    var plan := D.CalcDeposit(deposit, ds).value;
    DelegateSpendsBalance(c, cfg, env);
    D.DepositConserves(deposit, ds);
    PlanItemsSum(plan);
    assert ItemsOf(CoreSpec.PlanItems(plan), plan);
  }

  /** What is undelegated moves them towards their shares of the stake without the batch. */
  lemma UndelegateFollowsPlan(c: Core, cfg: Config, env: Env)
    requires CoreSpec.UnbondingMsg(c, cfg, env).Ok? && CoreSpec.UnbondingMsg(c, cfg, env).value.msg.Some?
    ensures var msg := CoreSpec.UnbondingMsg(c, cfg, env).value.msg.value;
            var ds := Strategy.Join(env.reports.validators, env.reports.delegations, cfg.remoteDenom);
            && msg.Submit? && msg.tx.Undelegate? && msg.tx.batchId in c.batches
            && c.batches[msg.tx.batchId].totalAmount <= D.TotalStake(ds)
            && FollowsPlan(cfg, env, D.Withdraw, D.TotalStake(ds) - c.batches[msg.tx.batchId].totalAmount, msg.tx.items)
  {
    var ds := Strategy.Join(env.reports.validators, env.reports.delegations, cfg.remoteDenom);
    var withdraw := c.batches[CoreSpec.BatchToUnbond(c)].totalAmount;
    var plan := D.CalcWithdraw(withdraw, ds).value;
    D.WithdrawBounded(withdraw, ds);
    PlanItemsSum(plan);
    assert ItemsOf(CoreSpec.PlanItems(plan), plan);
  }

  /** An Undelegate message asks for at most the ld total of its batch. */
  lemma UndelegateWithinBatch(c: Core, cfg: Config, env: Env)
    requires CoreSpec.UnbondingMsg(c, cfg, env).Ok? && CoreSpec.UnbondingMsg(c, cfg, env).value.msg.Some?
    ensures var msg := CoreSpec.UnbondingMsg(c, cfg, env).value.msg.value;
            && msg.Submit? && msg.tx.Undelegate? && msg.tx.batchId in c.batches
            && SumItems(msg.tx.items) <= c.batches[msg.tx.batchId].totalAmount
            && |msg.tx.items| <= |env.reports.validators|
            && forall i :: 0 <= i < |msg.tx.items| ==>
                 msg.tx.items[i].0 == env.reports.validators[i].valoper && msg.tx.items[i].1 >= 1
  {
    var vs, es := env.reports.validators, env.reports.delegations;
    var ds := Strategy.Join(vs, es, cfg.remoteDenom);
    var withdraw := c.batches[CoreSpec.BatchToUnbond(c)].totalAmount;
    var plan := D.CalcWithdraw(withdraw, ds).value;
    D.WithdrawBounded(withdraw, ds);
    PlanItemsSum(plan);
    Strategy.JoinKeepsWeight(vs, es, cfg.remoteDenom);
    forall i | 0 <= i < |plan| ensures plan[i].valoper == vs[i].valoper {
      Strategy.JoinAt(vs, es, cfg.remoteDenom, i);
    }
  }
}
