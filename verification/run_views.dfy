/** Building runs of the protocol call by call. A view keeps what matters of a reached state;
    each lemma adds one call to a run and says what is in view afterwards. */
module RunViews {
  import opened Results
  import opened FixedPoint
  import opened ProtocolTypes
  import opened ProtocolSpec
  import opened Strategy
  import CoreSpec
  import PuppeteerSpec
  import ChannelInvariant
  import D = Distribution

  /** Every idle tick is a long one, no unbonding is ever close, batches stay open for long. */
  const CFG: Config :=
    Config("base", "remote", Some("ld"), 0, 100, 0, 1000, Some("pump"), None, 1, 0, 0, None, None, None, 1)

  /** A block with the coins of the call, the balance and delegations the puppeteer reports,
      and one validator of weight one. */
  function At(now: nat, funds: seq<Coin>, balance: nat, delegations: seq<DelegationEntry>): Env {
    Env(now, 1, funds, Bank(0, 0), Reports(balance, 1, now, delegations, [Validator("v", 1)], []))
  }

  /** What is reported with an amount staked. */
  function Staked(amount: nat): seq<DelegationEntry> {
    if amount == 0 then [] else [DelegationEntry("v", "remote", amount)]
  }

  // ---------------------------------------------------------------- views

  /** A transaction without its amounts. */
  datatype Flight = Coins | Stakes | Unstakes(batchId: nat) | Claims(transfer: Option<ReadyBatches>)

  predicate IsFlight(tx: Transaction, f: Flight) {
    match f
    case Coins => tx.IbcTransfer? && tx.reason == Reason.Stake
    case Stakes => tx.Delegate?
    case Unstakes(id) => tx.Undelegate? && tx.batchId == id
    case Claims(t) => tx.ClaimRewards? && tx.transfer == t
  }

  datatype Answer = Answer(success: bool, flight: Flight)

  datatype View = View(
    clock: nat,
    fsm: ContractState,
    newest: nat,
    batches: map<nat, UnbondBatch>,
    failed: Option<nat>,
    last: Option<Answer>,
    inFlight: Option<Flight>,
    supply: nat,
    coins: nat,
    vouchers: map<TokenId, Voucher>,
    overwritten: set<nat>)

  ghost predicate ShowsCore(c: Core, v: View) {
    && c.fsm == v.fsm && c.batchId == v.newest && c.batches == v.batches && c.failedBatchId == v.failed
    && (v.last.Some? <==> c.lastResponse.Some?)
    && (v.last.Some? ==> (v.last.value.success <==> c.lastResponse.value.Success?)
                         && IsFlight(c.lastResponse.value.tx, v.last.value.flight))
    && c.totalLsmShares == 0 && c.collectedFees.None?
    && c.lastIcaBalanceChangeHeight <= 1 && c.lastIdleCall <= v.clock
  }

  ghost predicate ShowsFlight(w: World, f: Option<Flight>) {
    && ChannelInvariant.Channel(w)
    && w.puppeteer.ica.Registered?
    && (f.Some? <==> w.puppeteer.tx.status == TxWaitingForAck)
    && (f.Some? ==> IsFlight(w.puppeteer.tx.transaction.value, f.value))
  }

  ghost predicate Shows(w: World, v: View) {
    && ShowsCore(w.core, v) && ShowsFlight(w, v.inFlight)
    && w.bank == Bank(v.supply, v.coins)
    && w.vouchers == v.vouchers && w.redeemed == {} && w.paid == map[] && w.overwritten == v.overwritten
  }

  // ---------------------------------------------------------------- runs

  ghost function After(steps: seq<Step>): World { Run(Init(0), CFG, steps) }

  lemma {:induction false} RunThen(w: World, cfg: Config, steps: seq<Step>, step: Step)
    ensures Run(w, cfg, steps + [step]) == Next(Run(w, cfg, steps), cfg, step)
    decreases |steps|
  {
    if steps == [] {
      assert [step][1..] == [];
      assert steps + [step] == [step];
      assert Run(Next(w, cfg, step), cfg, []) == Next(w, cfg, step);
    } else {
      assert (steps + [step])[1..] == steps[1..] + [step];
      RunThen(Next(w, cfg, steps[0]), cfg, steps[1..], step);
    }
  }

  // ---------------------------------------------------------------- trades

  /** The account is registered and an amount is bonded. */
  lemma Opens(amount: nat) returns (steps: seq<Step>)
    requires amount > 0
    ensures Shows(After(steps), View(1, Idle, 0, map[0 := NewUnbond(0)], None, None, None, amount, amount, map[], {}))
  {
    var open := OpenAck("ica");
    var bond := Step.Bond(At(1, [Coin("base", amount)], 0, []), None);
    steps := [open] + [bond];
    RunThen(Init(0), CFG, [open], bond);
    RunThen(Init(0), CFG, [], open);
    assert [] + [open] == [open];
    var w := Next(Init(0), CFG, open);
    assert Run(Init(0), CFG, []) == Init(0);
    BondAtPar(w, amount);
  }

  lemma BondAtPar(w: World, amount: nat)
    requires amount > 0 && w == Init(0).(puppeteer := Puppeteer(NO_TX, Registered("ica")))
    ensures Next(w, CFG, Step.Bond(At(1, [Coin("base", amount)], 0, []), None))
         == w.(core := w.core.(bondedAmount := amount), bank := Bank(amount, amount))
  {
    assert Ratio(ONE, ONE) == ONE;
    assert MulFloor(amount, ONE) == amount;
  }

  /** The ld tokens of batches not undelegated yet, while Idle. */
  ghost function Owed(v: View): nat
    requires v.newest in v.batches && (v.failed.Some? ==> v.failed.value in v.batches)
  {
    v.batches[v.newest].totalAmount + if v.failed.Some? then v.batches[v.failed.value].totalAmount else 0
  }

  ghost predicate Settled(v: View) {
    && v.newest in v.batches && v.batches[v.newest].status.New?
    && (v.failed.Some? ==> v.failed.value in v.batches)
    && (v.newest > 0 ==> v.newest - 1 in v.batches && !v.batches[v.newest - 1].status.UnbondRequested?)
  }

  lemma OwedIsUnprocessed(c: Core, v: View)
    requires ShowsCore(c, v) && Settled(v)
    ensures CoreSpec.UnprocessedUnbonds(c) == Ok(Owed(v))
  {
  }

  lemma Reported(amount: nat)
    ensures CoreSpec.ReportedStake(Staked(amount)) == amount && Delegated(Staked(amount), "remote", "v") == amount
    ensures CoreSpec.ValidatorsToClaim([Validator("v", 1)], Staked(amount)) == if amount == 0 then [] else ["v"]
  {
    assert CoreSpec.ReportedStake([]) == 0 && Delegated([], "remote", "v") == 0;
    assert CoreSpec.ValidatorsToClaim([Validator("v", 1)], []) == [];
    if amount > 0 {
      assert Staked(amount)[1..] == [];
      assert CoreSpec.IsListed([Validator("v", 1)], "v") by { assert [Validator("v", 1)][0].valoper == "v"; }
    }
  }

  lemma ParRatio(a: nat)
    requires a > 0
    ensures Ratio(a, a) == ONE
  {
    FloorBounds(a * ONE, a);
    QuotientAtLeast(a * ONE, a, ONE);
    if Ratio(a, a) > ONE { MulLe(ONE + 1, Ratio(a, a), a); }
  }

  /** The rate of a view when an amount is reported as staked. */
  ghost function RateOf(v: View, staked: nat): nat
    requires v.supply > 0 && v.newest in v.batches && (v.failed.Some? ==> v.failed.value in v.batches)
    requires staked + v.coins >= Owed(v)
  {
    Ratio(staked + v.coins - Owed(v), v.supply)
  }

  lemma RateIs(w: World, v: View, env: Env, staked: nat)
    requires Shows(w, v) && Settled(v) && v.supply > 0 && env.reports.delegations == Staked(staked)
    ensures CoreSpec.ComputedRate(w.core, env.(bank := w.bank), 0)
            == if staked + v.coins >= Owed(v) then Ok(RateOf(v, staked)) else Err(Overflow)
  {
    Reported(staked);
    OwedIsUnprocessed(w.core, v);
  }

  /** The view after an unbond. */
  ghost function UnbondedView(v: View, sender: string, amount: nat, expected: nat): View
    requires v.newest in v.batches && amount <= v.supply
  {
    var item := UnbondItem(sender, amount, expected);
    v.(batches := v.batches[v.newest := CoreSpec.AddItem(v.batches[v.newest], item)],
       supply := v.supply - amount,
       vouchers := v.vouchers[TokenId(v.newest, sender, 1) := Voucher(v.newest, amount, expected)])
  }

  function UnbondCall(now: nat, sender: string, amount: nat, staked: nat): Step {
    Step.Unbond(At(now, [Coin("ld", amount)], 0, Staked(staked)), sender)
  }

  /** An unbond into an empty batch. */
  lemma Unbonds(steps: seq<Step>, v: View, sender: string, amount: nat, staked: nat) returns (more: seq<Step>)
    requires Shows(After(steps), v) && v.fsm.Idle? && Settled(v) && v.batches[v.newest].unbondItems == []
    requires 0 < amount <= v.supply && staked + v.coins >= Owed(v)
    requires TokenId(v.newest, sender, 1) !in v.vouchers
    ensures more == steps + [UnbondCall(v.clock, sender, amount, staked)]
    ensures Shows(After(more), UnbondedView(v, sender, amount, MulFloor(amount, RateOf(v, staked))))
  {
    var w := After(steps);
    var env := At(v.clock, [Coin("ld", amount)], 0, Staked(staked));
    more := steps + [Step.Unbond(env, sender)];
    RunThen(Init(0), CFG, steps, Step.Unbond(env, sender));
    RateIs(w, v, env, staked);
    UnbondAt(w, env, sender, amount, RateOf(v, staked));
  }

  lemma UnbondAt(w: World, env: Env, sender: string, amount: nat, rate: nat)
    requires env.funds == [Coin("ld", amount)] && w.core.fsm.Idle? && 0 < amount <= w.bank.ldSupply
    requires w.core.batchId in w.core.batches && w.core.batches[w.core.batchId].unbondItems == []
    requires CoreSpec.ComputedRate(w.core, env.(bank := w.bank), 0) == Ok(rate)
    requires TokenId(w.core.batchId, sender, 1) !in w.vouchers
    ensures var id, expected := w.core.batchId, MulFloor(amount, rate);
            var item := UnbondItem(sender, amount, expected);
            Next(w, CFG, Step.Unbond(env, sender))
            == w.(core := w.core.(batches := w.core.batches[id := CoreSpec.AddItem(w.core.batches[id], item)]),
                  bank := w.bank.(ldSupply := w.bank.ldSupply - amount),
                  vouchers := w.vouchers[TokenId(id, sender, 1) := Voucher(id, amount, expected)])
  {
  }

  // ---------------------------------------------------------------- acknowledgements

  lemma Acks(steps: seq<Step>, v: View, success: bool) returns (more: seq<Step>)
    requires Shows(After(steps), v) && v.inFlight.Some? && (success || !v.inFlight.value.Claims?)
    ensures Shows(After(more), v.(inFlight := None, last := Some(Answer(success, v.inFlight.value))))
  {
    var w := After(steps);
    var step := Deliver(|w.hooks|, if success then AckSuccess else AckError, At(v.clock, [], 0, []));
    more := steps + [step];
    RunThen(Init(0), CFG, steps, step);
    AckShows(w, v, success);
  }

  lemma AckShows(w: World, v: View, success: bool)
    requires Shows(w, v) && v.inFlight.Some? && (success || !v.inFlight.value.Claims?)
    ensures var ack := if success then AckSuccess else AckError;
            Shows(Next(w, CFG, Deliver(|w.hooks|, ack, At(v.clock, [], 0, []))),
                  v.(inFlight := None, last := Some(Answer(success, v.inFlight.value))))
  {
    ChannelInvariant.AckIsForStoredTransaction(w, |w.hooks|);
    var ack := if success then AckSuccess else AckError;
    ChannelInvariant.StepKeepsChannel(w, CFG, Deliver(|w.hooks|, ack, At(v.clock, [], 0, [])));
  }

  // ---------------------------------------------------------------- ticks

  /** A tick whose message is submitted. */
  lemma Sends(steps: seq<Step>, v: View, env: Env, v': View) returns (more: seq<Step>)
    requires Shows(After(steps), v) && v.inFlight.None? && v'.inFlight.Some?
    requires Ticks(After(steps), v, env, v')
    ensures Shows(After(more), v')
  {
    var w := After(steps);
    more := steps + [Step.Tick(env, true)];
    RunThen(Init(0), CFG, steps, Step.Tick(env, true));
    SendShows(w, v, env, v');
  }

  /** What has to be known about a tick of core for the next view. */
  ghost predicate Ticks(w: World, v: View, env: Env, v': View) {
    var r := CoreSpec.Tick(w.core, CFG, env.(bank := w.bank));
    && r.Ok? && ShowsCore(r.value.core, v')
    && (r.value.msg.Some? <==> v'.inFlight.Some?)
    && (r.value.msg.Some? ==>
          var tx := PuppeteerSpec.TransactionOf(r.value.msg.value);
          && tx.Ok? && IsFlight(tx.value, v'.inFlight.value)
          && v'.coins == if r.value.msg.value.SendFunds? then 0 else v.coins)
    && (r.value.msg.None? ==> v'.coins == v.coins)
    && v'.supply == v.supply && v'.vouchers == v.vouchers
    && v'.overwritten == v.overwritten + Dropped(w.core.batches, r.value.core.batches)
  }

  lemma SendShows(w: World, v: View, env: Env, v': View)
    requires Shows(w, v) && v.inFlight.None? && v'.inFlight.Some? && Ticks(w, v, env, v')
    ensures Shows(Next(w, CFG, Step.Tick(env, true)), v')
  {
    ChannelInvariant.StepKeepsChannel(w, CFG, Step.Tick(env, true));
  }

  /** A tick that sends nothing. */
  lemma Rests(steps: seq<Step>, v: View, env: Env, v': View) returns (more: seq<Step>)
    requires Shows(After(steps), v) && v'.inFlight == v.inFlight == None
    requires Ticks(After(steps), v, env, v')
    ensures Shows(After(more), v')
  {
    more := steps + [Step.Tick(env, true)];
    RunThen(Init(0), CFG, steps, Step.Tick(env, true));
    RestShows(After(steps), v, env, v');
  }

  lemma RestShows(w: World, v: View, env: Env, v': View)
    requires Shows(w, v) && v'.inFlight == v.inFlight == None && Ticks(w, v, env, v')
    ensures Shows(Next(w, CFG, Step.Tick(env, true)), v')
  {
    ChannelInvariant.StepKeepsChannel(w, CFG, Step.Tick(env, true));
  }

  /** No batch is released before its time, and with this safe period none is ever close. */
  lemma {:induction false} NothingDue(batches: map<nat, UnbondBatch>, ids: seq<nat>, env: Env)
    requires forall i | i in ids :: i in batches && batches[i].expectedRelease > env.now
    ensures CoreSpec.DueIds(batches, ids, env) == []
    ensures CoreSpec.UnbondingTimeIsNear(batches, ids, env.now, 0) == Ok(false)
  {
    if ids != [] { NothingDue(batches, ids[1..], env); }
  }

  /** An idle tick with nothing to release and nothing to claim. */
  lemma Excursion(c: Core, env: Env)
    requires c.fsm.Idle? && c.lastIdleCall <= env.now && CoreSpec.ComputedRate(c, env, 0).Ok?
    requires forall i | i in c.batches && c.batches[i].status.UnbondingStarted? ::
               c.batches[i].expectedRelease > env.now
    requires CoreSpec.ValidatorsToClaim(env.reports.validators, env.reports.delegations) == []
    ensures var rate := CoreSpec.ComputedRate(c, env, 0).value;
            var o := CoreSpec.AfterClaiming(c.(exchangeRate := Some(rate), fsm := Claiming), CFG, env);
            CoreSpec.Tick(c, CFG, env)
            == if o.Ok? then Ok(CoreSpec.Outcome(o.value.core.(lastIdleCall := env.now), o.value.msg)) else o
  {
    var c1 := c.(exchangeRate := Some(CoreSpec.ComputedRate(c, env, 0).value));
    CoreSpec.UnbondingIdsExist(c1.batches, c1.batchId + 1);
    NothingDue(c1.batches, CoreSpec.UnbondingIds(c1.batches, c1.batchId + 1), env);
    assert CoreSpec.PrepareTransfer(c1.batches, [], CFG, "pump", env.reports.icaBalance) == Ok((c1.batches, None));
  }

  /** An idle tick with nothing to release and a claim to send. */
  lemma ClaimOnly(c: Core, env: Env)
    requires c.fsm.Idle? && c.lastIdleCall <= env.now && CoreSpec.ComputedRate(c, env, 0).Ok?
    requires forall i | i in c.batches && c.batches[i].status.UnbondingStarted? ::
               c.batches[i].expectedRelease > env.now
    requires CoreSpec.ValidatorsToClaim(env.reports.validators, env.reports.delegations) == ["v"]
    ensures var rate := CoreSpec.ComputedRate(c, env, 0).value;
            CoreSpec.Tick(c, CFG, env)
            == Ok(CoreSpec.Outcome(c.(exchangeRate := Some(rate), fsm := Claiming, lastIdleCall := env.now),
                                   Some(Submit(ClaimRewards(["v"], None)))))
  {
    var c1 := c.(exchangeRate := Some(CoreSpec.ComputedRate(c, env, 0).value));
    CoreSpec.UnbondingIdsExist(c1.batches, c1.batchId + 1);
    NothingDue(c1.batches, CoreSpec.UnbondingIds(c1.batches, c1.batchId + 1), env);
    assert CoreSpec.PrepareTransfer(c1.batches, [], CFG, "pump", env.reports.icaBalance) == Ok((c1.batches, None));
  }

  /** The rate can be computed when the reported stake covers what is owed. */
  lemma RateExists(c: Core, v: View, env: Env)
    requires ShowsCore(c, v) && Settled(v)
    requires CoreSpec.ReportedStake(env.reports.delegations) + env.bank.coreBalance >= Owed(v)
    ensures CoreSpec.ComputedRate(c, env, 0).Ok?
  {
    OwedIsUnprocessed(c, v);
  }

  ghost predicate NoneDue(v: View) {
    forall i | i in v.batches && v.batches[i].status.UnbondingStarted? :: v.batches[i].expectedRelease > v.clock
  }

  /** The coins of core are sent to the remote account. */
  lemma MovesCoins(steps: seq<Step>, v: View) returns (more: seq<Step>)
    requires Shows(After(steps), v) && v.fsm.Idle? && v.inFlight.None? && Settled(v) && NoneDue(v)
    requires v.coins > 0 && v.coins >= Owed(v)
    ensures Shows(After(more), v.(fsm := Transfering, inFlight := Some(Coins), coins := 0))
  {
    MoveTicks(After(steps), v);
    more := Sends(steps, v, At(v.clock, [], 0, []),
                  v.(fsm := Transfering, inFlight := Some(Coins), coins := 0));
  }

  lemma MoveTicks(w: World, v: View)
    requires Shows(w, v) && v.fsm.Idle? && v.inFlight.None? && Settled(v) && NoneDue(v)
    requires v.coins > 0 && v.coins >= Owed(v)
    ensures Ticks(w, v, At(v.clock, [], 0, []), v.(fsm := Transfering, inFlight := Some(Coins), coins := 0))
  {
    var env := At(v.clock, [], 0, []).(bank := w.bank);
    Reported(0);
    RateExists(w.core, v, env);
    Excursion(w.core, env);
    var coins := [Coin("base", v.coins)];
    assert coins + [] == coins && coins[1..] == [];
    assert PuppeteerSpec.MessageFunds(coins) == coins + PuppeteerSpec.MessageFunds([]);
    assert Dropped(w.core.batches, w.core.batches) == {};
  }

  lemma IdealOfOne(total: nat, stake: nat)
    requires 0 < total <= 1000
    ensures D.CalcIdealStake(total, [D.Delegation("v", stake, 1)]) == Ok([D.IdealDelegation("v", total, stake, 1, 1)])
    ensures D.TotalStake([D.Delegation("v", stake, 1)]) == stake
  {
    var ds := [D.Delegation("v", stake, 1)];
    assert ds[1..] == [];
    assert D.TotalWeight(ds) == 1;
    assert Ratio(total, 1) == total * ONE;
    assert Ceil(total * ONE) == total;
    assert D.IdealHead(ds[0], total * ONE, total) == Ok(D.IdealDelegation("v", total, stake, 1, 1));
  }

  lemma JoinOfOne(es: seq<DelegationEntry>)
    ensures Join([Validator("v", 1)], es, "remote") == [D.Delegation("v", Delegated(es, "remote", "v"), 1)]
  {
    assert [Validator("v", 1)][1..] == [];
    assert Join([], es, "remote") == [];
  }

  /** With a balance reported, staking it is the next step. */
  lemma StakesBalance(c: Core, env: Env, balance: nat, staked: nat)
    requires c.fsm.Claiming? || c.fsm.Transfering?
    requires env.reports.icaBalance == balance && env.reports.height >= c.lastIcaBalanceChangeHeight
    requires env.reports.validators == [Validator("v", 1)] && env.reports.delegations == Staked(staked)
    requires 0 < balance && balance + staked <= 1000
    ensures var o := CoreSpec.StakeOrUnbond(c, CFG, env);
            o.Ok? && o.value.core == c.(fsm := Staking)
            && o.value.msg.Some? && o.value.msg.value.Submit? && o.value.msg.value.tx.Delegate?
  {
    Reported(staked);
    JoinOfOne(Staked(staked));
    IdealOfOne(staked + balance, staked);
    assert CoreSpec.Fee(CFG, balance) == 0;
    assert Strategy.CalcDeposit(env.reports.validators, env.reports.delegations, "remote", balance).Ok?;
  }

  /** From Transfering, with its response read and nothing staked yet. */
  lemma StakesMoved(steps: seq<Step>, v: View, balance: nat) returns (more: seq<Step>)
    requires Shows(After(steps), v) && v.fsm.Transfering? && v.inFlight.None? && v.last.Some? && 0 < balance <= 1000
    ensures Shows(After(more), v.(fsm := Staking, inFlight := Some(Stakes), last := None))
  {
    StakeMovedTicks(After(steps), v, balance);
    more := Sends(steps, v, At(v.clock, [], balance, []), v.(fsm := Staking, inFlight := Some(Stakes), last := None));
  }

  lemma StakeMovedTicks(w: World, v: View, balance: nat)
    requires Shows(w, v) && v.fsm.Transfering? && v.inFlight.None? && v.last.Some? && 0 < balance <= 1000
    ensures Ticks(w, v, At(v.clock, [], balance, []), v.(fsm := Staking, inFlight := Some(Stakes), last := None))
  {
    StakesBalance(w.core.(lastResponse := None), At(v.clock, [], balance, []).(bank := w.bank), balance, 0);
    assert Dropped(w.core.batches, w.core.batches) == {};
  }

  /** An idle tick with a stake claims its rewards; no batch is due. */
  lemma ClaimsRewards(steps: seq<Step>, v: View, staked: nat) returns (more: seq<Step>)
    requires Shows(After(steps), v) && v.fsm.Idle? && v.inFlight.None? && Settled(v) && NoneDue(v)
    requires staked > 0 && staked + v.coins >= Owed(v)
    ensures Shows(After(more), v.(fsm := Claiming, inFlight := Some(Claims(None))))
  {
    RewardTicks(After(steps), v, staked);
    more := Sends(steps, v, At(v.clock, [], 0, Staked(staked)), v.(fsm := Claiming, inFlight := Some(Claims(None))));
  }

  lemma RewardTicks(w: World, v: View, staked: nat)
    requires Shows(w, v) && v.fsm.Idle? && v.inFlight.None? && Settled(v) && NoneDue(v)
    requires staked > 0 && staked + v.coins >= Owed(v)
    ensures Ticks(w, v, At(v.clock, [], 0, Staked(staked)), v.(fsm := Claiming, inFlight := Some(Claims(None))))
  {
    var env := At(v.clock, [], 0, Staked(staked)).(bank := w.bank);
    Reported(staked);
    RateExists(w.core, v, env);
    ClaimOnly(w.core, env);
    assert Dropped(w.core.batches, w.core.batches) == {};
  }

  /** The rewards are staked. */
  lemma StakesRewards(steps: seq<Step>, v: View, balance: nat, staked: nat) returns (more: seq<Step>)
    requires Shows(After(steps), v) && v.fsm.Claiming? && v.inFlight.None? && v.coins == 0
    requires v.last == Some(Answer(true, Claims(None))) && 0 < balance && balance + staked <= 1000
    ensures Shows(After(more), v.(fsm := Staking, inFlight := Some(Stakes), last := None))
  {
    StakeRewardTicks(After(steps), v, balance, staked);
    more := Sends(steps, v, At(v.clock, [], balance, Staked(staked)),
                  v.(fsm := Staking, inFlight := Some(Stakes), last := None));
  }

  lemma StakeRewardTicks(w: World, v: View, balance: nat, staked: nat)
    requires Shows(w, v) && v.fsm.Claiming? && v.inFlight.None? && v.coins == 0
    requires v.last == Some(Answer(true, Claims(None))) && 0 < balance && balance + staked <= 1000
    ensures Ticks(w, v, At(v.clock, [], balance, Staked(staked)),
                  v.(fsm := Staking, inFlight := Some(Stakes), last := None))
  {
    var env := At(v.clock, [], balance, Staked(staked)).(bank := w.bank);
    StakesBalance(w.core.(lastResponse := None), env, balance, staked);
    assert Dropped(w.core.batches, w.core.batches) == {};
  }

  ghost function Batch(v: View): nat { if v.failed.Some? then v.failed.value else v.newest }

  ghost function Requested(v: View): map<nat, UnbondBatch>
    requires Batch(v) in v.batches
  {
    var id := Batch(v);
    v.batches[id := v.batches[id].(status := UnbondRequested)][id + 1 := NewUnbond(v.clock)]
  }

  /** The batch can be undelegated from an amount staked. */
  ghost predicate Requestable(v: View, staked: nat) {
    && Batch(v) in v.batches && v.batches[Batch(v)].unbondItems != []
    && v.batches[Batch(v)].created + 1000 > v.clock
    && 0 < v.batches[Batch(v)].totalAmount < staked <= 1000
  }

  lemma RequestTick(c: Core, v: View, env: Env, staked: nat)
    requires ShowsCore(c, v) && v.fsm.Staking? && v.last == Some(Answer(true, Stakes)) && Requestable(v, staked)
    requires env.now == v.clock
    requires env.reports.validators == [Validator("v", 1)] && env.reports.delegations == Staked(staked)
    ensures var o := CoreSpec.Tick(c, CFG, env);
            && o.Ok?
            && o.value.core == CoreSpec.RequestUnbond(c.(lastResponse := None), Batch(v), env).(fsm := Unbonding)
            && o.value.msg.Some? && o.value.msg.value.Submit? && IsFlight(o.value.msg.value.tx, Unstakes(Batch(v)))
  {
    var total := v.batches[Batch(v)].totalAmount;
    Reported(staked);
    JoinOfOne(Staked(staked));
    IdealOfOne(staked - total, staked);
    assert Strategy.CalcWithdraw(env.reports.validators, env.reports.delegations, "remote", total).Ok?;
  }

  /** The view after an undelegation was asked for. */
  ghost function RequestedView(v: View): View
    requires Batch(v) in v.batches
  {
    v.(fsm := Unbonding, inFlight := Some(Unstakes(Batch(v))), last := None, newest := Batch(v) + 1,
       batches := Requested(v), overwritten := v.overwritten + Dropped(v.batches, Requested(v)))
  }

  /** The undelegation of the failed or the newest batch. */
  lemma Requests(steps: seq<Step>, v: View, staked: nat) returns (more: seq<Step>)
    requires Shows(After(steps), v) && v.fsm.Staking? && v.inFlight.None? && v.last == Some(Answer(true, Stakes))
    requires Requestable(v, staked)
    ensures Shows(After(more), RequestedView(v))
  {
    var c, env := After(steps).core, At(v.clock, [], 0, Staked(staked));
    RequestTick(c, v, env.(bank := After(steps).bank), staked);
    more := Sends(steps, v, env, RequestedView(v));
  }

  /** The stake was acknowledged. */
  ghost function Acknowledged(v: View): View {
    v.(fsm := Staking, inFlight := None, last := Some(Answer(true, Stakes)))
  }

  /** With no batch to undelegate, core comes to rest. */
  lemma RestsStaked(steps: seq<Step>, v: View) returns (more: seq<Step>)
    requires Shows(After(steps), Acknowledged(v))
    requires Batch(v) in v.batches && v.batches[Batch(v)].unbondItems == []
    ensures Shows(After(more), v.(fsm := Idle, inFlight := None, last := None))
  {
    assert Dropped(v.batches, v.batches) == {};
    more := Rests(steps, Acknowledged(v), At(v.clock, [], 0, []), v.(fsm := Idle, inFlight := None, last := None));
  }

  lemma RequestsAlike(v: View)
    requires Batch(v) in v.batches
    ensures RequestedView(Acknowledged(v)) == RequestedView(v)
  {
  }

  /** Rewards are claimed and staked. */
  lemma StakesAndAcks(steps: seq<Step>, v: View, balance: nat, staked: nat) returns (more: seq<Step>)
    requires Shows(After(steps), v) && v.fsm.Idle? && v.inFlight.None? && Settled(v) && NoneDue(v) && v.coins == 0
    requires 0 < balance && Owed(v) <= staked && 0 < staked && balance + staked <= 1000
    ensures Shows(After(more), Acknowledged(v))
  {
    more := ClaimsRewards(steps, v, staked);
    more := Acks(more, v.(fsm := Claiming, inFlight := Some(Claims(None))), true);
    var claimed := v.(fsm := Claiming, inFlight := None, last := Some(Answer(true, Claims(None))));
    more := StakesRewards(more, claimed, balance, staked);
    more := Acks(more, v.(fsm := Staking, inFlight := Some(Stakes), last := None), true);
  }

  /** And then the batch is undelegated from the stake that has grown by the rewards. */
  lemma StakesThenRequests(steps: seq<Step>, v: View, balance: nat, staked: nat) returns (more: seq<Step>)
    requires Shows(After(steps), v) && v.fsm.Idle? && v.inFlight.None? && Settled(v) && NoneDue(v) && v.coins == 0
    requires 0 < balance && Owed(v) <= staked && 0 < staked && Requestable(v, staked + balance)
    ensures Shows(After(more), RequestedView(v))
  {
    more := StakesAndAcks(steps, v, balance, staked);
    RequestsAlike(v);
    more := Requests(more, Acknowledged(v), staked + balance);
  }

  /** The view after the answer to an undelegation was read. */
  ghost function AnsweredView(v: View, id: nat, success: bool): View
    requires id in v.batches
  {
    var b := v.batches[id];
    if success
    then v.(fsm := Idle, last := None, inFlight := None, failed := None,
            batches := v.batches[id := b.(status := UnbondingStarted, expectedRelease := v.clock + 100)])
    else v.(fsm := Idle, last := Some(Answer(false, Unstakes(id))), inFlight := None, failed := Some(id),
            batches := v.batches[id := b.(status := UnbondFailed)])
  }

  /** An undelegation is acknowledged and its answer read. */
  lemma Answers(steps: seq<Step>, v: View, id: nat, success: bool) returns (more: seq<Step>)
    requires Shows(After(steps), v) && v.fsm.Unbonding? && v.inFlight == Some(Unstakes(id)) && id in v.batches
    ensures Shows(After(more), AnsweredView(v, id, success))
  {
    more := Acks(steps, v, success);
    more := FinishesUnbond(more, v.(inFlight := None, last := Some(Answer(success, Unstakes(id)))));
  }

  /** The answer to an undelegation. */
  lemma FinishesUnbond(steps: seq<Step>, v: View) returns (more: seq<Step>)
    requires Shows(After(steps), v) && v.fsm.Unbonding? && v.inFlight.None? && v.last.Some?
    requires v.last.value.flight.Unstakes? && v.last.value.flight.batchId in v.batches
    ensures Shows(After(more), AnsweredView(v, v.last.value.flight.batchId, v.last.value.success))
  {
    var v' := AnsweredView(v, v.last.value.flight.batchId, v.last.value.success);
    assert Dropped(v.batches, v'.batches) == {};
    more := Rests(steps, v, At(v.clock, [], 0, []), v');
  }
}
