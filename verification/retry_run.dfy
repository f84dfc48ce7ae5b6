/** A whole run from the initial state in which the retry of a failed batch loses the items of
    the batch behind it, and that batch then pays out more than was unbonded for it. The reports
    follow the transactions: a hundred coins are staked, one coin of rewards is added before each
    further undelegation, ten and fifty are undelegated, so forty-two remain; the seventy-five
    coins claimed at the end are those sixty and fifteen of rewards. */
module RetryRun {
  import opened Results
  import opened FixedPoint
  import opened ProtocolTypes
  import opened ProtocolSpec
  import opened RunViews
  import opened VoucherInvariant
  import CoreSpec

  const ALICE: TokenId := TokenId(0, "alice", 1)
  const BOB: TokenId := TokenId(1, "bob", 1)
  const CAROL: TokenId := TokenId(1, "carol", 1)

  function OneItem(sender: string, amount: nat, expected: nat, created: nat, status: BatchStatus, release: nat)
    : UnbondBatch
  {
    UnbondBatch(amount, expected, release, [UnbondItem(sender, amount, expected)], status, None, None, created)
  }

  // ---------------------------------------------------------------- the first batch fails

  /** A hundred coins are bonded, Alice unbonds ten, the coins are staked, the undelegation
      of her batch fails. */
  function FirstFailed(): View {
    View(1, Idle, 1, map[0 := OneItem("alice", 10, 10, 0, UnbondFailed, 0), 1 := NewUnbond(1)], Some(0),
         Some(Answer(false, Unstakes(0))), None, 90, 0, map[ALICE := Voucher(0, 10, 10)], {})
  }

  /** The stage before: the stake is in flight. */
  function FirstStake(): View {
    View(1, Staking, 0, map[0 := OneItem("alice", 10, 10, 0, New, 0)], None, None, Some(Stakes), 90, 0,
         map[ALICE := Voucher(0, 10, 10)], {})
  }

  lemma ToFirstStake() returns (steps: seq<Step>)
    ensures Shows(After(steps), FirstStake())
  {
    var v := View(1, Idle, 0, map[0 := NewUnbond(0)], None, None, None, 100, 100, map[], {});
    steps := Opens(100);
    steps := Unbonds(steps, v, "alice", 10, 0);
    AliceUnbonded(v);
    v := FirstStake().(fsm := Idle, inFlight := None, coins := 100);
    steps := MovesCoins(steps, v);
    v := v.(fsm := Transfering, inFlight := Some(Coins), coins := 0);
    steps := Acks(steps, v, true);
    steps := StakesMoved(steps, v.(inFlight := None, last := Some(Answer(true, Coins))), 100);
  }

  lemma AliceUnbonded(v: View)
    requires v == View(1, Idle, 0, map[0 := NewUnbond(0)], None, None, None, 100, 100, map[], {})
    ensures UnbondedView(v, "alice", 10, MulFloor(10, RateOf(v, 0)))
         == FirstStake().(fsm := Idle, inFlight := None, coins := 100)
  {
    assert MulFloor(10, Ratio(100, 100)) == 10;
    assert CoreSpec.AddItem(NewUnbond(0), UnbondItem("alice", 10, 10)) == OneItem("alice", 10, 10, 0, New, 0);
  }

  function FirstRequest(): View {
    FirstFailed().(fsm := Unbonding, failed := None, last := None, inFlight := Some(Unstakes(0)),
                   batches := map[0 := OneItem("alice", 10, 10, 0, UnbondRequested, 0), 1 := NewUnbond(1)])
  }

  lemma ToFirstRequest() returns (steps: seq<Step>)
    ensures Shows(After(steps), FirstRequest())
  {
    steps := ToFirstStake();
    steps := Acks(steps, FirstStake(), true);
    steps := Requests(steps, FirstStaked(), 100);
    FirstRequestView();
  }

  function FirstStaked(): View { FirstStake().(inFlight := None, last := Some(Answer(true, Stakes))) }

  lemma FirstRequestView()
    ensures RequestedView(FirstStaked()) == FirstRequest()
  {
    var v := FirstStaked();
    assert Requested(v) == FirstRequest().batches;
    assert Dropped(v.batches, FirstRequest().batches) == {};
  }

  lemma ToFirstFailed() returns (steps: seq<Step>)
    ensures Shows(After(steps), FirstFailed())
  {
    steps := ToFirstRequest();
    steps := Answers(steps, FirstRequest(), 0, false);
    assert AnsweredView(FirstRequest(), 0, false).batches == FirstFailed().batches;
  }

  // ---------------------------------------------------------------- the retry

  /** Bob unbonded twenty into batch 1; after a further stake batch 0 is undelegated again. */
  function Retried(): View {
    View(1, Unbonding, 1, map[0 := OneItem("alice", 10, 10, 0, UnbondRequested, 0), 1 := NewUnbond(1)], Some(0),
         None, Some(Unstakes(0)), 70, 0, map[ALICE := Voucher(0, 10, 10), BOB := Voucher(1, 20, 20)], {1})
  }

  function BobUnbonded(): View {
    Retried().(fsm := Idle, last := FirstFailed().last, inFlight := None, overwritten := {},
               batches := map[0 := OneItem("alice", 10, 10, 0, UnbondFailed, 0),
                              1 := OneItem("bob", 20, 20, 1, New, 0)])
  }

  lemma ToBobUnbonded() returns (steps: seq<Step>)
    ensures Shows(After(steps), BobUnbonded())
  {
    steps := ToFirstFailed();
    steps := Unbonds(steps, FirstFailed(), "bob", 20, 100);
    assert MulFloor(20, Ratio(90, 90)) == 20;
    assert CoreSpec.AddItem(NewUnbond(1), UnbondItem("bob", 20, 20)) == OneItem("bob", 20, 20, 1, New, 0);
    assert FirstFailed().batches[1 := OneItem("bob", 20, 20, 1, New, 0)] == BobUnbonded().batches;
    assert FirstFailed().vouchers[BOB := Voucher(1, 20, 20)] == BobUnbonded().vouchers;
  }

  /** The retry drops the items of batch 1. */
  lemma RetriedView()
    ensures RequestedView(BobUnbonded()) == Retried()
  {
    var v := BobUnbonded();
    assert Requested(v) == Retried().batches;
    assert Dropped(v.batches, Retried().batches) == {1};
  }

  lemma ToRetried() returns (steps: seq<Step>)
    ensures Shows(After(steps), Retried())
  {
    steps := ToBobUnbonded();
    steps := StakesThenRequests(steps, BobUnbonded(), 1, 100);
    RetriedView();
  }

  /** After the retry Bob's ld tokens are burned and his voucher exists, but batch 1 does not
      know it. */
  lemma RetryLosesItems()
    ensures exists steps ::
              var w := After(steps);
              && BOB in w.vouchers && w.vouchers[BOB] == Voucher(1, 20, 20)
              && 1 in w.core.batches && w.core.batches[1].status.New?
              && !BatchBacked(w.vouchers, 1, w.core.batches[1].unbondItems)
  {
    var steps := ToRetried();
    assert Shows(After(steps), Retried());
  }

  // ---------------------------------------------------------------- both batches unbond

  /** Batch 0 is undelegated at last, Carol unbonds fifty into batch 1, which follows. */
  function BothUnbonding(): View {
    View(1, Idle, 2,
         map[0 := OneItem("alice", 10, 10, 0, UnbondingStarted, 101),
             1 := OneItem("carol", 50, 65, 1, UnbondingStarted, 101), 2 := NewUnbond(1)],
         None, None, None, 20, 0,
         map[ALICE := Voucher(0, 10, 10), BOB := Voucher(1, 20, 20), CAROL := Voucher(1, 50, 65)], {1})
  }

  function CarolUnbonded(): View {
    BothUnbonding().(newest := 1, batches := map[0 := OneItem("alice", 10, 10, 0, UnbondingStarted, 101),
                                                 1 := OneItem("carol", 50, 65, 1, New, 0)])
  }

  function FirstUnbonding(): View {
    Retried().(fsm := Idle, failed := None, last := None, inFlight := None,
               batches := map[0 := OneItem("alice", 10, 10, 0, UnbondingStarted, 101), 1 := NewUnbond(1)])
  }

  lemma ToFirstUnbonding() returns (steps: seq<Step>)
    ensures Shows(After(steps), FirstUnbonding())
  {
    steps := ToRetried();
    steps := Answers(steps, Retried(), 0, true);
    assert AnsweredView(Retried(), 0, true).batches == FirstUnbonding().batches;
  }

  lemma ToCarolUnbonded() returns (steps: seq<Step>)
    ensures Shows(After(steps), CarolUnbonded())
  {
    var v := FirstUnbonding();
    steps := ToFirstUnbonding();
    steps := Unbonds(steps, v, "carol", 50, 91);
    assert MulFloor(50, Ratio(91, 70)) == 65;
    assert CoreSpec.AddItem(NewUnbond(1), UnbondItem("carol", 50, 65)) == OneItem("carol", 50, 65, 1, New, 0);
    assert v.batches[1 := OneItem("carol", 50, 65, 1, New, 0)] == CarolUnbonded().batches;
    assert v.vouchers[CAROL := Voucher(1, 50, 65)] == CarolUnbonded().vouchers;
  }

  function SecondRequest(): View {
    BothUnbonding().(fsm := Unbonding, inFlight := Some(Unstakes(1)),
                     batches := map[0 := OneItem("alice", 10, 10, 0, UnbondingStarted, 101),
                                    1 := OneItem("carol", 50, 65, 1, UnbondRequested, 0), 2 := NewUnbond(1)])
  }

  lemma ToSecondRequest() returns (steps: seq<Step>)
    ensures Shows(After(steps), SecondRequest())
  {
    steps := ToCarolUnbonded();
    steps := StakesThenRequests(steps, CarolUnbonded(), 1, 91);
    SecondRequestView();
  }

  lemma SecondRequestView()
    ensures RequestedView(CarolUnbonded()) == SecondRequest()
  {
    var v := CarolUnbonded();
    assert Requested(v) == SecondRequest().batches;
    assert Dropped(v.batches, SecondRequest().batches) == {};
  }

  lemma ToBothUnbonding() returns (steps: seq<Step>)
    ensures Shows(After(steps), BothUnbonding())
  {
    steps := ToSecondRequest();
    steps := Answers(steps, SecondRequest(), 1, true);
    assert AnsweredView(SecondRequest(), 1, true).batches == BothUnbonding().batches;
  }

  // ---------------------------------------------------------------- both are claimed and paid

  const TRANSFER: ReadyBatches := ReadyBatches([0, 1], false, 75, "pump")

  function Release(b: UnbondBatch, status: BatchStatus): UnbondBatch {
    b.(unbondedAmount := Some(b.expectedAmount), slashingEffect := Some(ONE), status := status)
  }

  function Released(status: BatchStatus): map<nat, UnbondBatch> {
    map[0 := Release(OneItem("alice", 10, 10, 0, UnbondingStarted, 101), status),
        1 := Release(OneItem("carol", 50, 65, 1, UnbondingStarted, 101), status), 2 := NewUnbond(1)]
  }

  /** A claim with the seventy-five coins of both batches is in flight. */
  function Claiming(): View {
    BothUnbonding().(clock := 200, fsm := ContractState.Claiming, batches := Released(Withdrawing),
                     inFlight := Some(Claims(Some(TRANSFER))))
  }

  lemma ReadyBoth(c: Core, env: Env)
    requires c.batchId == 2 && c.batches == BothUnbonding().batches && env.now == 200 && env.reports.time == 200
    ensures CoreSpec.UnbondingIds(c.batches, c.batchId + 1) == [0, 1] && CoreSpec.ReadyIds(c, env) == [0, 1]
    ensures CoreSpec.TimeCheck(c, CFG, env) == Ok(false)
  {
    var bs := c.batches;
    assert CoreSpec.UnbondingIds(bs, 0) == [];
    assert CoreSpec.UnbondingIds(bs, 1) == [0];
    assert CoreSpec.UnbondingIds(bs, 2) == [0] + [1];
    assert CoreSpec.UnbondingIds(bs, 3) == [0, 1];
    var ids := [0, 1];
    assert ids[1..] == [1] && [1][1..] == [];
    assert CoreSpec.DueIds(bs, [1], env) == [1] + CoreSpec.DueIds(bs, [], env);
    assert CoreSpec.DueIds(bs, ids, env) == [0] + CoreSpec.DueIds(bs, [1], env);
    assert CoreSpec.UnbondingTimeIsNear(bs, [], env.now, 0) == Ok(false);
    assert CoreSpec.UnbondingTimeIsNear(bs, [1], env.now, 0) == Ok(false);
  }

  lemma PreparesBoth(batches: map<nat, UnbondBatch>)
    requires batches == BothUnbonding().batches
    ensures CoreSpec.PrepareTransfer(batches, [0, 1], CFG, "pump", 75) == Ok((Released(Withdrawing), Some(TRANSFER)))
  {
    var ids := [0, 1];
    assert ids[1..] == [1] && [1][1..] == [];
    assert CoreSpec.ExpectedTotal(batches, [1]) == 65;
    assert CoreSpec.ExpectedTotal(batches, ids) == 75;
    var first := batches[0 := CoreSpec.ReleaseOne(batches[0], false)];
    assert CoreSpec.ReleaseAll(first, [1], false) == first[1 := CoreSpec.ReleaseOne(first[1], false)];
    assert CoreSpec.ReleaseAll(batches, ids, false) == Released(Withdrawing);
  }

  lemma ClaimTick(c: Core, env: Env)
    requires ShowsCore(c, BothUnbonding())
    requires env == At(200, [], 75, Staked(42)).(bank := Bank(20, 0))
    ensures var o := CoreSpec.Tick(c, CFG, env);
            && o.Ok? && ShowsCore(o.value.core, Claiming())
            && o.value.msg == Some(Submit(ClaimRewards(["v"], Some(TRANSFER))))
  {
    Reported(42);
    RateExists(c, BothUnbonding(), env);
    var c1 := c.(exchangeRate := Some(CoreSpec.ComputedRate(c, env, 0).value));
    ReadyBoth(c1, env);
    PreparesBoth(c1.batches);
  }

  lemma ToClaiming() returns (steps: seq<Step>)
    ensures Shows(After(steps), Claiming())
  {
    steps := ToBothUnbonding();
    ClaimTicks(After(steps));
    steps := Sends(steps, BothUnbonding(), At(200, [], 75, Staked(42)), Claiming());
  }

  lemma ClaimTicks(w: World)
    requires Shows(w, BothUnbonding())
    ensures Ticks(w, BothUnbonding(), At(200, [], 75, Staked(42)), Claiming())
  {
    ClaimTick(w.core, At(200, [], 75, Staked(42)).(bank := w.bank));
    ReleaseDropsNothing();
  }

  lemma ReleaseDropsNothing()
    ensures Dropped(BothUnbonding().batches, Released(Withdrawing)) == {}
  {
  }

  /** The claim was acknowledged and read: both batches are Withdrawn. */
  function Paying(): View {
    Claiming().(fsm := Idle, batches := Released(Withdrawn), inFlight := None)
  }

  lemma ClaimRead(c: Core, env: Env)
    requires ShowsCore(c, Claimed())
    requires env == At(200, [], 0, Staked(42)).(bank := Bank(20, 0))
    ensures var o := CoreSpec.Tick(c, CFG, env); o.Ok? && ShowsCore(o.value.core, Paying()) && o.value.msg.None?
  {
    var ids := [0, 1];
    assert ids[1..] == [1] && [1][1..] == [];
    var first := c.batches[0 := c.batches[0].(status := Withdrawn)];
    var second := first[1 := first[1].(status := Withdrawn)];
    assert CoreSpec.MarkWithdrawn(second, [], false) == Ok(second);
    assert CoreSpec.MarkWithdrawn(first, [1], false) == Ok(second);
    assert CoreSpec.MarkWithdrawn(c.batches, ids, false) == Ok(second);
    assert second == Released(Withdrawn);
  }

  lemma ToPaying() returns (steps: seq<Step>)
    ensures Shows(After(steps), Paying())
  {
    steps := ToClaiming();
    steps := Acks(steps, Claiming(), true);
    ClaimReads(After(steps));
    steps := Rests(steps, Claimed(), At(200, [], 0, Staked(42)), Paying());
  }

  function Claimed(): View {
    Claiming().(inFlight := None, last := Some(Answer(true, Claims(Some(TRANSFER)))))
  }

  lemma ClaimReads(w: World)
    requires Shows(w, Claimed())
    ensures Ticks(w, Claimed(), At(200, [], 0, Staked(42)), Paying())
  {
    ClaimRead(w.core, At(200, [], 0, Staked(42)).(bank := w.bank));
    assert Dropped(w.core.batches, Released(Withdrawn)) == {};
  }

  lemma PaysBoth(w: World)
    requires Shows(w, Paying())
    ensures var w2 := Next(Next(w, CFG, Withdraw(BOB)), CFG, Withdraw(CAROL));
            w2.core == w.core && Paid(w2, 1) == 85
  {
    assert MulFloor(20, ONE) == 20 && MulFloor(65, ONE) == 65;
    var w1 := Next(w, CFG, Withdraw(BOB));
    assert w1.core == w.core && w1.vouchers == w.vouchers && w1.redeemed == {BOB} && Paid(w1, 1) == 20;
  }

  /** In the end the manager pays Bob's voucher as well as Carol's: eighty-five for a batch
      that was credited with sixty-five. */
  lemma OverwrittenBatchOverpays()
    ensures exists steps ::
              var w := After(steps);
              && 1 in w.core.batches && w.core.batches[1].status.Withdrawn?
              && w.core.batches[1].unbondedAmount == Some(65)
              && Paid(w, 1) == 85
  {
    var steps := ToPaying();
    PaysBoth(After(steps));
    RunThen(Init(0), CFG, steps, Withdraw(BOB));
    RunThen(Init(0), CFG, steps + [Withdraw(BOB)], Withdraw(CAROL));
    assert Paid(After(steps + [Withdraw(BOB)] + [Withdraw(CAROL)]), 1) == 85;
  }
}
