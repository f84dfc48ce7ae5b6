/** Payouts against the coins that claims brought over: solvency from the first release of a
    batch to the last payout, over every run. */
module ClaimSolvency {
  import opened Results
  import opened ProtocolTypes
  import opened ProtocolSpec
  import opened BatchUpdates
  import opened BatchInvariant
  import opened ProtocolTheorems
  import CoreSpec
  import PuppeteerSpec
  import TickFacts
  import MachineInvariant
  import VoucherInvariant

  ghost function TransferOf(tx: Transaction): Option<ReadyBatches> { ClaimedBatches(Some(tx)) }

  // ---------------------------------------------------------------- the claim of one tick

  /** What a claim's transfer says about the batches it lists. */
  ghost predicate ClaimFits(c: Core, t: ReadyBatches) {
    && (forall p, q :: 0 <= p < q < |t.batchIds| ==> t.batchIds[p] < t.batchIds[q])
    && (forall i | i in t.batchIds :: i in c.batches)
    && (forall i | i in t.batchIds ::
          var s := c.batches[i].status;
          if t.emergency then s.WithdrawingEmergency? || s.WithdrawnEmergency? else s.Withdrawing? || s.Withdrawn?)
    && (!t.emergency ==> t.amount == UnbondedTotal(c.batches, t.batchIds))
  }

  /** A tick that submits a claim is an excursion from Idle. */
  lemma ClaimsComeFromIdle(c: Core, cfg: Config, env: Env)
    requires CoreSpec.Tick(c, cfg, env).Ok? && (!c.fsm.Idle? ==> c.exchangeRate.Some?)
    requires var msg := CoreSpec.Tick(c, cfg, env).value.msg;
             msg.Some? && msg.value.Submit? && msg.value.tx.ClaimRewards?
    ensures c.fsm.Idle? && env.now >= c.lastIdleCall && env.now - c.lastIdleCall >= cfg.idleMinInterval
    ensures cfg.pumpAddress.Some?
    ensures var r := CoreSpec.PrepareTransfer(c.batches, CoreSpec.ReadyIds(c, env), cfg, cfg.pumpAddress.value,
                                              env.reports.icaBalance);
            var o := CoreSpec.Tick(c, cfg, env).value;
            && r.Ok? && o.core.batches == r.value.0 && o.msg.value.tx.transfer == r.value.1
  {
    var o := CoreSpec.Tick(c, cfg, env).value;
    match c.fsm
    case Idle =>
      var c1 := c.(exchangeRate := Some(CoreSpec.ExchangeRate(c, cfg, env, 0).value));
      assert env.now - c.lastIdleCall >= cfg.idleMinInterval;
      TickFacts.IdleExcursionFacts(c1, cfg, env);
      assert CoreSpec.ReadyIds(c1, env) == CoreSpec.ReadyIds(c, env);
    case Claiming =>
      var finished := CoreSpec.FinishClaim(c.(lastResponse := None), c.lastResponse.value).value;
      TickFacts.AfterClaimingFacts(finished, cfg, env);
    case Transfering => TickFacts.StakeOrUnbondFacts(c.(lastResponse := None), cfg, env);
    case Staking => TickFacts.UnbondOrIdleFacts(c.(lastResponse := None), cfg, env);
    case Unbonding =>
  }

  /** What a claim's transfer is at the tick that sends it. */
  ghost predicate TransferFits(c: Core, d: Core, cfg: Config, env: Env, t: ReadyBatches) {
    && t.amount <= env.reports.icaBalance
    && (forall i :: i in t.batchIds <==>
          i in c.batches && c.batches[i].status.UnbondingStarted?
          && c.batches[i].expectedRelease <= env.now && c.batches[i].expectedRelease < env.reports.time)
    && ClaimFits(d, t)
    && (!t.emergency ==> Some(t.recipient) == cfg.pumpAddress && forall i | i in t.batchIds :: Slashed(d.batches[i]))
    && (t.emergency ==> Some(t.recipient) == cfg.emergencyAddress && t.amount == env.reports.icaBalance)
  }

  lemma PreparedTransferFits(c: Core, d: Core, cfg: Config, env: Env, pump: string)
    requires forall i | i in c.batches :: i <= c.batchId
    requires var r := CoreSpec.PrepareTransfer(c.batches, CoreSpec.ReadyIds(c, env), cfg, pump, env.reports.icaBalance);
             r.Ok? && r.value.1.Some? && d.batches == r.value.0 && cfg.pumpAddress == Some(pump)
    ensures TransferFits(c, d, cfg, env, CoreSpec.PrepareTransfer(c.batches, CoreSpec.ReadyIds(c, env), cfg, pump,
                                                                  env.reports.icaBalance).value.1.value)
  {
    var ids := CoreSpec.ReadyIds(c, env);
    ReadyIdsExact(c, env);
    TransferIsBacked(c.batches, ids, cfg, pump, env.reports.icaBalance);
    PrepareTransferAt(c.batches, ids, cfg, pump, env.reports.icaBalance);
  }

  /** A claim that a tick submits with a transfer lists exactly the due unbonding batches, in
      order, and moves at most the reported balance: outside an emergency, to the pump, exactly
      what the listed batches are credited with afterwards. */
  lemma SubmittedTransferIsBacked(w: World, cfg: Config, env: Env, submitSucceeds: bool)
    requires Inv(w) && TickStep(w, cfg, env, submitSucceeds).Ok?
    requires |TickStep(w, cfg, env, submitSucceeds).value.submitted| > |w.submitted|
    requires TransferOf(TickStep(w, cfg, env, submitSucceeds).value.submitted[|w.submitted|]).Some?
    ensures var w' := TickStep(w, cfg, env, submitSucceeds).value;
            w.core.fsm.Idle? && TransferFits(w.core, w'.core, cfg, env, TransferOf(w'.submitted[|w.submitted|]).value)
  {
    var e := env.(bank := w.bank);
    TickSubmits(w, cfg, env, submitSucceeds);
    ClaimsComeFromIdle(w.core, cfg, e);
    PreparedTransferFits(w.core, CoreSpec.Tick(w.core, cfg, e).value.core, cfg, e, cfg.pumpAddress.value);
  }

  // ---------------------------------------------------------------- all claims of a run

  /** The transfer of a claim that was acknowledged as a success. */
  ghost function Arrived(hook: Hook): Option<ReadyBatches> {
    if hook.Success? then TransferOf(hook.tx) else None
  }

  /** Every submitted claim fits the batches it lists, and no batch is on two claims. */
  ghost predicate ClaimsFit(c: Core, submitted: seq<Transaction>) {
    && (forall j | 0 <= j < |submitted| && TransferOf(submitted[j]).Some? ::
          ClaimFits(c, TransferOf(submitted[j]).value))
    && (forall j, k, i | 0 <= j < k < |submitted| && Listed(TransferOf(submitted[j]), i) ::
          !Listed(TransferOf(submitted[k]), i))
  }

  ghost predicate HookListed(hooks: seq<(nat, Hook)>, b: nat) {
    exists j :: 0 <= j < |hooks| && Listed(Arrived(hooks[j].1), b)
  }

  /** Every Withdrawn batch is on a claim that was acknowledged, and so is every batch that
      the stored response would make Withdrawn. */
  ghost predicate WithdrawnArrived(w: World) {
    && (forall b | b in w.core.batches && w.core.batches[b].status.Withdrawn? :: HookListed(w.hooks, b))
    && (forall b | Listed(StoredClaim(w.core), b) :: HookListed(w.hooks, b))
  }

  ghost predicate AllClaims(w: World) {
    ClaimsFit(w.core, w.submitted) && WithdrawnArrived(w)
  }

  lemma {:induction false} SameUnbonded(before: BatchMap, after: BatchMap, ids: seq<nat>)
    requires forall i | i in ids :: i in before && i in after && after[i].unbondedAmount == before[i].unbondedAmount
    ensures UnbondedTotal(after, ids) == UnbondedTotal(before, ids)
  {
    if ids != [] { SameUnbonded(before, after, ids[1..]); }
  }

  /** Released batches keep their credit, so a claim goes on fitting. */
  lemma AdvanceKeepsClaim(c: Core, d: Core, t: ReadyBatches)
    requires ClaimFits(c, t) && Advances(c, d)
    ensures ClaimFits(d, t)
  {
    SameUnbonded(c.batches, d.batches, t.batchIds);
  }

  lemma AdvanceKeepsClaims(c: Core, d: Core, submitted: seq<Transaction>)
    requires ClaimsFit(c, submitted) && Advances(c, d)
    ensures ClaimsFit(d, submitted)
  {
    forall j | 0 <= j < |submitted| && TransferOf(submitted[j]).Some?
      ensures ClaimFits(d, TransferOf(submitted[j]).value)
    {
      AdvanceKeepsClaim(c, d, TransferOf(submitted[j]).value);
    }
  }

  /** A new claim lists batches that no earlier claim lists: they were not released yet. */
  lemma NewClaimFits(c: Core, d: Core, submitted: seq<Transaction>, tx: Transaction)
    requires ClaimsFit(c, submitted) && Advances(c, d)
    requires TransferOf(tx).Some? ==> ClaimFits(d, TransferOf(tx).value)
    requires forall i | Listed(TransferOf(tx), i) :: i in c.batches && c.batches[i].status.UnbondingStarted?
    ensures ClaimsFit(d, submitted + [tx])
  {
    AdvanceKeepsClaims(c, d, submitted);
    var all := submitted + [tx];
    forall j, k, i | 0 <= j < k < |all| && Listed(TransferOf(all[j]), i) ensures !Listed(TransferOf(all[k]), i) {
      assert ClaimFits(c, TransferOf(submitted[j]).value);
    }
  }

  lemma TickKeepsClaimsFit(w: World, cfg: Config, env: Env, submitSucceeds: bool)
    requires Inv(w) && ClaimsFit(w.core, w.submitted) && TickStep(w, cfg, env, submitSucceeds).Ok?
    ensures var w' := TickStep(w, cfg, env, submitSucceeds).value; ClaimsFit(w'.core, w'.submitted)
  {
    var w' := Next(w, cfg, Tick(env, submitSucceeds));
    StepKeeps(w, cfg, Tick(env, submitSucceeds));
    TickSubmits(w, cfg, env, submitSucceeds);
    if w'.submitted == w.submitted {
      AdvanceKeepsClaims(w.core, w'.core, w.submitted);
    } else {
      var tx := w'.submitted[|w.submitted|];
      if TransferOf(tx).Some? { SubmittedTransferIsBacked(w, cfg, env, submitSucceeds); }
      NewClaimFits(w.core, w'.core, w.submitted, tx);
      assert w'.submitted == w.submitted + [tx];
    }
  }

  /** Nothing becomes Withdrawn. */
  ghost predicate WithdrawsNothing(c: Core, d: Core) {
    forall b | b in d.batches && d.batches[b].status.Withdrawn? :: b in c.batches && c.batches[b].status.Withdrawn?
  }

  /** Only a claiming tick makes batches Withdrawn, and only those of the stored response; a
      tick stores no response. */
  lemma TickFinishesStoredClaim(c: Core, cfg: Config, env: Env)
    requires Shape(c) && Sums(c) && Waiting(c, StoredClaim(c)) && CoreSpec.Tick(c, cfg, env).Ok?
    ensures var d := CoreSpec.Tick(c, cfg, env).value.core;
            && (forall b | b in d.batches && d.batches[b].status.Withdrawn? ::
                  b in c.batches && (c.batches[b].status.Withdrawn? || Listed(StoredClaim(c), b)))
            && (d.lastResponse == c.lastResponse || d.lastResponse.None?)
  {
    if c.fsm.Claiming? { ClaimingTickFinishesStoredClaim(c, cfg, env); }
    else if c.fsm.Idle? { IdleTickWithdrawsNothing(c, cfg, env); }
    else { OtherTickWithdrawsNothing(c, cfg, env); }
  }

  lemma OtherTickWithdrawsNothing(c: Core, cfg: Config, env: Env)
    requires c.fsm.Transfering? || c.fsm.Staking? || c.fsm.Unbonding?
    requires CoreSpec.Tick(c, cfg, env).Ok?
    ensures var d := CoreSpec.Tick(c, cfg, env).value.core;
            WithdrawsNothing(c, d) && (d.lastResponse == c.lastResponse || d.lastResponse.None?)
  {
    match c.fsm
    case Transfering => TickFacts.StakeOrUnbondFacts(c.(lastResponse := None), cfg, env);
    case Staking => TickFacts.UnbondOrIdleFacts(c.(lastResponse := None), cfg, env);
    case Unbonding =>
  }

  lemma ClaimingTickFinishesStoredClaim(c: Core, cfg: Config, env: Env)
    requires Shape(c) && Sums(c) && Waiting(c, StoredClaim(c)) && c.fsm.Claiming? && CoreSpec.Tick(c, cfg, env).Ok?
    ensures var d := CoreSpec.Tick(c, cfg, env).value.core;
            && d.lastResponse.None?
            && (forall b | b in d.batches && d.batches[b].status.Withdrawn? ::
                  b in c.batches && (c.batches[b].status.Withdrawn? || Listed(StoredClaim(c), b)))
  {
    FinishClaimKeepsShape(c);
    TickFacts.AfterClaimingFacts(CoreSpec.FinishClaim(c.(lastResponse := None), c.lastResponse.value).value, cfg, env);
  }

  lemma IdleTickWithdrawsNothing(c: Core, cfg: Config, env: Env)
    requires Shape(c) && Sums(c) && c.fsm.Idle? && CoreSpec.Tick(c, cfg, env).Ok?
    ensures var d := CoreSpec.Tick(c, cfg, env).value.core;
            d.lastResponse == c.lastResponse && WithdrawsNothing(c, d)
  {
    var c1 := c.(exchangeRate := Some(CoreSpec.ExchangeRate(c, cfg, env, 0).value));
    if env.now - c.lastIdleCall >= cfg.idleMinInterval {
      TickFacts.IdleExcursionFacts(c1, cfg, env);
      ReleaseKeepsShape(c1, cfg, env, cfg.pumpAddress.value);
    }
  }

  lemma TickKeepsArrived(w: World, cfg: Config, env: Env, submitSucceeds: bool)
    requires Inv(w) && WithdrawnArrived(w) && TickStep(w, cfg, env, submitSucceeds).Ok?
    ensures WithdrawnArrived(TickStep(w, cfg, env, submitSucceeds).value)
  {
    TickSubmits(w, cfg, env, submitSucceeds);
    TickFinishesStoredClaim(w.core, cfg, env.(bank := w.bank));
    TickKeepsHooks(w, cfg, env, submitSucceeds);
  }

  lemma TickKeepsHooks(w: World, cfg: Config, env: Env, submitSucceeds: bool)
    requires TickStep(w, cfg, env, submitSucceeds).Ok?
    ensures TickStep(w, cfg, env, submitSucceeds).value.hooks == w.hooks
  {
  }

  lemma DeliverKeepsArrived(w: World, env: Env, seqId: nat, ack: Ack)
    requires WithdrawnArrived(w) && DeliverStep(w, env, seqId, ack).Ok?
    ensures WithdrawnArrived(DeliverStep(w, env, seqId, ack).value)
  {
    var w' := DeliverStep(w, env, seqId, ack).value;
    var hook := PuppeteerSpec.Sudo(w.puppeteer, ack).value.1;
    MachineInvariant.HookMoves(w.core, env.(bank := w.bank), hook);
    assert w'.hooks[|w.hooks|].1 == hook;
    forall b | HookListed(w.hooks, b) ensures HookListed(w'.hooks, b) {
      var j :| 0 <= j < |w.hooks| && Listed(Arrived(w.hooks[j].1), b);
      assert w'.hooks[j] == w.hooks[j];
    }
    assert forall b | Listed(StoredClaim(w'.core), b) :: Listed(Arrived(w'.hooks[|w.hooks|].1), b);
  }

  lemma StepKeepsClaims(w: World, cfg: Config, step: Step)
    requires Inv(w) && AllClaims(w)
    ensures AllClaims(Next(w, cfg, step))
  {
    if Try(w, cfg, step).Ok? {
      var w' := Next(w, cfg, step);
      StepKeeps(w, cfg, step);
      match step
      case Tick(env, submitSucceeds) =>
        TickKeepsClaimsFit(w, cfg, env, submitSucceeds);
        TickKeepsArrived(w, cfg, env, submitSucceeds);
      case Deliver(seqId, ack, env) =>
        AdvanceKeepsClaims(w.core, w'.core, w.submitted);
        DeliverKeepsArrived(w, env, seqId, ack);
      case _ =>
        AdvanceKeepsClaims(w.core, w'.core, w.submitted);
        OtherStepsWithdrawNothing(w, cfg, step);
    }
  }

  lemma OtherStepsWithdrawNothing(w: World, cfg: Config, step: Step)
    requires Inv(w) && WithdrawnArrived(w) && !step.Tick? && !step.Deliver?
    ensures var w' := Next(w, cfg, step); w'.submitted == w.submitted && WithdrawnArrived(w')
  {
    if Try(w, cfg, step).Ok? {
      match step
      case Bond(env, trace) =>
        MachineInvariant.BondMoves(w.core, cfg, env.(bank := CreditBond(w.bank, cfg, env.funds)), trace);
      case Unbond(env, sender) => UnbondWithdrawsNothing(w, cfg, env, sender);
      case _ =>
    }
  }

  lemma UnbondWithdrawsNothing(w: World, cfg: Config, env: Env, sender: string)
    requires UnbondStep(w, cfg, env, sender).Ok?
    ensures var w' := UnbondStep(w, cfg, env, sender).value;
            && w'.submitted == w.submitted && w'.hooks == w.hooks
            && w'.core.lastResponse == w.core.lastResponse && WithdrawsNothing(w.core, w'.core)
  {
  }

  lemma {:induction false} RunKeepsClaims(w: World, cfg: Config, steps: seq<Step>)
    requires Inv(w) && AllClaims(w)
    ensures AllClaims(Run(w, cfg, steps))
    decreases |steps|
  {
    if steps != [] {
      StepKeeps(w, cfg, steps[0]);
      StepKeepsClaims(w, cfg, steps[0]);
      RunKeepsClaims(Next(w, cfg, steps[0]), cfg, steps[1..]);
    }
  }

  // ---------------------------------------------------------------- sums

  /** What a batch is credited with. */
  ghost function Credit(batches: BatchMap, b: nat): nat {
    if b in batches && batches[b].unbondedAmount.Some? then batches[b].unbondedAmount.value else 0
  }

  /** The credits of the batches of a set with ids below n. */
  ghost function SetTotal(batches: BatchMap, s: set<nat>, n: nat): nat {
    if n == 0 then 0 else SetTotal(batches, s, n - 1) + if n - 1 in s then Credit(batches, n - 1) else 0
  }

  lemma {:induction false} AddOne(batches: BatchMap, s: set<nat>, x: nat, n: nat)
    requires x !in s
    ensures SetTotal(batches, s + {x}, n) == SetTotal(batches, s, n) + if x < n then Credit(batches, x) else 0
  {
    if n > 0 { AddOne(batches, s, x, n - 1); }
  }

  ghost function IdSet(ids: seq<nat>): set<nat> { set i | i in ids }

  lemma {:induction false} AddIds(batches: BatchMap, s: set<nat>, ids: seq<nat>, n: nat)
    requires forall i | i in ids :: i in batches && i < n && i !in s
    requires forall p, q :: 0 <= p < q < |ids| ==> ids[p] < ids[q]
    ensures SetTotal(batches, s + IdSet(ids), n) == SetTotal(batches, s, n) + UnbondedTotal(batches, ids)
    decreases |ids|
  {
    if ids == [] {
      assert s + IdSet(ids) == s;
    } else {
      var x := ids[0];
      AddOne(batches, s, x, n);
      forall i | i in ids[1..] ensures i != x && i in ids {
        var q :| 0 <= q < |ids[1..]| && ids[1..][q] == i;
        assert ids[0] < ids[q + 1];
      }
      AddIds(batches, s + {x}, ids[1..], n);
      assert s + IdSet(ids) == s + {x} + IdSet(ids[1..]) by {
        assert forall i :: i in ids <==> i == x || i in ids[1..];
      }
    }
  }

  /** The coins that acknowledged claims moved to the pump. */
  ghost function ArrivedTotal(hooks: seq<(nat, Hook)>): nat {
    if hooks == [] then 0
    else
      var t := Arrived(hooks[|hooks| - 1].1);
      ArrivedTotal(hooks[..|hooks| - 1]) + if t.Some? && !t.value.emergency then t.value.amount else 0
  }

  /** The batches they were moved for. */
  ghost function ArrivedBatches(hooks: seq<(nat, Hook)>): set<nat> {
    if hooks == [] then {}
    else
      var t := Arrived(hooks[|hooks| - 1].1);
      ArrivedBatches(hooks[..|hooks| - 1]) + if t.Some? && !t.value.emergency then IdSet(t.value.batchIds) else {}
  }

  lemma {:induction false} ArrivedBatchesAreListed(hooks: seq<(nat, Hook)>)
    ensures forall b | b in ArrivedBatches(hooks) :: HookListed(hooks, b)
    ensures forall j, b | 0 <= j < |hooks| && Listed(Arrived(hooks[j].1), b) && !Arrived(hooks[j].1).value.emergency ::
              b in ArrivedBatches(hooks)
  {
    if hooks != [] {
      var n := |hooks| - 1;
      ArrivedBatchesAreListed(hooks[..n]);
      forall b | b in ArrivedBatches(hooks) ensures HookListed(hooks, b) {
        if b in ArrivedBatches(hooks[..n]) {
          var j :| 0 <= j < |hooks[..n]| && Listed(Arrived(hooks[..n][j].1), b);
          assert hooks[j] == hooks[..n][j];
        } else {
          assert Listed(Arrived(hooks[n].1), b);
        }
      }
      forall j, b | 0 <= j < |hooks| && Listed(Arrived(hooks[j].1), b) && !Arrived(hooks[j].1).value.emergency
        ensures b in ArrivedBatches(hooks)
      {
        if j < n { assert hooks[..n][j] == hooks[j]; }
      }
    }
  }

  /** Every coin that arrived is credited to exactly one batch. */
  lemma {:induction false} ArrivedIsCredited(c: Core, submitted: seq<Transaction>, hooks: seq<(nat, Hook)>, n: nat)
    requires ClaimsFit(c, submitted) && |hooks| <= |submitted|
    requires forall j | 0 <= j < |hooks| :: hooks[j].1.tx == submitted[j]
    requires forall b | b in c.batches :: 0 <= b < n
    ensures ArrivedTotal(hooks) == SetTotal(c.batches, ArrivedBatches(hooks), n)
  {
    if hooks == [] {
      EmptyTotal(c.batches, n);
    } else {
      var m := |hooks| - 1;
      ArrivedIsCredited(c, submitted, hooks[..m], n);
      var t := Arrived(hooks[m].1);
      if t.Some? && !t.value.emergency {
        assert TransferOf(submitted[m]) == t;
        assert ClaimFits(c, t.value);
        ArrivedBatchesAreListed(hooks[..m]);
        forall i | i in t.value.batchIds ensures i !in ArrivedBatches(hooks[..m]) {
          if i in ArrivedBatches(hooks[..m]) {
            var j :| 0 <= j < |hooks[..m]| && Listed(Arrived(hooks[..m][j].1), i);
            assert Listed(TransferOf(submitted[j]), i) && Listed(TransferOf(submitted[m]), i);
          }
        }
        AddIds(c.batches, ArrivedBatches(hooks[..m]), t.value.batchIds, n);
      } else {
        assert ArrivedBatches(hooks) == ArrivedBatches(hooks[..m]);
      }
    }
  }

  lemma {:induction false} EmptyTotal(batches: BatchMap, n: nat)
    ensures SetTotal(batches, {}, n) == 0
  {
    if n > 0 { EmptyTotal(batches, n - 1); }
  }

  // ---------------------------------------------------------------- the theorem

  /** What was paid for the batches with ids below n that were not overwritten. */
  ghost function PaidBelow(w: World, n: nat): nat {
    if n == 0 then 0 else PaidBelow(w, n - 1) + if n - 1 in w.overwritten then 0 else Paid(w, n - 1)
  }

  lemma {:induction false} PaidWithinCredits(w: World, s: set<nat>, n: nat)
    requires forall b: nat | b !in w.overwritten :: Paid(w, b) <= if b in s then Credit(w.core.batches, b) else 0
    ensures PaidBelow(w, n) <= SetTotal(w.core.batches, s, n)
  {
    if n > 0 { PaidWithinCredits(w, s, n - 1); }
  }

  lemma PaidWithinCredit(w: World, b: nat)
    requires Inv(w) && AllClaims(w) && b !in w.overwritten
    ensures Paid(w, b) <= if b in ArrivedBatches(w.hooks) then Credit(w.core.batches, b) else 0
  {
    if b in w.core.batches {
      var batch := w.core.batches[b];
      assert VoucherInvariant.Accounted(w, b, batch);
      if batch.status.Withdrawn? {
        assert Fits(batch, b, w.core.batchId, w.core.fsm.Unbonding?, w.core.failedBatchId);
        VoucherInvariant.Solvent(w, b);
        WithdrawnCoinsArrived(w, b);
      }
    }
  }

  /** The coins of a Withdrawn batch arrived with a claim that was no emergency. */
  lemma WithdrawnCoinsArrived(w: World, b: nat)
    requires Inv(w) && AllClaims(w) && b in w.core.batches && w.core.batches[b].status.Withdrawn?
    ensures b in ArrivedBatches(w.hooks)
  {
    var j :| 0 <= j < |w.hooks| && Listed(Arrived(w.hooks[j].1), b);
    var t := Arrived(w.hooks[j].1);
    assert TransferOf(w.submitted[j]) == t && ClaimFits(w.core, t.value);
    ArrivedBatchesAreListed(w.hooks);
  }

  lemma InitClaims(now: nat)
    ensures AllClaims(Init(now))
  {
    assert Init(now).core.batches == map[0 := NewUnbond(now)];
  }

  /** After any run every Withdrawn batch is listed by an acknowledged claim, and all payouts
      for batches that were not overwritten together stay within the coins that acknowledged
      claims moved to the pump. */
  lemma PayoutsWithinArrivedClaims(now: nat, cfg: Config, steps: seq<Step>)
    ensures PaidFromArrivedClaims(Run(Init(now), cfg, steps))
  {
    InitHolds(now);
    RunKeeps(Init(now), cfg, steps);
    InitClaims(now);
    RunKeepsClaims(Init(now), cfg, steps);
    PayoutsWithinArrived(Run(Init(now), cfg, steps));
  }

  ghost predicate PaidFromArrivedClaims(w: World) {
    && (forall b | b in w.core.batches && w.core.batches[b].status.Withdrawn? :: HookListed(w.hooks, b))
    && (forall b | b in w.paid :: b <= w.core.batchId)
    && PaidBelow(w, w.core.batchId + 1) <= ArrivedTotal(w.hooks)
  }

  lemma PayoutsWithinArrived(w: World)
    requires Inv(w) && AllClaims(w)
    ensures PaidFromArrivedClaims(w)
  {
    var n := w.core.batchId + 1;
    forall b: nat | b !in w.overwritten
      ensures Paid(w, b) <= if b in ArrivedBatches(w.hooks) then Credit(w.core.batches, b) else 0
    {
      PaidWithinCredit(w, b);
    }
    PaidWithinCredits(w, ArrivedBatches(w.hooks), n);
    ArrivedIsCredited(w.core, w.submitted, w.hooks, n);
  }
}
