/** The life of the unbonding batches over every run. */
module BatchInvariant {
  import opened Results
  import opened ProtocolTypes
  import opened ProtocolSpec
  import opened BatchUpdates
  import opened TickFacts
  import opened ChannelInvariant
  import opened MachineInvariant
  import CoreSpec
  import PuppeteerSpec

  /** What is known about the batch with id i when `last` is the newest id: only the newest
      is New, a request is open exactly in Unbonding and just before the newest, a failed
      batch is the recorded one, and a released batch is credited. */
  ghost predicate Fits(b: UnbondBatch, i: nat, last: nat, unbonding: bool, failed: Option<nat>) {
    && (b.status.New? <==> i == last)
    && (b.status.UnbondRequested? <==> unbonding && i + 1 == last)
    && (b.status.UnbondFailed? ==> failed == Some(i))
    && Credited(b)
  }

  /** Ids are contiguous and a recorded failure directly precedes the newest batch. */
  ghost predicate Shape(c: Core) {
    && Contiguous(c)
    && (forall i | i in c.batches :: Fits(c.batches[i], i, c.batchId, c.fsm.Unbonding?, c.failedBatchId))
    && (c.failedBatchId.Some? ==>
          && c.failedBatchId.value + 1 == c.batchId
          && var b := c.batches[c.failedBatchId.value]; b.status.UnbondFailed? || b.status.UnbondRequested?)
  }

  ghost predicate Contiguous(c: Core) {
    && (forall i | i in c.batches :: 0 <= i <= c.batchId)
    && (forall i | 0 <= i <= c.batchId :: i in c.batches)
  }

  /** Every stored batch adds up to its items. */
  ghost predicate Sums(c: Core) {
    forall i | i in c.batches :: ItemSums(c.batches[i])
  }

  ghost predicate Credited(b: UnbondBatch) {
    b.status.Withdrawing? || b.status.Withdrawn? ==> Slashed(b)
  }

  /** The moves a batch's status can make. */
  predicate Moves(a: BatchStatus, b: BatchStatus) {
    match a
    case New => b.UnbondRequested?
    case UnbondRequested => b.UnbondFailed? || b.UnbondingStarted?
    case UnbondFailed => b.UnbondRequested?
    case UnbondingStarted => b.Withdrawing? || b.WithdrawingEmergency?
    case Withdrawing => b.Withdrawn?
    case WithdrawingEmergency => b.WithdrawnEmergency?
    case Withdrawn => false
    case WithdrawnEmergency => false
  }

  /** Its coins are on the way or have arrived. */
  predicate Released(s: BatchStatus) {
    s.Withdrawing? || s.Withdrawn? || s.WithdrawingEmergency? || s.WithdrawnEmergency?
  }

  /** No batch disappears and every status stays or makes one allowed move; what a released
      batch was credited with stays, and a Withdrawn batch never changes again. */
  ghost predicate Advances(c: Core, d: Core) {
    && c.batchId <= d.batchId
    && forall i | i in c.batches ::
         && i in d.batches
         && (d.batches[i].status == c.batches[i].status || Moves(c.batches[i].status, d.batches[i].status))
         && (Released(c.batches[i].status) ==> d.batches[i].unbondedAmount == c.batches[i].unbondedAmount)
         && (c.batches[i].status.Withdrawn? ==> d.batches[i] == c.batches[i])
  }

  // ---------------------------------------------------------------- claims

  ghost function ClaimedBatches(tx: Option<Transaction>): Option<ReadyBatches> {
    match tx
    case Some(ClaimRewards(_, transfer)) => transfer
    case _ => None
  }

  ghost function StoredClaim(c: Core): Option<ReadyBatches> {
    match c.lastResponse
    case Some(Success(tx)) => ClaimedBatches(Some(tx))
    case _ => None
  }

  ghost predicate Listed(t: Option<ReadyBatches>, i: nat) {
    t.Some? && i in t.value.batchIds
  }

  /** The batches of a claim wait for their coins. */
  ghost predicate Waiting(c: Core, t: Option<ReadyBatches>) {
    forall i | Listed(t, i) ::
      i in c.batches && c.batches[i].status == if t.value.emergency then WithdrawingEmergency else Withdrawing
  }

  /** The claim in flight and the successful claim still to be read list waiting batches,
      and no batch is on both lists. */
  ghost predicate Claims(c: Core, inFlight: Option<Transaction>) {
    && Waiting(c, ClaimedBatches(inFlight))
    && Waiting(c, StoredClaim(c))
    && forall i :: !(Listed(ClaimedBatches(inFlight), i) && Listed(StoredClaim(c), i))
  }

  ghost predicate Batches(w: World) {
    Shape(w.core) && Sums(w.core) && Claims(w.core, w.puppeteer.tx.transaction)
  }

  // ---------------------------------------------------------------- one handler at a time

  lemma UnbondKeepsBatches(c: Core, cfg: Config, env: Env, sender: string, inFlight: Option<Transaction>)
    requires Shape(c) && Sums(c) && Claims(c, inFlight) && CoreSpec.Unbond(c, cfg, env, sender).Ok?
    ensures var d := CoreSpec.Unbond(c, cfg, env, sender).value.0;
            Shape(d) && Sums(d) && Claims(d, inFlight) && Advances(c, d)
  {
    var (d, item) := CoreSpec.Unbond(c, cfg, env, sender).value;
    AddItemKeeps(c, item, inFlight);
    assert d == c.(batches := c.batches[c.batchId := CoreSpec.AddItem(c.batches[c.batchId], item)]);
  }

  lemma AddItemKeeps(c: Core, item: UnbondItem, inFlight: Option<Transaction>)
    requires Shape(c) && Sums(c) && Claims(c, inFlight)
    ensures var d := c.(batches := c.batches[c.batchId := CoreSpec.AddItem(c.batches[c.batchId], item)]);
            Shape(d) && Sums(d) && Claims(d, inFlight) && Advances(c, d)
  {
    var b := CoreSpec.AddItem(c.batches[c.batchId], item);
    assert ItemSums(b) by { AddItemSums(c.batches[c.batchId], item); }
    ReplaceNewest(c, b, inFlight);
  }

  /** Replacing the newest batch by another New one. */
  lemma ReplaceNewest(c: Core, b: UnbondBatch, inFlight: Option<Transaction>)
    requires Shape(c) && Sums(c) && Claims(c, inFlight)
    requires b.status.New? && ItemSums(b)
    ensures var d := c.(batches := c.batches[c.batchId := b]);
            Shape(d) && Sums(d) && Claims(d, inFlight) && Advances(c, d)
  {
    assert c.batches[c.batchId].status.New?;
  }

  /** A request keeps the invariant: the requested batch was New or UnbondFailed. */
  lemma RequestKeepsShape(c: Core, env: Env)
    requires Shape(c) && c.fsm.Staking?
    ensures Shape(CoreSpec.RequestUnbond(c, CoreSpec.BatchToUnbond(c), env).(fsm := Unbonding))
  {
    var d := CoreSpec.RequestUnbond(c, CoreSpec.BatchToUnbond(c), env).(fsm := Unbonding);
    assert Contiguous(d);
    forall i | i in d.batches ensures Fits(d.batches[i], i, d.batchId, true, d.failedBatchId) {
      if i in c.batches { assert Fits(c.batches[i], i, c.batchId, false, c.failedBatchId); }
    }
  }

  lemma RequestAdvances(c: Core, env: Env)
    requires Shape(c) && c.fsm.Staking?
    ensures Advances(c, CoreSpec.RequestUnbond(c, CoreSpec.BatchToUnbond(c), env).(fsm := Unbonding))
  {
    var id := CoreSpec.BatchToUnbond(c);
    assert Fits(c.batches[id], id, c.batchId, false, c.failedBatchId);
  }

  lemma RequestKeepsSums(c: Core, env: Env)
    requires Shape(c) && Sums(c) && c.fsm.Staking?
    ensures Sums(CoreSpec.RequestUnbond(c, CoreSpec.BatchToUnbond(c), env).(fsm := Unbonding))
  {
  }

  lemma RequestKeepsClaims(c: Core, env: Env, tx: Transaction)
    requires Shape(c) && c.lastResponse.None? && tx.Undelegate?
    ensures Claims(CoreSpec.RequestUnbond(c, CoreSpec.BatchToUnbond(c), env).(fsm := Unbonding), Some(tx))
  {
  }

  lemma RequestKeepsAll(c: Core, env: Env, o: CoreSpec.Outcome, inFlight: Option<Transaction>)
    requires Shape(c) && Sums(c) && c.fsm.Staking? && c.lastResponse.None?
    requires o.core == CoreSpec.RequestUnbond(c, CoreSpec.BatchToUnbond(c), env).(fsm := Unbonding)
    requires Announced(Unbonding, o.msg)
    ensures KeepsBatches(c, o, inFlight)
  {
    RequestKeepsShape(c, env);
    RequestAdvances(c, env);
    RequestKeepsSums(c, env);
    RequestKeepsClaims(c, env, o.msg.value.tx);
  }

  /** Leaving the batches alone and Unbonding out of it keeps the invariant. */
  lemma SameBatchesKeepShape(c: Core, d: Core)
    requires Shape(c) && Sums(c) && SameBatches(c, d) && !c.fsm.Unbonding? && !d.fsm.Unbonding?
    ensures Shape(d) && Sums(d) && Advances(c, d)
  {
  }

  lemma FinishUnbondKeepsShape(c: Core, cfg: Config, env: Env)
    requires Shape(c) && Sums(c) && c.fsm.Unbonding? && c.lastResponse.Some?
    requires c.lastResponse.value.tx.Undelegate? && c.lastResponse.value.tx.batchId + 1 == c.batchId
    ensures var r := CoreSpec.FinishUnbond(c, cfg, env, c.lastResponse.value);
            r.Ok? && Shape(r.value.(fsm := Idle)) && Sums(r.value) && Advances(c, r.value)
  {
    FinishUnbondFits(c, cfg, env);
    FinishUnbondAdvances(c, cfg, env);
  }

  lemma FinishUnbondFits(c: Core, cfg: Config, env: Env)
    requires Shape(c) && c.fsm.Unbonding? && c.lastResponse.Some?
    requires c.lastResponse.value.tx.Undelegate? && c.lastResponse.value.tx.batchId + 1 == c.batchId
    ensures var r := CoreSpec.FinishUnbond(c, cfg, env, c.lastResponse.value); r.Ok? && Shape(r.value.(fsm := Idle))
  {
    var d := CoreSpec.FinishUnbond(c, cfg, env, c.lastResponse.value).value.(fsm := Idle);
    assert Contiguous(d);
    forall i | i in d.batches ensures Fits(d.batches[i], i, d.batchId, false, d.failedBatchId) {
      assert Fits(c.batches[i], i, c.batchId, true, c.failedBatchId);
    }
  }

  lemma FinishUnbondAdvances(c: Core, cfg: Config, env: Env)
    requires Shape(c) && Sums(c) && c.fsm.Unbonding? && c.lastResponse.Some?
    requires c.lastResponse.value.tx.Undelegate? && c.lastResponse.value.tx.batchId + 1 == c.batchId
    ensures var r := CoreSpec.FinishUnbond(c, cfg, env, c.lastResponse.value);
            r.Ok? && Sums(r.value) && Advances(c, r.value)
  {
  }

  lemma FinishClaimKeepsShape(c: Core)
    requires Shape(c) && Sums(c) && c.fsm.Claiming? && Waiting(c, StoredClaim(c))
    requires c.lastResponse.Some? && CoreSpec.FinishClaim(c.(lastResponse := None), c.lastResponse.value).Ok?
    ensures var d := CoreSpec.FinishClaim(c.(lastResponse := None), c.lastResponse.value).value;
            && Shape(d) && Sums(d) && Advances(c, d) && d == c.(lastResponse := None, batches := d.batches)
            && d.batches.Keys == c.batches.Keys
            && (forall i | i in c.batches && !Listed(StoredClaim(c), i) :: d.batches[i] == c.batches[i])
  {
    match c.lastResponse.value
    case Success(ClaimRewards(_, Some(t))) =>
      assert forall i :: Listed(StoredClaim(c), i) <==> i in t.batchIds;
      MarkKeepsShape(c, t);
    case _ => SameBatchesKeepShape(c, c.(lastResponse := None));
  }

  lemma MarkKeepsShape(c: Core, t: ReadyBatches)
    requires Shape(c) && Sums(c) && c.fsm.Claiming? && Waiting(c, Some(t))
    ensures var r := CoreSpec.MarkWithdrawn(c.batches, t.batchIds, t.emergency);
            && r.Ok? && r.value.Keys == c.batches.Keys
            && var d := c.(lastResponse := None, batches := r.value);
               && Shape(d) && Sums(d) && Advances(c, d)
               && (forall i | i in c.batches && i !in t.batchIds :: d.batches[i] == c.batches[i])
  {
    assert forall i | i in t.batchIds :: Listed(Some(t), i);
    MarkWithdrawnAt(c.batches, t.batchIds, t.emergency);
    var marked := CoreSpec.MarkWithdrawn(c.batches, t.batchIds, t.emergency).value;
    MarkedFits(c, c.(lastResponse := None, batches := marked), t);
  }

  lemma MarkedFits(c: Core, d: Core, t: ReadyBatches)
    requires Shape(c) && Sums(c) && c.fsm.Claiming? && Waiting(c, Some(t))
    requires d == c.(lastResponse := None, batches := d.batches) && d.batches.Keys == c.batches.Keys
    requires forall i | i in c.batches ::
               d.batches[i] == if i in t.batchIds
                               then c.batches[i].(status := if t.emergency then WithdrawnEmergency else Withdrawn)
                               else c.batches[i]
    ensures Shape(d) && Sums(d) && Advances(c, d)
  {
    assert forall i | i in t.batchIds :: Listed(Some(t), i);
    forall i | i in c.batches
      ensures Fits(d.batches[i], i, c.batchId, false, c.failedBatchId) && ItemSums(d.batches[i])
      ensures d.batches[i].status == c.batches[i].status || Moves(c.batches[i].status, d.batches[i].status)
    {
      assert Fits(c.batches[i], i, c.batchId, false, c.failedBatchId);
    }
  }

  lemma ReleaseKeepsShape(c: Core, cfg: Config, env: Env, pump: string)
    requires Shape(c) && Sums(c) && c.fsm.Idle?
    requires CoreSpec.PrepareTransfer(c.batches, CoreSpec.ReadyIds(c, env), cfg, pump, env.reports.icaBalance).Ok?
    ensures var (after, transfer) :=
              CoreSpec.PrepareTransfer(c.batches, CoreSpec.ReadyIds(c, env), cfg, pump, env.reports.icaBalance).value;
            var d := c.(batches := after);
            && Shape(d) && Sums(d) && Advances(c, d) && Waiting(d, transfer)
            && d.batches.Keys == c.batches.Keys
            && (forall i | Listed(transfer, i) :: i in c.batches && c.batches[i].status.UnbondingStarted?)
            && (forall i | i in c.batches && !Listed(transfer, i) :: d.batches[i] == c.batches[i])
  {
    var ids := CoreSpec.ReadyIds(c, env);
    ReadyIdsExact(c, env);
    PrepareTransferAt(c.batches, ids, cfg, pump, env.reports.icaBalance);
    var (after, transfer) := CoreSpec.PrepareTransfer(c.batches, ids, cfg, pump, env.reports.icaBalance).value;
    assert forall i :: Listed(transfer, i) <==> i in ids;
    ReleasedFits(c, c.(batches := after), transfer);
  }

  lemma ReleasedFits(c: Core, d: Core, transfer: Option<ReadyBatches>)
    requires Shape(c) && Sums(c) && d == c.(batches := d.batches) && d.batches.Keys == c.batches.Keys
    requires forall i | i in c.batches && !Listed(transfer, i) :: d.batches[i] == c.batches[i]
    requires forall i | Listed(transfer, i) ::
               && i in c.batches && c.batches[i].status.UnbondingStarted?
               && ReleasedFrom(c.batches[i], d.batches[i], transfer.value.emergency)
    ensures Shape(d) && Sums(d) && Advances(c, d) && Waiting(d, transfer)
  {
    ReleasedKeepsShape(c, d, transfer);
    ReleasedAdvances(c, d, transfer);
  }

  lemma ReleasedKeepsShape(c: Core, d: Core, transfer: Option<ReadyBatches>)
    requires Shape(c) && Sums(c) && d == c.(batches := d.batches) && d.batches.Keys == c.batches.Keys
    requires forall i | i in c.batches && !Listed(transfer, i) :: d.batches[i] == c.batches[i]
    requires forall i | Listed(transfer, i) ::
               && i in c.batches && c.batches[i].status.UnbondingStarted?
               && ReleasedFrom(c.batches[i], d.batches[i], transfer.value.emergency)
    ensures Shape(d) && Sums(d)
  {
    forall i | i in c.batches
      ensures Fits(d.batches[i], i, c.batchId, c.fsm.Unbonding?, c.failedBatchId) && ItemSums(d.batches[i])
    {
      assert Fits(c.batches[i], i, c.batchId, c.fsm.Unbonding?, c.failedBatchId);
    }
  }

  lemma ReleasedAdvances(c: Core, d: Core, transfer: Option<ReadyBatches>)
    requires d == c.(batches := d.batches) && d.batches.Keys == c.batches.Keys
    requires forall i | i in c.batches && !Listed(transfer, i) :: d.batches[i] == c.batches[i]
    requires forall i | Listed(transfer, i) ::
               && i in c.batches && c.batches[i].status.UnbondingStarted?
               && ReleasedFrom(c.batches[i], d.batches[i], transfer.value.emergency)
    ensures Advances(c, d)
  {
    forall i | i in c.batches
      ensures d.batches[i].status == c.batches[i].status || Moves(c.batches[i].status, d.batches[i].status)
    {
    }
  }

  // ---------------------------------------------------------------- ticks

  /** The claims that remain when some waiting batches are finished or others are released. */
  lemma ClaimsSurvive(c: Core, d: Core, inFlight: Option<Transaction>, gone: Option<ReadyBatches>)
    requires Claims(c, inFlight) && c.batches.Keys <= d.batches.Keys
    requires d.lastResponse == c.lastResponse || d.lastResponse.None?
    requires forall i | i in c.batches && !Listed(gone, i) :: d.batches[i].status == c.batches[i].status
    requires forall i | Listed(gone, i) :: !Listed(ClaimedBatches(inFlight), i) && !Listed(StoredClaim(d), i)
    ensures Claims(d, inFlight)
  {
  }

  lemma NewClaim(d: Core, tx: Transaction)
    requires Claims(d, None) && Waiting(d, ClaimedBatches(Some(tx)))
    requires forall i | Listed(ClaimedBatches(Some(tx)), i) :: !Listed(StoredClaim(d), i)
    ensures Claims(d, Some(tx))
  {
  }

  /** What a tick does to batches and claims; `after` is the transaction in flight after it,
      the old one when the tick sends nothing. */
  ghost predicate KeepsBatches(c: Core, o: CoreSpec.Outcome, inFlight: Option<Transaction>) {
    && Shape(o.core) && Sums(o.core) && Advances(c, o.core)
    && (o.msg.None? ==> Claims(o.core, inFlight))
    && (o.msg.Some? && inFlight.None? ==>
          forall tx | PuppeteerSpec.TransactionOf(o.msg.value) == Ok(tx) :: Claims(o.core, Some(tx)))
  }

  lemma TickKeepsBatches(c: Core, cfg: Config, env: Env, inFlight: Option<Transaction>)
    requires Shape(c) && Sums(c) && Claims(c, inFlight) && CoreSpec.Tick(c, cfg, env).Ok?
    requires c.fsm.Unbonding? ==> UnbondsLastBatch(c, inFlight)
    ensures KeepsBatches(c, CoreSpec.Tick(c, cfg, env).value, inFlight)
  {
    var o := CoreSpec.Tick(c, cfg, env).value;
    match c.fsm
    case Idle => IdleTickKeepsBatches(c, cfg, env, inFlight);
    case Claiming => ClaimingTickKeepsBatches(c, cfg, env, inFlight);
    case Transfering =>
      StakeOrUnbondFacts(c.(lastResponse := None), cfg, env);
      SameBatchesKeepShape(c, o.core);
      ClaimsSurvive(c, o.core, inFlight, None);
    case Staking => StakingTickKeepsBatches(c, cfg, env, inFlight);
    case Unbonding =>
      FinishUnbondKeepsShape(c, cfg, env);
  }

  lemma ClaimingTickKeepsBatches(c: Core, cfg: Config, env: Env, inFlight: Option<Transaction>)
    requires Shape(c) && Sums(c) && Claims(c, inFlight) && c.fsm.Claiming? && CoreSpec.Tick(c, cfg, env).Ok?
    ensures KeepsBatches(c, CoreSpec.Tick(c, cfg, env).value, inFlight)
  {
    var o := CoreSpec.Tick(c, cfg, env).value;
    var d := CoreSpec.FinishClaim(c.(lastResponse := None), c.lastResponse.value).value;
    FinishClaimKeepsShape(c);
    AfterClaimingFacts(d, cfg, env);
    SameBatchesKeepShape(d, o.core);
    ClaimsSurvive(c, o.core, inFlight, StoredClaim(c));
  }

  lemma StakingTickKeepsBatches(c: Core, cfg: Config, env: Env, inFlight: Option<Transaction>)
    requires Shape(c) && Sums(c) && Claims(c, inFlight) && c.fsm.Staking? && CoreSpec.Tick(c, cfg, env).Ok?
    ensures KeepsBatches(c, CoreSpec.Tick(c, cfg, env).value, inFlight)
  {
    var o := CoreSpec.Tick(c, cfg, env).value;
    var d := c.(lastResponse := None);
    UnbondOrIdleFacts(d, cfg, env);
    if o.msg.None? {
      SameBatchesKeepShape(c, o.core);
      ClaimsSurvive(c, o.core, inFlight, None);
    } else {
      RequestKeepsAll(d, env, o, inFlight);
      assert Advances(c, o.core);
    }
  }

  lemma IdleTickKeepsBatches(c: Core, cfg: Config, env: Env, inFlight: Option<Transaction>)
    requires Shape(c) && Sums(c) && Claims(c, inFlight) && c.fsm.Idle? && CoreSpec.Tick(c, cfg, env).Ok?
    ensures KeepsBatches(c, CoreSpec.Tick(c, cfg, env).value, inFlight)
  {
    var o := CoreSpec.Tick(c, cfg, env).value;
    var c1 := c.(exchangeRate := Some(CoreSpec.ExchangeRate(c, cfg, env, 0).value));
    if env.now - c.lastIdleCall >= cfg.idleMinInterval {
      ExcursionKeepsBatches(c1, cfg, env, inFlight);
    } else {
      SameBatchesKeepShape(c, o.core);
      ClaimsSurvive(c, o.core, inFlight, None);
    }
  }

  lemma ExcursionKeepsBatches(c: Core, cfg: Config, env: Env, inFlight: Option<Transaction>)
    requires Shape(c) && Sums(c) && Claims(c, inFlight) && c.fsm.Idle? && CoreSpec.IdleExcursion(c, cfg, env).Ok?
    ensures KeepsBatches(c, CoreSpec.IdleExcursion(c, cfg, env).value, inFlight)
  {
    IdleExcursionFacts(c, cfg, env);
    ReleaseKeepsShape(c, cfg, env, cfg.pumpAddress.value);
    var (after, transfer) := CoreSpec.PrepareTransfer(c.batches, CoreSpec.ReadyIds(c, env), cfg,
                                                      cfg.pumpAddress.value, env.reports.icaBalance).value;
    ReleaseThenGoOn(c, c.(batches := after), CoreSpec.IdleExcursion(c, cfg, env).value, transfer, inFlight);
  }

  /** `c` released the batches of `transfer` and became `d`; the tick ended in `o`. */
  lemma ReleaseThenGoOn(c: Core, d: Core, o: CoreSpec.Outcome, transfer: Option<ReadyBatches>,
                        inFlight: Option<Transaction>)
    requires Claims(c, inFlight) && c.fsm.Idle?
    requires Shape(d) && Sums(d) && Advances(c, d) && Waiting(d, transfer)
    requires d.batches.Keys == c.batches.Keys && d.fsm.Idle?
    requires forall i | Listed(transfer, i) :: i in c.batches && c.batches[i].status.UnbondingStarted?
    requires forall i | i in c.batches && !Listed(transfer, i) :: d.batches[i] == c.batches[i]
    requires SameBatches(d, o.core) && o.core.lastResponse == c.lastResponse
    requires Announced(o.core.fsm, o.msg) && !o.core.fsm.Unbonding?
    requires o.core.fsm.Claiming? ==> o.msg.value.tx.transfer == transfer
    ensures KeepsBatches(c, o, inFlight)
  {
    SameBatchesKeepShape(d, o.core);
    ClaimsSurvive(c, o.core, inFlight, transfer);
    if o.core.fsm.Claiming? && inFlight.None? { NewClaim(o.core, o.msg.value.tx); }
  }

  lemma HookKeepsBatches(c: Core, d: Core, hook: Hook)
    requires Shape(c) && Sums(c) && Claims(c, Some(hook.tx))
    requires SameBatches(c, d) && d.lastResponse == Some(hook)
    requires c.fsm.Unbonding? <==> d.fsm.Unbonding?
    ensures Shape(d) && Sums(d) && Claims(d, None) && Advances(c, d)
  {
    assert forall i :: Listed(StoredClaim(d), i) ==> Listed(ClaimedBatches(Some(hook.tx)), i);
  }

  lemma TickStepKeepsBatches(w: World, cfg: Config, env: Env, submitSucceeds: bool)
    requires Channel(w) && Machine(w) && Batches(w) && TickStep(w, cfg, env, submitSucceeds).Ok?
    ensures var w' := TickStep(w, cfg, env, submitSucceeds).value;
            Batches(w') && Advances(w.core, w'.core)
  {
    TickKeepsBatches(w.core, cfg, env.(bank := w.bank), w.puppeteer.tx.transaction);
  }

  lemma DeliverStepKeepsBatches(w: World, env: Env, seqId: nat, ack: Ack)
    requires Channel(w) && Machine(w) && Batches(w) && DeliverStep(w, env, seqId, ack).Ok?
    ensures var w' := DeliverStep(w, env, seqId, ack).value;
            Batches(w') && Advances(w.core, w'.core)
  {
    var hook := PuppeteerSpec.Sudo(w.puppeteer, ack).value.1;
    HookMoves(w.core, env.(bank := w.bank), hook);
    HookKeepsBatches(w.core, DeliverStep(w, env, seqId, ack).value.core, hook);
  }

  lemma BondStepKeepsBatches(w: World, cfg: Config, env: Env, trace: Option<string>)
    requires Batches(w) && BondStep(w, cfg, env, trace).Ok?
    ensures var w' := BondStep(w, cfg, env, trace).value;
            Batches(w') && Advances(w.core, w'.core)
  {
    BondMoves(w.core, cfg, env.(bank := CreditBond(w.bank, cfg, env.funds)), trace);
  }

  lemma UnbondStepKeepsBatches(w: World, cfg: Config, env: Env, sender: string)
    requires Batches(w) && UnbondStep(w, cfg, env, sender).Ok?
    ensures var w' := UnbondStep(w, cfg, env, sender).value;
            Batches(w') && Advances(w.core, w'.core)
  {
    UnbondStepCore(w, cfg, env, sender);
    UnbondKeepsBatches(w.core, cfg, env.(bank := w.bank), sender, w.puppeteer.tx.transaction);
  }

  lemma UnbondStepCore(w: World, cfg: Config, env: Env, sender: string)
    requires UnbondStep(w, cfg, env, sender).Ok?
    ensures CoreSpec.Unbond(w.core, cfg, env.(bank := w.bank), sender).Ok?
    ensures var w' := UnbondStep(w, cfg, env, sender).value;
            && w'.core == CoreSpec.Unbond(w.core, cfg, env.(bank := w.bank), sender).value.0
            && w'.puppeteer == w.puppeteer
  {
  }

  /** The steps that do not touch core. */
  lemma OutsideStepKeepsBatches(w: World, cfg: Config, step: Step)
    requires Batches(w) && (step.RegisterIca? || step.OpenAck? || step.Withdraw?)
    ensures Batches(Next(w, cfg, step)) && Advances(w.core, Next(w, cfg, step).core)
  {
  }

  /** Every step of the protocol keeps the invariant and moves the batches forward. */
  lemma StepKeepsBatches(w: World, cfg: Config, step: Step)
    requires Channel(w) && Machine(w) && Batches(w)
    ensures Batches(Next(w, cfg, step))
    ensures Advances(w.core, Next(w, cfg, step).core)
  {
    if Try(w, cfg, step).Ok? {
      match step
      case Bond(env, trace) => BondStepKeepsBatches(w, cfg, env, trace);
      case Unbond(env, sender) => UnbondStepKeepsBatches(w, cfg, env, sender);
      case Tick(env, submitSucceeds) => TickStepKeepsBatches(w, cfg, env, submitSucceeds);
      case Deliver(seqId, ack, env) => DeliverStepKeepsBatches(w, env, seqId, ack);
      case _ => OutsideStepKeepsBatches(w, cfg, step);
    }
  }
}
