/** What releasing and finishing batches does to the batch map, entry by entry. */
module BatchUpdates {
  import opened Results
  import opened FixedPoint
  import opened ProtocolTypes
  import opened CoreSpec

  type BatchMap = map<nat, UnbondBatch>

  // ---------------------------------------------------------------- sums over a batch

  function SumAmounts(items: seq<UnbondItem>): nat {
    if items == [] then 0 else SumAmounts(items[..|items| - 1]) + items[|items| - 1].amount
  }

  function SumExpected(items: seq<UnbondItem>): nat {
    if items == [] then 0 else SumExpected(items[..|items| - 1]) + items[|items| - 1].expectedAmount
  }

  ghost predicate ItemSums(b: UnbondBatch) {
    b.totalAmount == SumAmounts(b.unbondItems) && b.expectedAmount == SumExpected(b.unbondItems)
  }

  lemma AddItemSums(b: UnbondBatch, item: UnbondItem)
    requires ItemSums(b)
    ensures ItemSums(AddItem(b, item))
  {
    assert (b.unbondItems + [item])[..|b.unbondItems|] == b.unbondItems;
  }

  // ---------------------------------------------------------------- released batches

  /** What a released batch will pay out of, and the slashing its holders bear. */
  ghost predicate Slashed(b: UnbondBatch) {
    && b.unbondedAmount.Some? && b.slashingEffect.Some?
    && b.unbondedAmount.value <= b.expectedAmount
    && b.slashingEffect.value <= ONE
    && b.slashingEffect.value ==
         if b.unbondedAmount.value < b.expectedAmount then Ratio(b.unbondedAmount.value, b.expectedAmount) else ONE
  }

  lemma SlashSingleIsSlashed(b: UnbondBatch, icaBalance: nat)
    ensures Slashed(SlashSingle(b, icaBalance))
    ensures SlashSingle(b, icaBalance).unbondedAmount == Some(Min(icaBalance, b.expectedAmount))
  {
    if icaBalance < b.expectedAmount {
      FloorBounds(icaBalance * ONE, b.expectedAmount);
      RatioBelowOne(icaBalance, b.expectedAmount);
    }
  }

  lemma RatioBelowOne(a: nat, b: nat)
    requires a < b
    ensures Ratio(a, b) <= ONE
  {
    FloorBounds(a * ONE, b);
    if Ratio(a, b) > ONE { MulLe(ONE, Ratio(a, b), b); }
  }

  lemma {:induction false} MarkWithdrawnAt(batches: BatchMap, ids: seq<nat>, emergency: bool)
    requires forall i | i in ids :: i in batches
    ensures var r := MarkWithdrawn(batches, ids, emergency);
            var status := if emergency then WithdrawnEmergency else Withdrawn;
            && r.Ok? && r.value.Keys == batches.Keys
            && forall i | i in batches ::
                 r.value[i] == if i in ids then batches[i].(status := status) else batches[i]
  {
    if ids != [] {
      var status := if emergency then WithdrawnEmergency else Withdrawn;
      MarkWithdrawnAt(batches[ids[0] := batches[ids[0]].(status := status)], ids[1..], emergency);
    }
  }

  lemma {:induction false} ReleaseAllAt(batches: BatchMap, ids: seq<nat>, emergency: bool)
    requires forall i | i in ids :: i in batches
    ensures var r := ReleaseAll(batches, ids, emergency);
            && r.Keys == batches.Keys
            && forall i | i in batches ::
                 r[i] == if i in ids then ReleaseOne(batches[i], emergency) else batches[i]
  {
    if ids != [] {
      ReleaseAllAt(batches[ids[0] := ReleaseOne(batches[ids[0]], emergency)], ids[1..], emergency);
    }
  }

  /** A released batch: same items and sums, a status that says where the coins went. */
  ghost predicate ReleasedFrom(before: UnbondBatch, after: UnbondBatch, emergency: bool) {
    && after == before.(status := after.status, unbondedAmount := after.unbondedAmount,
                        slashingEffect := after.slashingEffect)
    && after.status == (if emergency then WithdrawingEmergency else Withdrawing)
    && (!emergency ==> Slashed(after))
  }

  lemma PrepareTransferAt(batches: BatchMap, ids: seq<nat>, cfg: Config, pump: string, icaBalance: nat)
    requires forall i | i in ids :: i in batches
    requires PrepareTransfer(batches, ids, cfg, pump, icaBalance).Ok?
    ensures var (after, transfer) := PrepareTransfer(batches, ids, cfg, pump, icaBalance).value;
            && after.Keys == batches.Keys
            && (transfer.None? <==> ids == [])
            && (transfer.Some? ==> transfer.value.batchIds == ids)
            && (forall i | i in batches && i !in ids :: after[i] == batches[i])
            && (forall i | i in ids :: ReleasedFrom(batches[i], after[i], transfer.value.emergency))
  {
    if |ids| == 1 {
      SlashSingleIsSlashed(batches[ids[0]], icaBalance);
      assert ids == [ids[0]];
    } else if |ids| > 1 {
      ReleaseAllAt(batches, ids, icaBalance < ExpectedTotal(batches, ids));
    }
  }

  // ---------------------------------------------------------------- the attached transfer

  function UnbondedTotal(batches: BatchMap, ids: seq<nat>): nat
    requires forall i | i in ids :: i in batches
  {
    if ids == [] then 0
    else
      var unbonded := batches[ids[0]].unbondedAmount;
      (if unbonded.Some? then unbonded.value else 0) + UnbondedTotal(batches, ids[1..])
  }

  lemma {:induction false} UnbondedIsExpected(before: BatchMap, after: BatchMap, ids: seq<nat>)
    requires forall i | i in ids :: i in before && i in after && after[i] == ReleaseOne(before[i], false)
    ensures UnbondedTotal(after, ids) == ExpectedTotal(before, ids)
  {
    if ids != [] { UnbondedIsExpected(before, after, ids[1..]); }
  }

  /** The transfer attached to a claim never exceeds the reported balance. Outside an
      emergency it is exactly what the listed batches were credited with; an emergency means
      that the balance cannot cover the expected total, and then all of it is moved. */
  lemma TransferIsBacked(batches: BatchMap, ids: seq<nat>, cfg: Config, pump: string, icaBalance: nat)
    requires forall i | i in ids :: i in batches
    requires var r := PrepareTransfer(batches, ids, cfg, pump, icaBalance); r.Ok? && r.value.1.Some?
    ensures var (after, transfer) := PrepareTransfer(batches, ids, cfg, pump, icaBalance).value;
            var t := transfer.value;
            && t.batchIds == ids
            && t.amount <= icaBalance
            && (!t.emergency ==>
                  && t.recipient == pump
                  && (forall i | i in ids :: i in after && Slashed(after[i]))
                  && t.amount == UnbondedTotal(after, ids))
            && (t.emergency <==> |ids| > 1 && icaBalance < ExpectedTotal(batches, ids))
            && (t.emergency ==> t.amount == icaBalance && Some(t.recipient) == cfg.emergencyAddress)
  {
    PrepareTransferAt(batches, ids, cfg, pump, icaBalance);
    var (after, transfer) := PrepareTransfer(batches, ids, cfg, pump, icaBalance).value;
    if |ids| == 1 {
      SlashSingleIsSlashed(batches[ids[0]], icaBalance);
      assert ids[1..] == [];
    } else if !transfer.value.emergency {
      ReleaseAllAt(batches, ids, false);
      UnbondedIsExpected(batches, after, ids);
    }
  }

  /** The batches an idle tick releases, exactly and in id order: those that unbond, whose
      release time has come, and whose coins the reported balance is new enough to show. */
  lemma ReadyIdsExact(c: Core, env: Env)
    ensures forall i :: i in ReadyIds(c, env) <==>
              && i in c.batches && i <= c.batchId && c.batches[i].status.UnbondingStarted?
              && c.batches[i].expectedRelease <= env.now && c.batches[i].expectedRelease < env.reports.time
    ensures forall p, q :: 0 <= p < q < |ReadyIds(c, env)| ==> ReadyIds(c, env)[p] < ReadyIds(c, env)[q]
  {
    UnbondingIdsExact(c.batches, c.batchId + 1);
    DueIdsExact(c.batches, UnbondingIds(c.batches, c.batchId + 1), env);
  }

  lemma {:induction false} UnbondingIdsExact(batches: BatchMap, n: nat)
    ensures forall i :: i in UnbondingIds(batches, n) <==>
              i < n && i in batches && batches[i].status.UnbondingStarted?
    ensures forall p, q :: 0 <= p < q < |UnbondingIds(batches, n)| ==>
              UnbondingIds(batches, n)[p] < UnbondingIds(batches, n)[q]
  {
    if n > 0 {
      UnbondingIdsExact(batches, n - 1);
      var before, ids := UnbondingIds(batches, n - 1), UnbondingIds(batches, n);
      forall p, q | 0 <= p < q < |ids| ensures ids[p] < ids[q] {
        assert ids[p] in before;
      }
    }
  }

  lemma {:induction false} DueIdsExact(batches: BatchMap, ids: seq<nat>, env: Env)
    requires forall i | i in ids :: i in batches
    requires forall p, q :: 0 <= p < q < |ids| ==> ids[p] < ids[q]
    ensures forall i :: i in DueIds(batches, ids, env) <==> i in ids && Due(batches[i], env)
    ensures forall p, q :: 0 <= p < q < |DueIds(batches, ids, env)| ==>
              DueIds(batches, ids, env)[p] < DueIds(batches, ids, env)[q]
  {
    if ids != [] {
      DueIdsExact(batches, ids[1..], env);
      var rest, due := DueIds(batches, ids[1..], env), DueIds(batches, ids, env);
      assert forall i :: i in ids <==> i == ids[0] || i in ids[1..];
      if Due(batches[ids[0]], env) {
        forall p, q | 0 <= p < q < |due| ensures due[p] < due[q] {
          assert due[q] == rest[q - 1] && due[q] in rest;
          if p > 0 { assert due[p] == rest[p - 1]; }
          else {
            assert due[q] in ids[1..];
            var j :| 0 <= j < |ids[1..]| && ids[1..][j] == due[q];
            assert ids[0] < ids[j + 1];
          }
        }
      }
    }
  }
}
