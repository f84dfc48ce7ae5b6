/** Vouchers, payouts and the coins behind them over every run. */
module VoucherInvariant {
  import opened Results
  import opened FixedPoint
  import opened ProtocolTypes
  import opened ProtocolSpec
  import opened BatchUpdates
  import opened TickFacts
  import opened BatchInvariant
  import CoreSpec
  import ChannelInvariant
  import MachineInvariant
  import PuppeteerSpec

  ghost predicate Consistent(w: World) {
    ChannelInvariant.Channel(w) && MachineInvariant.Machine(w) && Batches(w)
  }

  /** The voucher minted for the item at position i. */
  ghost function TokenOf(b: nat, items: seq<UnbondItem>, i: nat): TokenId
    requires i < |items|
  {
    TokenId(b, items[i].sender, i + 1)
  }

  /** The voucher's item is still in its batch. */
  ghost predicate Backed(token: TokenId, v: Voucher, items: seq<UnbondItem>) {
    && 1 <= token.index <= |items|
    && v.batchId == token.batchId
    && items[token.index - 1] == UnbondItem(token.sender, v.amount, v.expectedAmount)
  }

  /** Every voucher of a batch that was not overwritten is backed by its own item. */
  ghost predicate AllBacked(w: World) {
    && (forall t | t in w.vouchers :: t.batchId in w.core.batches && w.vouchers[t].batchId == t.batchId)
    && (forall t | t in w.vouchers && t.batchId !in w.overwritten ::
          Backed(t, w.vouchers[t], w.core.batches[t.batchId].unbondItems))
  }

  /** Every item of a batch that was not overwritten has its voucher. */
  ghost predicate AllMinted(w: World) {
    forall b | b in w.core.batches && b !in w.overwritten :: Minted(w.vouchers, b, w.core.batches[b].unbondItems)
  }

  ghost predicate Minted(vouchers: map<TokenId, Voucher>, b: nat, items: seq<UnbondItem>) {
    forall i | 0 <= i < |items| :: TokenOf(b, items, i) in vouchers
  }

  /** Redeemed vouchers were minted, and their batch is paid out. */
  ghost predicate RedeemedFromWithdrawn(w: World) {
    forall t | t in w.redeemed ::
      t in w.vouchers && t.batchId in w.core.batches && w.core.batches[t.batchId].status.Withdrawn?
  }

  /** What the redeemed vouchers among the first items are worth. */
  ghost function PaidFor(redeemed: set<TokenId>, b: nat, items: seq<UnbondItem>, slash: nat): nat {
    if items == [] then 0
    else
      var n := |items| - 1;
      PaidFor(redeemed, b, items[..n], slash)
      + if TokenId(b, items[n].sender, n + 1) in redeemed then SlashedAmount(slash, items[n].expectedAmount) else 0
  }

  ghost predicate Accounted(w: World, b: nat, batch: UnbondBatch) {
    Paid(w, b) == if batch.status.Withdrawn? && batch.slashingEffect.Some?
                  then PaidFor(w.redeemed, b, batch.unbondItems, batch.slashingEffect.value) else 0
  }

  ghost predicate AllAccounted(w: World) {
    && (forall b | b in w.core.batches && b !in w.overwritten :: Accounted(w, b, w.core.batches[b]))
    && (forall b | b in w.paid :: b in w.core.batches)
  }

  ghost predicate Vouchers(w: World) {
    AllBacked(w) && AllMinted(w) && RedeemedFromWithdrawn(w) && AllAccounted(w)
  }

  // ---------------------------------------------------------------- sums of payouts

  lemma {:induction false} NothingRedeemed(redeemed: set<TokenId>, b: nat, items: seq<UnbondItem>, slash: nat)
    requires forall t | t in redeemed :: t.batchId != b
    ensures PaidFor(redeemed, b, items, slash) == 0
  {
    if items != [] { NothingRedeemed(redeemed, b, items[..|items| - 1], slash); }
  }

  lemma {:induction false} OtherTokens(redeemed: set<TokenId>, t: TokenId, b: nat, items: seq<UnbondItem>, slash: nat)
    requires t.batchId != b || t.index == 0 || t.index > |items|
    ensures PaidFor(redeemed + {t}, b, items, slash) == PaidFor(redeemed, b, items, slash)
  {
    if items != [] { OtherTokens(redeemed, t, b, items[..|items| - 1], slash); }
  }

  /** Redeeming one more voucher adds exactly its payout. */
  lemma {:induction false} OneMoreToken(redeemed: set<TokenId>, t: TokenId, b: nat, items: seq<UnbondItem>, slash: nat)
    requires t !in redeemed && t.batchId == b && 1 <= t.index <= |items| && items[t.index - 1].sender == t.sender
    ensures PaidFor(redeemed + {t}, b, items, slash)
         == PaidFor(redeemed, b, items, slash) + SlashedAmount(slash, items[t.index - 1].expectedAmount)
  {
    var n := |items| - 1;
    if t.index == |items| {
      OtherTokens(redeemed, t, b, items[..n], slash);
    } else {
      OneMoreToken(redeemed, t, b, items[..n], slash);
    }
  }

  lemma SlashedAmountBounds(slash: nat, expected: nat)
    requires slash <= ONE
    ensures SlashedAmount(slash, expected) * ONE <= slash * expected
    ensures slash * expected < SlashedAmount(slash, expected) * ONE + ONE
  {
    FloorBounds(expected * slash, ONE);
    MulLe(slash, ONE, expected);
    assert MulFloor(expected, slash) <= expected;
  }

  lemma {:induction false} PaidForAtMost(redeemed: set<TokenId>, b: nat, items: seq<UnbondItem>, slash: nat)
    requires slash <= ONE
    ensures PaidFor(redeemed, b, items, slash) * ONE <= slash * SumExpected(items)
  {
    if items != [] {
      var n := |items| - 1;
      PaidForAtMost(redeemed, b, items[..n], slash);
      SlashedAmountBounds(slash, items[n].expectedAmount);
      AddProduct(slash, SumExpected(items[..n]), items[n].expectedAmount);
    }
  }

  lemma {:induction false} PaidForAtLeast(redeemed: set<TokenId>, b: nat, items: seq<UnbondItem>, slash: nat)
    requires slash <= ONE
    requires forall i | 0 <= i < |items| :: TokenOf(b, items, i) in redeemed
    ensures slash * SumExpected(items) <= (PaidFor(redeemed, b, items, slash) + |items|) * ONE
  {
    if items != [] {
      var n := |items| - 1;
      assert TokenOf(b, items, n) in redeemed;
      forall i | 0 <= i < n ensures TokenOf(b, items[..n], i) in redeemed {
        assert TokenOf(b, items, i) in redeemed;
      }
      PaidForAtLeast(redeemed, b, items[..n], slash);
      SlashedAmountBounds(slash, items[n].expectedAmount);
      AddProduct(slash, SumExpected(items[..n]), items[n].expectedAmount);
    }
  }

  lemma AddProduct(a: nat, b: nat, c: nat)
    ensures a * (b + c) == a * b + a * c
  {
  }

  /** From the slashing of a batch to the coins it was credited with. */
  lemma SlashCoversUnbonded(b: UnbondBatch)
    requires Slashed(b)
    ensures b.slashingEffect.value * b.expectedAmount <= b.unbondedAmount.value * ONE
    ensures b.unbondedAmount.value * ONE <= b.slashingEffect.value * b.expectedAmount + b.expectedAmount
  {
    if b.unbondedAmount.value < b.expectedAmount {
      FloorBounds(b.unbondedAmount.value * ONE, b.expectedAmount);
    }
  }

  // ---------------------------------------------------------------- steps

  /** Items stay in their batch, or the batch is new or emptied. */
  ghost predicate ItemsKept(c: Core, d: Core) {
    && (forall i | i in c.batches :: i in d.batches)
    && (forall i | i in d.batches ::
          (i in c.batches && d.batches[i].unbondItems == c.batches[i].unbondItems) || d.batches[i].unbondItems == [])
  }

  lemma TickKeepsItems(w: World, cfg: Config, env: Env)
    requires Consistent(w) && CoreSpec.Tick(w.core, cfg, env).Ok?
    ensures ItemsKept(w.core, CoreSpec.Tick(w.core, cfg, env).value.core)
  {
    var c := w.core;
    match c.fsm
    case Idle =>
      var c1 := c.(exchangeRate := Some(CoreSpec.ExchangeRate(c, cfg, env, 0).value));
      if env.now - c.lastIdleCall >= cfg.idleMinInterval { ExcursionKeepsItems(c1, cfg, env); }
    case Claiming =>
      FinishClaimKeepsItems(c);
      AfterClaimingFacts(CoreSpec.FinishClaim(c.(lastResponse := None), c.lastResponse.value).value, cfg, env);
    case _ => OtherTickKeepsItems(c, cfg, env);
  }

  lemma OtherTickKeepsItems(c: Core, cfg: Config, env: Env)
    requires c.fsm.Transfering? || c.fsm.Staking? || c.fsm.Unbonding?
    requires CoreSpec.Tick(c, cfg, env).Ok?
    ensures ItemsKept(c, CoreSpec.Tick(c, cfg, env).value.core)
  {
    match c.fsm
    case Transfering => StakeOrUnbondFacts(c.(lastResponse := None), cfg, env);
    case Staking => UnbondOrIdleFacts(c.(lastResponse := None), cfg, env);
    case Unbonding =>
  }

  lemma ExcursionKeepsItems(c: Core, cfg: Config, env: Env)
    requires c.fsm.Idle? && CoreSpec.IdleExcursion(c, cfg, env).Ok?
    ensures ItemsKept(c, CoreSpec.IdleExcursion(c, cfg, env).value.core)
  {
    IdleExcursionFacts(c, cfg, env);
    PrepareTransferAt(c.batches, CoreSpec.ReadyIds(c, env), cfg, cfg.pumpAddress.value, env.reports.icaBalance);
  }

  lemma FinishClaimKeepsItems(c: Core)
    requires Waiting(c, StoredClaim(c)) && c.lastResponse.Some?
    requires CoreSpec.FinishClaim(c.(lastResponse := None), c.lastResponse.value).Ok?
    ensures ItemsKept(c, CoreSpec.FinishClaim(c.(lastResponse := None), c.lastResponse.value).value)
  {
    match c.lastResponse.value
    case Success(ClaimRewards(_, Some(t))) =>
      assert forall i | i in t.batchIds :: Listed(StoredClaim(c), i);
      MarkWithdrawnAt(c.batches, t.batchIds, t.emergency);
    case _ =>
  }

  /** A step that only moves batches on keeps the vouchers. */
  lemma AdvanceKeepsVouchers(w: World, w': World)
    requires Consistent(w) && Vouchers(w)
    requires ItemsKept(w.core, w'.core) && Advances(w.core, w'.core)
    requires w'.vouchers == w.vouchers && w'.redeemed == w.redeemed && w'.paid == w.paid
    requires w'.overwritten == w.overwritten + Dropped(w.core.batches, w'.core.batches)
    ensures Vouchers(w')
  {
    forall t | t in w'.vouchers && t.batchId !in w'.overwritten
      ensures Backed(t, w'.vouchers[t], w'.core.batches[t.batchId].unbondItems)
    {
      assert Backed(t, w.vouchers[t], w.core.batches[t.batchId].unbondItems);
      assert t.batchId !in Dropped(w.core.batches, w'.core.batches);
    }
    forall b | b in w'.core.batches && b !in w'.overwritten
      ensures Accounted(w', b, w'.core.batches[b])
      ensures Minted(w'.vouchers, b, w'.core.batches[b].unbondItems)
    {
      AccountStays(w, w', b);
      if b in w.core.batches { assert Minted(w.vouchers, b, w.core.batches[b].unbondItems); }
    }
  }

  lemma AccountStays(w: World, w': World, b: nat)
    requires Consistent(w) && Vouchers(w)
    requires ItemsKept(w.core, w'.core) && Advances(w.core, w'.core)
    requires w'.redeemed == w.redeemed && w'.paid == w.paid
    requires b in w'.core.batches && b !in w.overwritten
    ensures Accounted(w', b, w'.core.batches[b])
  {
    var batch := w'.core.batches[b];
    if b in w.core.batches && w.core.batches[b].status.Withdrawn? {
      assert Accounted(w, b, w.core.batches[b]);
    } else {
      if b in w.core.batches { assert Accounted(w, b, w.core.batches[b]); }
      assert forall t | t in w.redeemed :: t.batchId != b;
      if batch.slashingEffect.Some? { NothingRedeemed(w.redeemed, b, batch.unbondItems, batch.slashingEffect.value); }
    }
  }

  lemma TickStepKeepsItems(w: World, cfg: Config, env: Env, submitSucceeds: bool)
    requires Consistent(w) && TickStep(w, cfg, env, submitSucceeds).Ok?
    ensures var w' := TickStep(w, cfg, env, submitSucceeds).value;
            && ItemsKept(w.core, w'.core)
            && w'.vouchers == w.vouchers && w'.redeemed == w.redeemed && w'.paid == w.paid
            && w'.overwritten == w.overwritten + Dropped(w.core.batches, w'.core.batches)
  {
    TickKeepsItems(w, cfg, env.(bank := w.bank));
  }

  lemma TickStepKeepsVouchers(w: World, cfg: Config, env: Env, submitSucceeds: bool)
    requires Consistent(w) && Vouchers(w) && TickStep(w, cfg, env, submitSucceeds).Ok?
    ensures Vouchers(TickStep(w, cfg, env, submitSucceeds).value)
  {
    TickStepKeepsItems(w, cfg, env, submitSucceeds);
    TickStepKeepsBatches(w, cfg, env, submitSucceeds);
    AdvanceKeepsVouchers(w, TickStep(w, cfg, env, submitSucceeds).value);
  }

  /** A bond or a hook leaves the batches as they are. */
  lemma SameBatchesKeepVouchers(w: World, w': World)
    requires Vouchers(w) && SameBatches(w.core, w'.core)
    requires w'.vouchers == w.vouchers && w'.redeemed == w.redeemed
    requires w'.paid == w.paid && w'.overwritten == w.overwritten
    ensures Vouchers(w')
  {
    forall b | b in w'.core.batches && b !in w'.overwritten ensures Accounted(w', b, w'.core.batches[b]) {
      assert Accounted(w, b, w.core.batches[b]);
    }
  }

  lemma UnbondStepKeepsMinted(w: World, cfg: Config, env: Env, sender: string)
    requires AllMinted(w) && UnbondStep(w, cfg, env, sender).Ok?
    ensures AllMinted(UnbondStep(w, cfg, env, sender).value)
  {
    var w' := UnbondStep(w, cfg, env, sender).value;
    forall b | b in w'.core.batches && b !in w'.overwritten
      ensures Minted(w'.vouchers, b, w'.core.batches[b].unbondItems)
    {
      var items := w.core.batches[b].unbondItems;
      assert Minted(w.vouchers, b, items);
      forall i | 0 <= i < |w'.core.batches[b].unbondItems|
        ensures TokenOf(b, w'.core.batches[b].unbondItems, i) in w'.vouchers
      {
        if i < |items| { assert TokenOf(b, items, i) in w.vouchers; }
      }
    }
  }

  lemma UnbondStepKeepsVouchers(w: World, cfg: Config, env: Env, sender: string)
    requires Consistent(w) && Vouchers(w) && UnbondStep(w, cfg, env, sender).Ok?
    ensures Vouchers(UnbondStep(w, cfg, env, sender).value)
  {
    UnbondStepKeepsMinted(w, cfg, env, sender);
    var w' := UnbondStep(w, cfg, env, sender).value;
    var (d, item) := CoreSpec.Unbond(w.core, cfg, env.(bank := w.bank), sender).value;
    var id := w.core.batchId;
    assert Fits(w.core.batches[id], id, id, w.core.fsm.Unbonding?, w.core.failedBatchId);
    forall t | t in w'.vouchers && t.batchId !in w'.overwritten
      ensures Backed(t, w'.vouchers[t], w'.core.batches[t.batchId].unbondItems)
    {
      if t in w.vouchers { assert Backed(t, w.vouchers[t], w.core.batches[t.batchId].unbondItems); }
    }
    forall b | b in w'.core.batches && b !in w'.overwritten ensures Accounted(w', b, w'.core.batches[b]) {
      assert Accounted(w, b, w.core.batches[b]);
    }
  }

  lemma WithdrawStepKeepsVouchers(w: World, token: TokenId)
    requires Vouchers(w) && WithdrawStep(w, token).Ok?
    ensures Vouchers(WithdrawStep(w, token).value)
  {
    var w' := WithdrawStep(w, token).value;
    forall b | b in w'.core.batches && b !in w'.overwritten ensures Accounted(w', b, w'.core.batches[b]) {
      var batch := w.core.batches[b];
      assert Accounted(w, b, batch);
      if batch.slashingEffect.Some? {
        if b == token.batchId {
          assert Backed(token, w.vouchers[token], batch.unbondItems);
          OneMoreToken(w.redeemed, token, b, batch.unbondItems, batch.slashingEffect.value);
        } else {
          OtherTokens(w.redeemed, token, b, batch.unbondItems, batch.slashingEffect.value);
        }
      }
    }
  }

  lemma StepKeepsVouchers(w: World, cfg: Config, step: Step)
    requires Consistent(w) && Vouchers(w)
    ensures Vouchers(Next(w, cfg, step))
  {
    if Try(w, cfg, step).Ok? {
      match step
      case Bond(env, trace) =>
        MachineInvariant.BondMoves(w.core, cfg, env.(bank := CreditBond(w.bank, cfg, env.funds)), trace);
        SameBatchesKeepVouchers(w, Next(w, cfg, step));
      case Unbond(env, sender) => UnbondStepKeepsVouchers(w, cfg, env, sender);
      case Tick(env, submitSucceeds) => TickStepKeepsVouchers(w, cfg, env, submitSucceeds);
      case Deliver(seqId, ack, env) =>
        var hook := PuppeteerSpec.Sudo(w.puppeteer, ack).value.1;
        MachineInvariant.HookMoves(w.core, env.(bank := w.bank), hook);
        SameBatchesKeepVouchers(w, Next(w, cfg, step));
      case Withdraw(token) => WithdrawStepKeepsVouchers(w, token);
      case _ => SameBatchesKeepVouchers(w, Next(w, cfg, step));
    }
  }

  // ---------------------------------------------------------------- solvency

  /** A Withdrawn batch that was never overwritten pays out at most the coins it was credited
      with; and once all its vouchers are redeemed it falls short of them by at most one token
      a voucher plus expectedAmount / 10^18. */
  lemma Solvent(w: World, b: nat)
    requires Consistent(w) && Vouchers(w)
    requires b in w.core.batches && b !in w.overwritten && w.core.batches[b].status.Withdrawn?
    ensures var batch := w.core.batches[b];
            && batch.unbondedAmount.Some?
            && Paid(w, b) <= batch.unbondedAmount.value
            && ((forall t | t in w.vouchers && t.batchId == b :: t in w.redeemed) ==>
                  batch.unbondedAmount.value * ONE
                  <= (Paid(w, b) + |batch.unbondItems|) * ONE + batch.expectedAmount)
  {
    var batch := w.core.batches[b];
    assert Fits(batch, b, w.core.batchId, w.core.fsm.Unbonding?, w.core.failedBatchId);
    assert Accounted(w, b, batch);
    SlashCoversUnbonded(batch);
    PaidForAtMost(w.redeemed, b, batch.unbondItems, batch.slashingEffect.value);
    if forall t | t in w.vouchers && t.batchId == b :: t in w.redeemed {
      assert Minted(w.vouchers, b, batch.unbondItems);
      PaidForAtLeast(w.redeemed, b, batch.unbondItems, batch.slashingEffect.value);
    }
    assert batch.expectedAmount == SumExpected(batch.unbondItems);
  }

  // ---------------------------------------------------------------- the retry of a failed batch

  lemma RetryEmptiesNext(w: World, cfg: Config, env: Env, submitSucceeds: bool)
    requires Consistent(w) && TickStep(w, cfg, env, submitSucceeds).Ok?
    requires w.core.failedBatchId.Some? && w.core.fsm.Staking?
    requires TickStep(w, cfg, env, submitSucceeds).value.core.fsm.Unbonding?
    ensures var w' := TickStep(w, cfg, env, submitSucceeds).value;
            && w'.vouchers == w.vouchers
            && w'.core.batchId == w.core.batchId
            && w.core.batchId in w'.core.batches && w'.core.batches[w.core.batchId].unbondItems == []
  {
    UnbondOrIdleFacts(w.core.(lastResponse := None), cfg, env.(bank := w.bank));
  }

  /** Every voucher of the batch is backed by its item. */
  ghost predicate BatchBacked(vouchers: map<TokenId, Voucher>, b: nat, items: seq<UnbondItem>) {
    forall t | t in vouchers && t.batchId == b :: Backed(t, vouchers[t], items)
  }

  /** Retrying a failed batch stores an empty batch behind it. The vouchers of that next
      batch stay backed exactly when it held no items. */
  lemma RetryKeepsVouchersIff(w: World, cfg: Config, env: Env, submitSucceeds: bool)
    requires Consistent(w) && Vouchers(w) && TickStep(w, cfg, env, submitSucceeds).Ok?
    requires w.core.failedBatchId.Some? && w.core.batchId !in w.overwritten
    requires w.core.fsm.Staking? && TickStep(w, cfg, env, submitSucceeds).value.core.fsm.Unbonding?
    ensures var w', next := TickStep(w, cfg, env, submitSucceeds).value, w.core.batchId;
            && next in w'.core.batches
            && (BatchBacked(w'.vouchers, next, w'.core.batches[next].unbondItems)
                <==> w.core.batches[next].unbondItems == [])
  {
    RetryEmptiesNext(w, cfg, env, submitSucceeds);
    EmptyBatchBacksNothing(w, w.core.batchId);
  }

  lemma EmptyBatchBacksNothing(w: World, b: nat)
    requires Vouchers(w) && b in w.core.batches && b !in w.overwritten
    ensures BatchBacked(w.vouchers, b, []) <==> w.core.batches[b].unbondItems == []
  {
    var items := w.core.batches[b].unbondItems;
    assert BatchBacked(w.vouchers, b, items);
    if items != [] {
      assert Minted(w.vouchers, b, items);
      assert TokenOf(b, items, 0) in w.vouchers;
    }
  }
}
