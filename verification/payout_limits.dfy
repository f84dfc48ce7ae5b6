/** What all vouchers of a batch are worth, and when they can be paid out of its coins. Nothing
    here depends on whether the batch was overwritten. */
module PayoutLimits {
  import opened Results
  import opened ProtocolTypes
  import opened ProtocolSpec
  import opened BatchInvariant
  import opened VoucherInvariant
  import opened ProtocolTheorems
  import CoreSpec

  // ---------------------------------------------------------------- worth of vouchers

  ghost function TokensOf(tokens: set<TokenId>, b: nat): set<TokenId> { set t | t in tokens && t.batchId == b }

  /** What a set of vouchers is worth at one slashing. */
  ghost function Worth(tokens: set<TokenId>, vouchers: map<TokenId, Voucher>, slash: nat): nat
    requires tokens <= vouchers.Keys
  {
    if tokens == {} then 0
    else
      var t :| t in tokens;
      SlashedAmount(slash, vouchers[t].expectedAmount) + Worth(tokens - {t}, vouchers, slash)
  }

  /** In any order. */
  lemma {:induction false} WorthWithout(tokens: set<TokenId>, t: TokenId, vouchers: map<TokenId, Voucher>, slash: nat)
    requires tokens <= vouchers.Keys && t in tokens
    ensures Worth(tokens, vouchers, slash)
         == SlashedAmount(slash, vouchers[t].expectedAmount) + Worth(tokens - {t}, vouchers, slash)
    decreases |tokens|
  {
    var first :| first in tokens && Worth(tokens, vouchers, slash)
                 == SlashedAmount(slash, vouchers[first].expectedAmount) + Worth(tokens - {first}, vouchers, slash);
    if first != t {
      WorthWithout(tokens - {first}, t, vouchers, slash);
      WorthWithout(tokens - {t}, first, vouchers, slash);
      assert tokens - {first} - {t} == tokens - {t} - {first};
    }
  }

  lemma {:induction false} WorthOfSubset(a: set<TokenId>, b: set<TokenId>, vouchers: map<TokenId, Voucher>, slash: nat)
    requires a <= b <= vouchers.Keys
    ensures Worth(a, vouchers, slash) <= Worth(b, vouchers, slash)
    decreases |a|
  {
    if a != {} {
      var t :| t in a;
      WorthWithout(a, t, vouchers, slash);
      WorthWithout(b, t, vouchers, slash);
      WorthOfSubset(a - {t}, b - {t}, vouchers, slash);
    }
  }

  lemma {:induction false} SameVouchersSameWorth(tokens: set<TokenId>, before: map<TokenId, Voucher>,
                                                 after: map<TokenId, Voucher>, slash: nat)
    requires tokens <= before.Keys && tokens <= after.Keys
    requires forall t | t in tokens :: before[t] == after[t]
    ensures Worth(tokens, before, slash) == Worth(tokens, after, slash)
    decreases |tokens|
  {
    if tokens != {} {
      var t :| t in tokens;
      WorthWithout(tokens, t, before, slash);
      WorthWithout(tokens, t, after, slash);
      SameVouchersSameWorth(tokens - {t}, before, after, slash);
    }
  }

  // ---------------------------------------------------------------- over every run

  ghost function Slash(b: UnbondBatch): nat { if b.slashingEffect.Some? then b.slashingEffect.value else 0 }

  /** Every batch has paid what its redeemed vouchers are worth, and only Withdrawn ones paid. */
  ghost predicate PaidIsWorth(w: World) {
    && w.redeemed <= w.vouchers.Keys
    && forall b | b in w.core.batches ::
         if w.core.batches[b].status.Withdrawn?
         then Paid(w, b) == Worth(TokensOf(w.redeemed, b), w.vouchers, Slash(w.core.batches[b]))
         else Paid(w, b) == 0 && TokensOf(w.redeemed, b) == {}
  }

  /** A step that pays nothing and mints at most new vouchers. */
  lemma NothingPaid(w: World, w': World)
    requires PaidIsWorth(w) && Advances(w.core, w'.core)
    requires w'.redeemed == w.redeemed && w'.paid == w.paid
    requires w.vouchers.Keys <= w'.vouchers.Keys && forall t | t in w.vouchers :: w'.vouchers[t] == w.vouchers[t]
    requires forall b | b in w'.core.batches && b !in w.core.batches :: b !in w.paid && TokensOf(w.redeemed, b) == {}
    ensures PaidIsWorth(w')
  {
    forall b | b in w'.core.batches
      ensures if w'.core.batches[b].status.Withdrawn?
              then Paid(w', b) == Worth(TokensOf(w'.redeemed, b), w'.vouchers, Slash(w'.core.batches[b]))
              else Paid(w', b) == 0 && TokensOf(w'.redeemed, b) == {}
    {
      if b in w.core.batches && w.core.batches[b].status.Withdrawn? {
        SameVouchersSameWorth(TokensOf(w.redeemed, b), w.vouchers, w'.vouchers, Slash(w.core.batches[b]));
      }
    }
  }

  lemma WithdrawPaysWorth(w: World, token: TokenId)
    requires Inv(w) && PaidIsWorth(w) && WithdrawStep(w, token).Ok?
    ensures PaidIsWorth(WithdrawStep(w, token).value)
  {
    var w' := WithdrawStep(w, token).value;
    var id := token.batchId;
    assert w.vouchers[token].batchId == id;
    assert forall b | b in w.core.batches && b != id :: TokensOf(w'.redeemed, b) == TokensOf(w.redeemed, b);
    var tokens := TokensOf(w'.redeemed, id);
    assert tokens - {token} == TokensOf(w.redeemed, id);
    WorthWithout(tokens, token, w.vouchers, Slash(w.core.batches[id]));
  }

  /** The other steps redeem nothing and keep every voucher. */
  ghost predicate KeepsVouchers(w: World, w': World) {
    && w'.redeemed == w.redeemed && w'.paid == w.paid
    && w.vouchers.Keys <= w'.vouchers.Keys && (forall t | t in w.vouchers :: w'.vouchers[t] == w.vouchers[t])
    && (forall t | t in w'.vouchers && t !in w.vouchers :: t.batchId == w.core.batchId)
  }

  lemma OtherStepsKeepVouchers(w: World, cfg: Config, step: Step)
    requires !step.Withdraw?
    ensures KeepsVouchers(w, Next(w, cfg, step))
  {
    if Try(w, cfg, step).Ok? {
      match step
      case Tick(env, submitSucceeds) =>
        var o := CoreSpec.Tick(w.core, cfg, env.(bank := w.bank)).value;
        DispatchAppends(w.(core := o.core, overwritten := w.overwritten + Dropped(w.core.batches, o.core.batches)),
                        o.msg, submitSucceeds);
      case _ =>
    }
  }

  lemma StepPaysWorth(w: World, cfg: Config, step: Step)
    requires Inv(w) && PaidIsWorth(w)
    ensures PaidIsWorth(Next(w, cfg, step))
  {
    var w' := Next(w, cfg, step);
    if step.Withdraw? {
      if WithdrawStep(w, step.token).Ok? { WithdrawPaysWorth(w, step.token); }
    } else {
      StepKeeps(w, cfg, step);
      OtherStepsKeepVouchers(w, cfg, step);
      NothingPaid(w, w');
    }
  }

  lemma {:induction false} RunPaysWorth(w: World, cfg: Config, steps: seq<Step>)
    requires Inv(w) && PaidIsWorth(w)
    ensures PaidIsWorth(Run(w, cfg, steps))
    decreases |steps|
  {
    if steps != [] {
      StepKeeps(w, cfg, steps[0]);
      StepPaysWorth(w, cfg, steps[0]);
      RunPaysWorth(Next(w, cfg, steps[0]), cfg, steps[1..]);
    }
  }

  lemma InitPaidIsWorth(now: nat)
    ensures PaidIsWorth(Init(now))
  {
  }

  // ---------------------------------------------------------------- the exact limit

  /** The vouchers of one batch are the same in both states. */
  ghost predicate SameTokens(w: World, w': World, b: nat) {
    && TokensOf(w'.vouchers.Keys, b) == TokensOf(w.vouchers.Keys, b)
    && (forall t | t in w.vouchers :: t in w'.vouchers && w'.vouchers[t] == w.vouchers[t])
  }

  lemma StepKeepsTokens(w: World, cfg: Config, step: Step, b: nat)
    requires b != w.core.batchId
    ensures SameTokens(w, Next(w, cfg, step), b)
  {
    if !step.Withdraw? { OtherStepsKeepVouchers(w, cfg, step); }
  }

  lemma WithdrawnIsNotNewest(w: World, b: nat)
    requires Inv(w) && b in w.core.batches && w.core.batches[b].status.Withdrawn?
    ensures b != w.core.batchId
  {
    assert Fits(w.core.batches[b], b, w.core.batchId, w.core.fsm.Unbonding?, w.core.failedBatchId);
  }

  /** A Withdrawn batch gets no further vouchers. */
  lemma {:induction false} VouchersAreFinal(w: World, cfg: Config, steps: seq<Step>, b: nat)
    requires Inv(w) && b in w.core.batches && w.core.batches[b].status.Withdrawn?
    ensures SameTokens(w, Run(w, cfg, steps), b)
    decreases |steps|
  {
    if steps != [] {
      StepKeeps(w, cfg, steps[0]);
      WithdrawnIsNotNewest(w, b);
      StepKeepsTokens(w, cfg, steps[0], b);
      VouchersAreFinal(Next(w, cfg, steps[0]), cfg, steps[1..], b);
    }
  }

  ghost function Unredeemed(w: World, b: nat): set<TokenId> { TokensOf(w.vouchers.Keys, b) - w.redeemed }

  /** Each voucher of a Withdrawn batch can be redeemed. */
  lemma RedeemOne(w: World, cfg: Config, b: nat, token: TokenId)
    requires Inv(w) && b in w.core.batches && w.core.batches[b].status.Withdrawn? && token in Unredeemed(w, b)
    ensures var w' := Next(w, cfg, Withdraw(token));
            w'.core == w.core && w'.overwritten == w.overwritten && Unredeemed(w', b) == Unredeemed(w, b) - {token}
  {
    assert Fits(w.core.batches[b], b, w.core.batchId, w.core.fsm.Unbonding?, w.core.failedBatchId);
    assert Credited(w.core.batches[b]);
    assert w.vouchers[token].batchId == b;
  }

  /** And so all of them, one after the other. */
  lemma {:induction false} RedeemAll(w: World, cfg: Config, b: nat) returns (steps: seq<Step>)
    requires Inv(w) && b in w.core.batches && w.core.batches[b].status.Withdrawn?
    ensures var w' := Run(w, cfg, steps);
            w'.core == w.core && w'.overwritten == w.overwritten && Unredeemed(w', b) == {}
    decreases |Unredeemed(w, b)|
  {
    if Unredeemed(w, b) == {} { return []; }
    var token :| token in Unredeemed(w, b);
    RedeemOne(w, cfg, b, token);
    StepKeeps(w, cfg, Withdraw(token));
    var rest := RedeemAll(Next(w, cfg, Withdraw(token)), cfg, b);
    steps := [Withdraw(token)] + rest;
    assert steps[1..] == rest;
  }

  /** The vouchers of a Withdrawn batch, whoever holds them. */
  ghost function VouchersWorth(w: World, b: nat): nat
    requires b in w.core.batches
  {
    Worth(TokensOf(w.vouchers.Keys, b), w.vouchers, Slash(w.core.batches[b]))
  }

  /** Whatever happens after a batch of a reachable state is Withdrawn, its payouts stay within
      a limit exactly when its vouchers together are worth no more: the worth is reached, and
      never exceeded. This holds for every batch, overwritten or not. */
  lemma PayoutsWithinLimitIff(now: nat, cfg: Config, before: seq<Step>, b: nat, limit: nat)
    requires var w := Run(Init(now), cfg, before); b in w.core.batches && w.core.batches[b].status.Withdrawn?
    ensures var w := Run(Init(now), cfg, before);
            (forall steps :: Paid(Run(w, cfg, steps), b) <= limit) <==> VouchersWorth(w, b) <= limit
  {
    ReachableIsAccounted(now, cfg, before);
    var w := Run(Init(now), cfg, before);
    forall steps ensures Paid(Run(w, cfg, steps), b) <= VouchersWorth(w, b) { NeverMoreThanWorth(w, cfg, steps, b); }
    var all := RedeemAll(w, cfg, b);
    AllRedeemedIsWorth(w, cfg, all, b);
  }

  lemma NeverMoreThanWorth(w: World, cfg: Config, steps: seq<Step>, b: nat)
    requires Inv(w) && PaidIsWorth(w) && b in w.core.batches && w.core.batches[b].status.Withdrawn?
    ensures Paid(Run(w, cfg, steps), b) <= VouchersWorth(w, b)
  {
    var w', slash := Run(w, cfg, steps), Slash(w.core.batches[b]);
    RunPaysWorth(w, cfg, steps);
    VouchersAreFinal(w, cfg, steps, b);
    WithdrawnIsFinal(w, cfg, steps, b);
    SameVouchersSameWorth(TokensOf(w.vouchers.Keys, b), w.vouchers, w'.vouchers, slash);
    WorthOfSubset(TokensOf(w'.redeemed, b), TokensOf(w'.vouchers.Keys, b), w'.vouchers, slash);
  }

  lemma AllRedeemedIsWorth(w: World, cfg: Config, steps: seq<Step>, b: nat)
    requires Inv(w) && PaidIsWorth(w) && b in w.core.batches && w.core.batches[b].status.Withdrawn?
    requires Unredeemed(Run(w, cfg, steps), b) == {}
    ensures Paid(Run(w, cfg, steps), b) == VouchersWorth(w, b)
  {
    var w', slash := Run(w, cfg, steps), Slash(w.core.batches[b]);
    RunPaysWorth(w, cfg, steps);
    VouchersAreFinal(w, cfg, steps, b);
    WithdrawnIsFinal(w, cfg, steps, b);
    SameVouchersSameWorth(TokensOf(w.vouchers.Keys, b), w.vouchers, w'.vouchers, slash);
    assert TokensOf(w'.redeemed, b) == TokensOf(w'.vouchers.Keys, b) by {
      assert forall t | t in TokensOf(w'.vouchers.Keys, b) :: t in Unredeemed(w', b) || t in w'.redeemed;
    }
  }

  /** The vouchers of a batch that was not overwritten are worth at most its unbonded amount. */
  lemma KeptBatchIsCovered(now: nat, cfg: Config, before: seq<Step>, b: nat)
    requires var w := Run(Init(now), cfg, before);
             b in w.core.batches && w.core.batches[b].status.Withdrawn? && b !in w.overwritten
    ensures var w := Run(Init(now), cfg, before);
            && w.core.batches[b].unbondedAmount.Some?
            && VouchersWorth(w, b) <= w.core.batches[b].unbondedAmount.value
  {
    var w := Run(Init(now), cfg, before);
    ReachableIsAccounted(now, cfg, before);
    var all := RedeemAll(w, cfg, b);
    AllRedeemedIsWorth(w, cfg, all, b);
    RunKeeps(w, cfg, all);
    assert Fits(w.core.batches[b], b, w.core.batchId, w.core.fsm.Unbonding?, w.core.failedBatchId);
    Solvent(Run(w, cfg, all), b);
  }

  lemma ReachableIsAccounted(now: nat, cfg: Config, steps: seq<Step>)
    ensures var w := Run(Init(now), cfg, steps); Inv(w) && PaidIsWorth(w)
  {
    InitHolds(now);
    RunKeeps(Init(now), cfg, steps);
    InitPaidIsWorth(now);
    RunPaysWorth(Init(now), cfg, steps);
  }
}
