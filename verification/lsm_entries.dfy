/** The entries of the LSM share ledgers, denom by denom, and what a redeem asks the remote
    chain for. */
module LsmEntries {
  import opened Results
  import opened ShareLedger
  import opened ProtocolTypes
  import opened ProtocolSpec
  import opened TickFacts
  import opened LsmInvariant
  import opened ProtocolTheorems
  import CoreSpec
  import PuppeteerSpec

  // ---------------------------------------------------------------- one transfer, one bond

  /** An acknowledged transfer of LSM shares moves its amount from the pending entry of its
      denom to the entry to redeem, which keeps its remote denom or takes that of the pending
      one. The pending entry shrinks or goes, every other entry stays. */
  lemma SentSharesMoveTheirEntry(c: Core, env: Env, denom: string, amount: nat)
    requires denom in c.pendingLsmShares && amount <= c.pendingLsmShares[denom].amount
    ensures var r := CoreSpec.PuppeteerHook(c, env, Success(IbcTransfer(denom, amount, LsmShare)));
            var pending, redeem := c.pendingLsmShares, c.lsmSharesToRedeem;
            && r.Ok?
            && r.value.lsmSharesToRedeem.Keys == redeem.Keys + {denom}
            && r.value.lsmSharesToRedeem[denom].remoteDenom
               == (if denom in redeem then redeem[denom].remoteDenom else pending[denom].remoteDenom)
            && r.value.lsmSharesToRedeem[denom].amount == (if denom in redeem then redeem[denom].amount else 0) + amount
            && (denom in r.value.pendingLsmShares <==> amount < pending[denom].amount)
            && (denom in r.value.pendingLsmShares ==>
                  && r.value.pendingLsmShares[denom].remoteDenom == pending[denom].remoteDenom
                  && r.value.pendingLsmShares[denom].amount + amount == pending[denom].amount)
            && (forall d | d != denom ::
                  && (d in r.value.lsmSharesToRedeem <==> d in redeem)
                  && (d in redeem ==> r.value.lsmSharesToRedeem[d] == redeem[d])
                  && (d in r.value.pendingLsmShares <==> d in pending)
                  && (d in pending ==> r.value.pendingLsmShares[d] == pending[d]))
            && r.value.totalLsmShares == c.totalLsmShares
  {
  }

  /** A bond of LSM shares raises the pending entry of its denom, which keeps its remote denom
      or takes the one of the bond; every other entry of both ledgers stays. */
  lemma BondedSharesJoinTheirEntry(c: Core, cfg: Config, env: Env, trace: Option<string>)
    requires CoreSpec.Bond(c, cfg, env, trace).Ok? && env.funds[0].denom != cfg.baseDenom
    ensures var d := CoreSpec.Bond(c, cfg, env, trace).value.0;
            var denom, pending := env.funds[0].denom, c.pendingLsmShares;
            && trace.Some? && env.funds[0].amount >= cfg.lsmMinBondAmount
            && d.pendingLsmShares.Keys == pending.Keys + {denom}
            && d.pendingLsmShares[denom].remoteDenom
               == (if denom in pending then pending[denom].remoteDenom else trace.value)
            && d.pendingLsmShares[denom].amount
               == (if denom in pending then pending[denom].amount else 0) + env.funds[0].amount
            && (forall x | x in pending && x != denom :: d.pendingLsmShares[x] == pending[x])
            && d.lsmSharesToRedeem == c.lsmSharesToRedeem
            && d.totalLsmShares == c.totalLsmShares + env.funds[0].amount
  {
  }

  /** A bond of the base denom leaves the shares alone. */
  lemma BaseBondLeavesShares(c: Core, cfg: Config, env: Env, trace: Option<string>)
    requires CoreSpec.Bond(c, cfg, env, trace).Ok? && env.funds[0].denom == cfg.baseDenom
    ensures SameShares(c, CoreSpec.Bond(c, cfg, env, trace).value.0)
  {
  }

  // ---------------------------------------------------------------- over runs

  /** Every bond of a denom has the same trace. */
  predicate TracedTo(steps: seq<Step>, denom: string, remote: string) {
    forall s | s in steps && s.Bond? && |s.env.funds| == 1 && s.env.funds[0].denom == denom && s.trace.Some? ::
      s.trace.value == remote
  }

  predicate EntryIs(m: Shares, denom: string, remote: string) { denom in m ==> m[denom].remoteDenom == remote }

  predicate ItemsAre(items: seq<RedeemItem>, denom: string, remote: string) {
    forall i :: 0 <= i < |items| && items[i].localDenom == denom ==> items[i].remoteDenom == remote
  }

  predicate RedeemsAre(tx: Transaction, denom: string, remote: string) {
    tx.RedeemShares? ==> ItemsAre(tx.shares, denom, remote)
  }

  /** Both ledgers and every submitted redeem name one remote denom for a local one. */
  ghost predicate Remotes(w: World, denom: string, remote: string) {
    && EntryIs(w.core.pendingLsmShares, denom, remote) && EntryIs(w.core.lsmSharesToRedeem, denom, remote)
    && forall j | 0 <= j < |w.submitted| :: RedeemsAre(w.submitted[j], denom, remote)
  }

  lemma HookKeepsRemotes(c: Core, env: Env, hook: Hook, denom: string, remote: string)
    requires Balanced(c) && Covered(c, Some(hook.tx)) && CoreSpec.PuppeteerHook(c, env, hook).Ok?
    requires EntryIs(c.pendingLsmShares, denom, remote) && EntryIs(c.lsmSharesToRedeem, denom, remote)
    ensures var d := CoreSpec.PuppeteerHook(c, env, hook).value;
            EntryIs(d.pendingLsmShares, denom, remote) && EntryIs(d.lsmSharesToRedeem, denom, remote)
  {
    match hook
    case Success(RedeemShares(items)) => RedeemEmptiesLedger(c, env, items);
    case Success(IbcTransfer(sent, amount, LsmShare)) => SentSharesMoveTheirEntry(c, env, sent, amount);
    case _ =>
  }

  lemma DeliverKeepsRemotes(w: World, env: Env, seqId: nat, ack: Ack, denom: string, remote: string)
    requires Inv(w) && Remotes(w, denom, remote) && DeliverStep(w, env, seqId, ack).Ok?
    ensures Remotes(DeliverStep(w, env, seqId, ack).value, denom, remote)
  {
    HookKeepsRemotes(w.core, env.(bank := w.bank), PuppeteerSpec.Sudo(w.puppeteer, ack).value.1, denom, remote);
  }

  lemma TickKeepsRemotes(w: World, cfg: Config, env: Env, submitSucceeds: bool, denom: string, remote: string)
    requires Inv(w) && Remotes(w, denom, remote) && TickStep(w, cfg, env, submitSucceeds).Ok?
    ensures Remotes(TickStep(w, cfg, env, submitSucceeds).value, denom, remote)
  {
    var e := env.(bank := w.bank);
    TickSubmits(w, cfg, env, submitSucceeds);
    TickKeepsShares(w.core, cfg, e);
    var msg := CoreSpec.Tick(w.core, cfg, e).value.msg;
    if msg.Some? {
      TickMessageCovered(w.core, cfg, e);
      RedeemItemsListLedger(w.core.lsmSharesToRedeem);
      assert RedeemsAre(PuppeteerSpec.TransactionOf(msg.value).value, denom, remote);
    }
  }

  lemma StepKeepsRemotes(w: World, cfg: Config, step: Step, denom: string, remote: string)
    requires Inv(w) && Remotes(w, denom, remote) && TracedTo([step], denom, remote)
    ensures Remotes(Next(w, cfg, step), denom, remote)
  {
    if Try(w, cfg, step).Ok? {
      match step
      case Bond(env, trace) =>
        assert step in [step];
        var e := env.(bank := CreditBond(w.bank, cfg, env.funds));
        if env.funds[0].denom == cfg.baseDenom { BaseBondLeavesShares(w.core, cfg, e, trace); }
        else { BondedSharesJoinTheirEntry(w.core, cfg, e, trace); }
      case Tick(env, submitSucceeds) => TickKeepsRemotes(w, cfg, env, submitSucceeds, denom, remote);
      case Deliver(seqId, ack, env) => DeliverKeepsRemotes(w, env, seqId, ack, denom, remote);
      case _ =>
    }
  }

  lemma {:induction false} RunKeepsRemotes(w: World, cfg: Config, steps: seq<Step>, denom: string, remote: string)
    requires Inv(w) && Remotes(w, denom, remote) && TracedTo(steps, denom, remote)
    ensures Remotes(Run(w, cfg, steps), denom, remote)
    decreases |steps|
  {
    if steps != [] {
      assert steps[0] in steps;
      StepKeeps(w, cfg, steps[0]);
      StepKeepsRemotes(w, cfg, steps[0], denom, remote);
      RunKeepsRemotes(Next(w, cfg, steps[0]), cfg, steps[1..], denom, remote);
    }
  }

  /** When every bond of a denom carries one trace, that is what the ledgers hold and what every
      redeem of any run asks the remote chain for. */
  lemma RedeemsNameTheTrace(now: nat, cfg: Config, steps: seq<Step>, denom: string, remote: string)
    requires TracedTo(steps, denom, remote)
    ensures Remotes(Run(Init(now), cfg, steps), denom, remote)
  {
    InitHolds(now);
    RunKeepsRemotes(Init(now), cfg, steps, denom, remote);
  }
}
