/** Core, puppeteer, bank, vouchers and the interchain channel as one transition system.
    A call whose messages are refused is reverted as a whole. */
module ProtocolSpec {
  import opened Results
  import opened FixedPoint
  import opened ProtocolTypes
  import CoreSpec
  import PuppeteerSpec

  /** `<batch>_<sender>_<index>`. */
  datatype TokenId = TokenId(batchId: nat, sender: string, index: nat)

  datatype Voucher = Voucher(batchId: nat, amount: nat, expectedAmount: nat)

  /** The contracts and the chain. The last five fields are history: every submitted
      transaction by sequence number, the sequence numbers whose acknowledgement is
      outstanding, the hooks core accepted, what each batch paid out, and the batches that
      were overwritten while they held items. */
  datatype World = World(
    core: Core,
    puppeteer: Puppeteer,
    bank: Bank,
    vouchers: map<TokenId, Voucher>,
    redeemed: set<TokenId>,
    submitted: seq<Transaction>,
    outstanding: set<nat>,
    hooks: seq<(nat, Hook)>,
    paid: map<nat, nat>,
    overwritten: set<nat>)

  datatype Step =
    | Bond(env: Env, trace: Option<string>)
    | Unbond(env: Env, sender: string)
    | Tick(env: Env, submitSucceeds: bool)
    | Deliver(seqId: nat, ack: Ack, env: Env)
    | RegisterIca
    | OpenAck(address: string)
    | Withdraw(token: TokenId)

  function Init(now: nat): World {
    World(CoreSpec.Instantiate(now), PuppeteerSpec.Instantiate(), Bank(0, 0), map[], {}, [], {}, [], map[], {})
  }

  // ---------------------------------------------------------------- steps

  /** The coins of a bond reach core before its handler runs. */
  function CreditBond(bank: Bank, cfg: Config, funds: seq<Coin>): Bank {
    if |funds| == 1 && funds[0].denom == cfg.baseDenom
    then bank.(coreBalance := bank.coreBalance + funds[0].amount)
    else bank
  }

  function BondStep(w: World, cfg: Config, env: Env, trace: Option<string>): Result<World> {
    var bank := CreditBond(w.bank, cfg, env.funds);
    var (core, issue) :- CoreSpec.Bond(w.core, cfg, env.(bank := bank), trace);
    Ok(w.(core := core, bank := bank.(ldSupply := bank.ldSupply + issue)))
  }

  function UnbondStep(w: World, cfg: Config, env: Env, sender: string): Result<World> {
    var (core, item) :- CoreSpec.Unbond(w.core, cfg, env.(bank := w.bank), sender);
    var id := w.core.batchId;
    var token := TokenId(id, sender, |core.batches[id].unbondItems|);
    if token in w.vouchers then Err(VoucherExists)
    else if w.bank.ldSupply < item.amount then Err(InsufficientFunds)
    else Ok(w.(core := core,
               bank := w.bank.(ldSupply := w.bank.ldSupply - item.amount),
               vouchers := w.vouchers[token := Voucher(id, item.amount, item.expectedAmount)]))
  }

  /** The batches whose items a call dropped. */
  function Dropped(before: map<nat, UnbondBatch>, after: map<nat, UnbondBatch>): set<nat> {
    set b | b in before && before[b].unbondItems != [] && (b !in after || after[b].unbondItems == [])
  }

  /** Hands a message of core to the puppeteer, which submits it to the channel. */
  function Dispatch(w: World, msg: Option<PuppeteerMsg>, submitSucceeds: bool): Result<World> {
    if msg.None? then Ok(w)
    else
      var p :- PuppeteerSpec.Execute(w.puppeteer, msg.value);
      if !submitSucceeds then Err(SubmitFailed)
      else
        var seqId := |w.submitted|;
        var bank := if msg.value.SendFunds? && msg.value.reason.Stake? then w.bank.(coreBalance := 0) else w.bank;
        Ok(w.(puppeteer := PuppeteerSpec.SubmitReply(p, seqId),
              bank := bank,
              submitted := w.submitted + [p.tx.transaction.value],
              outstanding := w.outstanding + {seqId}))
  }

  function TickStep(w: World, cfg: Config, env: Env, submitSucceeds: bool): Result<World> {
    var o :- CoreSpec.Tick(w.core, cfg, env.(bank := w.bank));
    Dispatch(w.(core := o.core, overwritten := w.overwritten + Dropped(w.core.batches, o.core.batches)),
             o.msg, submitSucceeds)
  }

  /** The channel delivers an acknowledgement; a reverted handler leaves it outstanding. */
  function DeliverStep(w: World, env: Env, seqId: nat, ack: Ack): Result<World> {
    if seqId !in w.outstanding then Err(UnknownPacket)
    else
      var (p, hook) :- PuppeteerSpec.Sudo(w.puppeteer, ack);
      var core :- CoreSpec.PuppeteerHook(w.core, env.(bank := w.bank), hook);
      Ok(w.(core := core, puppeteer := p, outstanding := w.outstanding - {seqId}, hooks := w.hooks + [(seqId, hook)]))
  }

  /** The withdrawal manager's payout for a voucher. */
  function Payout(batches: map<nat, UnbondBatch>, v: Voucher): Result<nat> {
    if v.batchId !in batches then Err(NotFound)
    else if batches[v.batchId].status != Withdrawn then Err(BatchIsNotWithdrawn)
    else if batches[v.batchId].slashingEffect.None? then Err(BatchSlashingEffectIsEmpty)
    else Ok(SlashedAmount(batches[v.batchId].slashingEffect.value, v.expectedAmount))
  }

  function SlashedAmount(slashingEffect: nat, expected: nat): nat {
    Min(MulFloor(expected, slashingEffect), expected)
  }

  function Paid(w: World, batchId: nat): nat { if batchId in w.paid then w.paid[batchId] else 0 }

  /** The voucher moves to the withdrawal manager, so it is redeemed at most once. */
  function WithdrawStep(w: World, token: TokenId): Result<World> {
    if token !in w.vouchers || token in w.redeemed then Err(VoucherNotOwned)
    else
      var v := w.vouchers[token];
      var amount :- Payout(w.core.batches, v);
      Ok(w.(redeemed := w.redeemed + {token}, paid := w.paid[v.batchId := Paid(w, v.batchId) + amount]))
  }

  function RegisterIcaStep(w: World): Result<World> {
    var ica :- PuppeteerSpec.RegisterIca(w.puppeteer.ica);
    Ok(w.(puppeteer := w.puppeteer.(ica := ica)))
  }

  function Try(w: World, cfg: Config, step: Step): Result<World> {
    match step
    case Bond(env, trace) => BondStep(w, cfg, env, trace)
    case Unbond(env, sender) => UnbondStep(w, cfg, env, sender)
    case Tick(env, submitSucceeds) => TickStep(w, cfg, env, submitSucceeds)
    case Deliver(seqId, ack, env) => DeliverStep(w, env, seqId, ack)
    case RegisterIca => RegisterIcaStep(w)
    case OpenAck(address) => Ok(w.(puppeteer := w.puppeteer.(ica := Registered(address))))
    case Withdraw(token) => WithdrawStep(w, token)
  }

  /** One call: a failing one is reverted. */
  function Next(w: World, cfg: Config, step: Step): World {
    var r := Try(w, cfg, step);
    if r.Ok? then r.value else w
  }

  /** A whole run. */
  function Run(w: World, cfg: Config, steps: seq<Step>): World
    decreases |steps|
  {
    if steps == [] then w else Run(Next(w, cfg, steps[0]), cfg, steps[1..])
  }
}
