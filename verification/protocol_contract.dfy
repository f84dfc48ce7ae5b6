/** Both contracts on one chain: each call runs the handlers on the stored items, hands the
    message on, and is undone as a whole when anything refuses. Every call is one step of the transition
    system of `ProtocolSpec`, so what is proved about runs holds of the stored items. */
module ProtocolContract {
  import opened Results
  import opened ProtocolTypes
  import opened ProtocolSpec
  import CoreContract
  import PuppeteerContract

  class Chain {
    const core: CoreContract.CoreStorage
    const puppeteer: PuppeteerContract.PuppeteerStorage
    var bank: Bank
    var vouchers: map<TokenId, Voucher>
    var redeemed: set<TokenId>
    var submitted: seq<Transaction>
    var outstanding: set<nat>
    var hooks: seq<(nat, Hook)>
    var paid: map<nat, nat>
    var overwritten: set<nat>

    /** The chain as a value. */
    ghost function World(): World
      reads this, core, core.machine, puppeteer, puppeteer.ica
    {
      ProtocolSpec.World.World(core.State(), puppeteer.State(), bank, vouchers, redeemed, submitted, outstanding,
                               hooks, paid, overwritten)
    }

    constructor (cfg: Config, now: nat)
      ensures World() == Init(now) && core.cfg == cfg
      ensures fresh(core) && fresh(core.machine) && fresh(puppeteer) && fresh(puppeteer.ica)
    {
      core := new CoreContract.CoreStorage(cfg, now);
      puppeteer := new PuppeteerContract.PuppeteerStorage();
      bank, vouchers, redeemed, submitted := Bank(0, 0), map[], {}, [];
      outstanding, hooks, paid, overwritten := {}, [], map[], {};
    }

    /** Hands a message of core to the puppeteer and the channel. */
    method Dispatch(msg: PuppeteerMsg, submitSucceeds: bool) returns (r: Result<()>)
      modifies this, puppeteer
      ensures match ProtocolSpec.Dispatch(old(World()), Some(msg), submitSucceeds)
              case Ok(w) => r == Ok(()) && World() == w
              case Err(e) => r == Err(e) && World() == old(World()).(puppeteer := puppeteer.State())
    {
      var _ :- puppeteer.Execute(msg);
      if !submitSucceeds { return Err(SubmitFailed); }
      var seqId := |submitted|;
      submitted := submitted + [puppeteer.txState.transaction.value];
      puppeteer.SubmitTxReply(seqId);
      outstanding := outstanding + {seqId};
      if msg.SendFunds? && msg.reason.Stake? { bank := bank.(coreBalance := 0); }
      return Ok(());
    }

    /** A tick with the delivery of its message. */
    method Tick(env: Env, submitSucceeds: bool) returns (r: Result<()>)
      modifies this, core, core.machine, puppeteer, puppeteer.ica
      ensures World() == Next(old(World()), core.cfg, Step.Tick(env, submitSucceeds))
      ensures r.Ok? <==> Try(old(World()), core.cfg, Step.Tick(env, submitSucceeds)).Ok?
    {
      var savedCore, savedPuppeteer := core.State(), puppeteer.State();
      var before := overwritten;
      var msg := core.ExecuteTick(env.(bank := bank));
      if msg.Err? {
        core.Restore(savedCore);
        return Err(msg.error);
      }
      overwritten := overwritten + Dropped(savedCore.batches, core.batches);
      if msg.value.Some? {
        r := Dispatch(msg.value.value, submitSucceeds);
        if r.Err? {
          core.Restore(savedCore);
          puppeteer.Restore(savedPuppeteer);
          overwritten := before;
        }
      } else {
        r := Ok(());
      }
    }

    /** An acknowledgement with the hook it causes. */
    method Deliver(seqId: nat, ack: Ack, env: Env) returns (r: Result<()>)
      modifies this, core, core.machine, puppeteer, puppeteer.ica
      ensures World() == Next(old(World()), core.cfg, Step.Deliver(seqId, ack, env))
      ensures r.Ok? <==> Try(old(World()), core.cfg, Step.Deliver(seqId, ack, env)).Ok?
    {
      if seqId !in outstanding { return Err(UnknownPacket); }
      var savedCore, savedPuppeteer := core.State(), puppeteer.State();
      var hook := puppeteer.Sudo(ack);
      if hook.Err? { return Err(hook.error); }
      var done := core.ExecutePuppeteerHook(env.(bank := bank), hook.value);
      if done.Err? {
        core.Restore(savedCore);
        puppeteer.Restore(savedPuppeteer);
        return Err(done.error);
      }
      outstanding := outstanding - {seqId};
      hooks := hooks + [(seqId, hook.value)];
      return Ok(());
    }

    /** A bond with the minting of the issued ld tokens. */
    method Bond(env: Env, trace: Option<string>) returns (r: Result<()>)
      modifies this, core, core.machine
      ensures World() == Next(old(World()), core.cfg, Step.Bond(env, trace))
      ensures r.Ok? <==> Try(old(World()), core.cfg, Step.Bond(env, trace)).Ok?
    {
      var saved := core.State();
      var credited := CreditBond(bank, core.cfg, env.funds);
      var issue := core.ExecuteBond(env.(bank := credited), trace);
      if issue.Err? {
        core.Restore(saved);
        return Err(issue.error);
      }
      bank := credited.(ldSupply := credited.ldSupply + issue.value);
      return Ok(());
    }

    /** An unbond with the minting of its voucher and the burning of its ld tokens. */
    method Unbond(env: Env, sender: string) returns (r: Result<()>)
      modifies this, core, core.machine
      ensures World() == Next(old(World()), core.cfg, Step.Unbond(env, sender))
      ensures r.Ok? <==> Try(old(World()), core.cfg, Step.Unbond(env, sender)).Ok?
    {
      var saved := core.State();
      var item := core.ExecuteUnbond(env.(bank := bank), sender);
      if item.Err? {
        core.Restore(saved);
        return Err(item.error);
      }
      var id := saved.batchId;
      var token := TokenId(id, sender, |core.batches[id].unbondItems|);
      if token in vouchers || bank.ldSupply < item.value.amount {
        core.Restore(saved);
        return Err(if token in vouchers then VoucherExists else InsufficientFunds);
      }
      vouchers := vouchers[token := Voucher(id, item.value.amount, item.value.expectedAmount)];
      bank := bank.(ldSupply := bank.ldSupply - item.value.amount);
      return Ok(());
    }

    method RegisterIca() returns (r: Result<()>)
      modifies puppeteer.ica
      ensures World() == Next(old(World()), core.cfg, Step.RegisterIca)
      ensures r.Ok? <==> Try(old(World()), core.cfg, Step.RegisterIca).Ok?
    {
      r := puppeteer.ica.Register();
    }

    /** The chain opens the channel of the interchain account. */
    method OpenAck(address: string)
      modifies puppeteer.ica
      ensures World() == Next(old(World()), core.cfg, Step.OpenAck(address))
    {
      puppeteer.ica.SetAddress(address);
    }

    /** A voucher sent to the withdrawal manager. */
    method Withdraw(token: TokenId) returns (r: Result<nat>)
      modifies this
      ensures World() == Next(old(World()), core.cfg, Step.Withdraw(token))
      ensures r.Ok? <==> Try(old(World()), core.cfg, Step.Withdraw(token)).Ok?
      ensures r.Ok? ==> token in vouchers && r == Payout(core.batches, vouchers[token])
    {
      if token !in vouchers || token in redeemed { return Err(VoucherNotOwned); }
      var v := vouchers[token];
      var amount :- Payout(core.batches, v);
      redeemed := redeemed + {token};
      paid := paid[v.batchId := (if v.batchId in paid then paid[v.batchId] else 0) + amount];
      return Ok(amount);
    }
  }
}
