/** One transaction in flight at a time, and the hooks core receives. */
module ChannelInvariant {
  import opened Results
  import opened ProtocolTypes
  import opened ProtocolSpec

  /** The hooks acknowledge the submitted transactions one by one and in order; at most the
      last submitted one is outstanding, and it is the one the puppeteer stores. */
  ghost predicate Channel(w: World) {
    && (forall j :: 0 <= j < |w.hooks| ==>
          w.hooks[j].0 == j && j < |w.submitted| && w.hooks[j].1.tx == w.submitted[j])
    && (if w.puppeteer.tx.status == TxWaitingForAck then
          && |w.submitted| == |w.hooks| + 1
          && w.outstanding == {|w.hooks|}
          && w.puppeteer.tx.seqId == Some(|w.hooks|)
          && w.puppeteer.tx.transaction == Some(w.submitted[|w.hooks|])
        else
          && w.puppeteer.tx == NO_TX
          && |w.submitted| == |w.hooks|
          && w.outstanding == {})
  }

  lemma DispatchKeepsChannel(w: World, msg: Option<PuppeteerMsg>, submitSucceeds: bool)
    requires Channel(w) && Dispatch(w, msg, submitSucceeds).Ok?
    ensures Channel(Dispatch(w, msg, submitSucceeds).value)
  {
  }

  lemma DeliverKeepsChannel(w: World, env: Env, seqId: nat, ack: Ack)
    requires Channel(w) && DeliverStep(w, env, seqId, ack).Ok?
    ensures Channel(DeliverStep(w, env, seqId, ack).value)
    ensures var w' := DeliverStep(w, env, seqId, ack).value;
            && w'.hooks[|w.hooks|].0 == seqId == |w.hooks|
            && w'.hooks[|w.hooks|].1.tx == w.submitted[seqId]
  {
  }

  lemma StepKeepsChannel(w: World, cfg: Config, step: Step)
    requires Channel(w)
    ensures Channel(Next(w, cfg, step))
  {
    if Try(w, cfg, step).Ok? {
      match step
      case Tick(env, submitSucceeds) =>
        var o := CoreSpec.Tick(w.core, cfg, env.(bank := w.bank)).value;
        var w1 := w.(core := o.core, overwritten := w.overwritten + Dropped(w.core.batches, o.core.batches));
        DispatchKeepsChannel(w1, o.msg, submitSucceeds);
      case Deliver(seqId, ack, env) => DeliverKeepsChannel(w, env, seqId, ack);
      case _ =>
    }
  }

  /** The handlers never compare sequence numbers, yet in every reachable state the only
      packet that can be acknowledged is the stored transaction. */
  lemma AckIsForStoredTransaction(w: World, seqId: nat)
    requires Channel(w) && seqId in w.outstanding
    ensures w.puppeteer.tx == TxState(TxWaitingForAck, Some(seqId), Some(w.submitted[seqId]))
    ensures forall j :: 0 <= j < |w.hooks| ==> w.hooks[j].0 != seqId
  {
    assert w.puppeteer.tx.status == TxWaitingForAck;
  }
}
