/** The message handler of src/config/rabbitmq/consumer.ts and the broker state it changes, updated in place. */
module RabbitConsumer {
  import M = RabbitModel

  class MessageHandler {
    const validJson: bool
    const retryBackoff: bool
    var ready: multiset<nat>
    var deliveries: map<nat, M.Delivery>
    var nextTag: nat
    ghost var settled: seq<nat>
    ghost var succeeded: bool
    ghost var discarded: bool
    ghost var failedOut: bool

    ghost function State(): M.State
      reads this
    {
      M.State(validJson, retryBackoff, ready, deliveries, nextTag, settled, succeeded, discarded, failedOut)
    }

    /** The message has been published once. */
    constructor (validJson: bool, retryBackoff: bool)
      ensures State() == M.Published(validJson, retryBackoff)
    {
      this.validJson, this.retryBackoff := validJson, retryBackoff;
      ready, deliveries, nextTag, settled := multiset{0}, map[], 0, [];
      succeeded, discarded, failedOut := false, false, false;
    }

    method Enter(tag: nat, phase: M.Phase)
      requires tag in deliveries
      modifies this`deliveries
      ensures State() == M.Enter(old(State()), tag, phase)
    {
      deliveries := deliveries[tag := deliveries[tag].(phase := phase)];
    }

    /** channel.ack or channel.nack(requeue). */
    method Settle(tag: nat, phase: M.Phase)
      requires tag in deliveries
      modifies this`deliveries, this`settled
      ensures State() == M.Settle(old(State()), tag, phase)
    {
      Enter(tag, phase);
      settled := settled + [tag];
    }

    method Receive(retries: nat)
      modifies this`ready, this`deliveries, this`nextTag
      ensures State() == M.Receive(old(State()), retries)
    {
      ready := ready - multiset{retries};
      deliveries := deliveries[nextTag := M.Delivery(retries, M.Handling, true)];
      nextTag := nextTag + 1;
    }

    /** A delivery reaches onMessage. */
    method OnMessage(retries: nat)
      requires retries in ready
      modifies this
      ensures State() == M.DeliverStep(old(State()), retries)
    {
      var tag := nextTag;
      Receive(retries);
      if !validJson {
        discarded := true;
        Settle(tag, M.Acked);
      }
    }

    method CallbackDone(tag: nat, ok: bool)
      requires tag in deliveries
      modifies this
      ensures State() == M.CallbackStep(old(State()), tag, ok)
    {
      if ok {
        succeeded := true;
        if deliveries[tag].open {
          Settle(tag, M.Acked);
          return;
        }
      }
      HandleFailure(tag);
    }

    method HandleFailure(tag: nat)
      requires tag in deliveries
      modifies this
      ensures State() == M.HandleFailure(old(State()), tag)
    {
      if deliveries[tag].retries < M.MAX_RETRIES {
        if retryBackoff { Enter(tag, M.Backoff); } else { SendRetry(tag); }
      } else {
        Enter(tag, M.Failing);
        failedOut := true;
      }
    }

    method SendRetry(tag: nat)
      requires tag in deliveries
      modifies this`deliveries
      ensures State() == M.SendRetry(old(State()), tag)
    {
      if deliveries[tag].open { Enter(tag, M.Publishing(false)); } else { Enter(tag, M.RefusedWait); }
    }

    /**
     * The broker's answer to the republish: confirmed, then the old copy is acknowledged;
     * or not, then the handler waits.
     */
    method PublishAnswered(tag: nat, confirmed: bool)
      requires M.Enabled(State(), if confirmed then M.Confirmed(tag) else M.Refused(tag))
      modifies this
      ensures State() == M.Step(old(State()), if confirmed then M.Confirmed(tag) else M.Refused(tag))
    {
      if confirmed { Settle(tag, M.Acked); } else { Enter(tag, M.RefusedWait); }
    }

    method RefusedWaitOver(tag: nat)
      requires M.Enabled(State(), M.RefusedWaitOver(tag))
      modifies this
      ensures State() == M.Step(old(State()), M.RefusedWaitOver(tag))
    {
      if deliveries[tag].open { Settle(tag, M.Nacked); } else { Enter(tag, M.Over); }
    }

    method OnFailDone(tag: nat)
      requires M.Enabled(State(), M.OnFailDone(tag))
      modifies this
      ensures State() == M.Step(old(State()), M.OnFailDone(tag))
    {
      if deliveries[tag].open { Settle(tag, M.Acked); } else { Enter(tag, M.Over); }
    }

    // ── What the broker does ──

    method BrokerEnqueues(tag: nat)
      requires M.Enabled(State(), M.BrokerEnqueues(tag))
      modifies this
      ensures State() == M.Step(old(State()), M.BrokerEnqueues(tag))
    {
      ready := ready + multiset{deliveries[tag].retries + 1};
      Enter(tag, M.Publishing(true));
    }

    method BrokerSettles(tag: nat)
      requires tag in deliveries
      modifies this
      ensures State() == M.SettledStep(old(State()), tag)
    {
      var d := deliveries[tag];
      if d.phase == M.Nacked { ready := ready + multiset{d.retries}; }
      deliveries := deliveries[tag := d.(phase := M.Over, open := false)];
    }

    method Lost(tag: nat, processDied: bool)
      requires tag in deliveries
      modifies this
      ensures State() == M.LostStep(old(State()), tag, processDied)
    {
      var d := deliveries[tag];
      ready := ready + multiset{d.retries};
      var ended := processDied || d.phase == M.Acked || d.phase == M.Nacked;
      deliveries := deliveries[tag := d.(phase := if ended then M.Over else d.phase, open := false)];
    }
  }
}
