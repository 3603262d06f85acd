/**
 * One message of a RabbitMQ queue and its consumers (src/config/rabbitmq/consumer.ts).
 *
 * Messages share nothing in the handler, so the copies of one message tell
 * the whole story; other messages only decide when its steps happen. The
 * broker may lose a delivery's channel at any moment (`Lost`), with the
 * process or without it: then the handler runs on and its calls fail.
 */
module RabbitModel {
  const MAX_RETRIES := 3

  /** Where the handler of a delivery is suspended. */
  datatype Phase =
    | Handling                     // awaiting the callback
    | Backoff                      // waiting before the republish
    | Publishing(enqueued: bool)   // republish sent; whether the broker has enqueued the copy
    | RefusedWait                  // waiting before the requeue
    | Failing                      // awaiting onFail
    | Acked                        // ack sent, not yet processed by the broker
    | Nacked                       // requeue sent, not yet processed by the broker
    | Over

  /** `open`: the broker still holds the delivery unacknowledged on a live channel. */
  datatype Delivery = Delivery(retries: nat, phase: Phase, open: bool)

  datatype State = State(
    validJson: bool,
    retryBackoff: bool,
    ready: multiset<nat>,               // x-retries of the copies waiting in the queue
    deliveries: map<nat, Delivery>,
    nextTag: nat,
    settled: seq<nat>,                  // history: deliveries acked or requeued on an open channel, in order
    succeeded: bool,                    // history: a callback succeeded
    discarded: bool,                    // history: invalid JSON was acknowledged
    failedOut: bool)                    // history: onFail was reached
  {
    predicate Done() { succeeded || discarded || failedOut }

    function At(tag: nat): Delivery
      requires tag in deliveries
    {
      deliveries[tag]
    }

    predicate In(tag: nat, phase: Phase) { tag in deliveries && deliveries[tag].phase == phase }
  }

  datatype Event =
    | Deliver(retries: nat)
    | CallbackDone(tag: nat, ok: bool)
    | BackoffOver(waiter: nat)
    | BrokerEnqueues(publisher: nat)
    | Confirmed(confirmed: nat)
    | Refused(refused: nat)
    | RefusedWaitOver(requeuer: nat)
    | OnFailDone(failer: nat)
    | BrokerSettles(settler: nat)
    | Lost(lost: nat, processDied: bool)

  function Published(validJson: bool, retryBackoff: bool): State {
    State(validJson, retryBackoff, multiset{0}, map[], 0, [], false, false, false)
  }

  function Enter(s: State, tag: nat, phase: Phase): State
    requires tag in s.deliveries
  {
    s.(deliveries := s.deliveries[tag := s.deliveries[tag].(phase := phase)])
  }

  /** channel.ack or channel.nack on an open channel. */
  function Settle(s: State, tag: nat, phase: Phase): State
    requires tag in s.deliveries
  {
    Enter(s, tag, phase).(settled := s.settled + [tag])
  }

  /** The republish; on a closed channel the call throws and counts as not confirmed. */
  function SendRetry(s: State, tag: nat): State
    requires tag in s.deliveries
  {
    Enter(s, tag, if s.At(tag).open then Publishing(false) else RefusedWait)
  }

  /** The handler's catch block. */
  function HandleFailure(s: State, tag: nat): State
    requires tag in s.deliveries
  {
    if s.At(tag).retries < MAX_RETRIES then
      if s.retryBackoff then Enter(s, tag, Backoff) else SendRetry(s, tag)
    else Enter(s, tag, Failing).(failedOut := true)
  }

  function Receive(s: State, retries: nat): State {
    s.(ready := s.ready - multiset{retries}, deliveries := s.deliveries[s.nextTag := Delivery(retries, Handling, true)],
       nextTag := s.nextTag + 1)
  }

  function DeliverStep(s: State, retries: nat): State {
    if s.validJson then Receive(s, retries) else Settle(Receive(s, retries).(discarded := true), s.nextTag, Acked)
  }

  /** The callback settles; an ack on a closed channel throws into the catch block. */
  function CallbackStep(s: State, tag: nat, ok: bool): State
    requires tag in s.deliveries
  {
    if !ok then HandleFailure(s, tag)
    else
      var t := s.(succeeded := true);
      if s.At(tag).open then Settle(t, tag, Acked) else HandleFailure(t, tag)
  }

  /** The broker takes the delivery out of the unacknowledged ones; a requeue puts it back in the queue. */
  function SettledStep(s: State, tag: nat): State
    requires tag in s.deliveries
  {
    var d := s.At(tag);
    s.(deliveries := s.deliveries[tag := d.(phase := Over, open := false)],
       ready := if d.phase == Nacked then s.ready + multiset{d.retries} else s.ready)
  }

  /** The channel is gone: the broker requeues the delivery. The handler lives on unless the process died. */
  function LostStep(s: State, tag: nat, processDied: bool): State
    requires tag in s.deliveries
  {
    var d := s.At(tag);
    var phase := if processDied || d.phase == Acked || d.phase == Nacked then Over else d.phase;
    s.(deliveries := s.deliveries[tag := d.(phase := phase, open := false)], ready := s.ready + multiset{d.retries})
  }

  predicate Enabled(s: State, e: Event) {
    match e
    case Deliver(retries) => retries in s.ready
    case CallbackDone(tag, _) => s.In(tag, Handling)
    case BackoffOver(tag) => s.In(tag, Backoff)
    case BrokerEnqueues(tag) => s.In(tag, Publishing(false)) && s.At(tag).open
    case Confirmed(tag) => s.In(tag, Publishing(true)) && s.At(tag).open
    case Refused(tag) => s.In(tag, Publishing(false)) || s.In(tag, Publishing(true))
    case RefusedWaitOver(tag) => s.In(tag, RefusedWait)
    case OnFailDone(tag) => s.In(tag, Failing)
    case BrokerSettles(tag) => (s.In(tag, Acked) || s.In(tag, Nacked)) && s.At(tag).open
    case Lost(tag, _) => tag in s.deliveries && s.At(tag).open
  }

  function Step(s: State, e: Event): State
    requires Enabled(s, e)
  {
    match e
    case Deliver(retries) => DeliverStep(s, retries)
    case CallbackDone(tag, ok) => CallbackStep(s, tag, ok)
    case BackoffOver(tag) => SendRetry(s, tag)
    case BrokerEnqueues(tag) => Enter(s, tag, Publishing(true)).(ready := s.ready + multiset{s.At(tag).retries + 1})
    case Confirmed(tag) => Settle(s, tag, Acked)
    case Refused(tag) => Enter(s, tag, RefusedWait)
    case RefusedWaitOver(tag) => if s.At(tag).open then Settle(s, tag, Nacked) else Enter(s, tag, Over)
    case OnFailDone(tag) => if s.At(tag).open then Settle(s, tag, Acked) else Enter(s, tag, Over)
    case BrokerSettles(tag) => SettledStep(s, tag)
    case Lost(tag, processDied) => LostStep(s, tag, processDied)
  }

  function Run(s: State, events: seq<Event>): State
    decreases |events|
  {
    if events == [] then s else Run(if Enabled(s, events[0]) then Step(s, events[0]) else s, events[1..])
  }
}
