/** What it takes for a RabbitMQ message to count as done (src/config/rabbitmq/consumer.ts). */
module RabbitHistory {
  import opened RabbitModel
  import opened RabbitProofs

  /** A callback succeeds in the run. */
  ghost predicate Succeeds(s: State, events: seq<Event>)
    decreases |events|
  {
    |events| > 0 &&
    if Enabled(s, events[0]) then
      (events[0].CallbackDone? && events[0].ok) || Succeeds(Step(s, events[0]), events[1..])
    else Succeeds(s, events[1..])
  }

  /** A copy is delivered in the run. */
  ghost predicate Delivers(s: State, events: seq<Event>)
    decreases |events|
  {
    |events| > 0 &&
    if Enabled(s, events[0]) then events[0].Deliver? || Delivers(Step(s, events[0]), events[1..])
    else Delivers(s, events[1..])
  }

  /** A callback ends badly on the last retry: it fails, or it succeeds without a channel to ack on. */
  ghost predicate RunsOut(s: State, events: seq<Event>)
    decreases |events|
  {
    |events| > 0 &&
    if Enabled(s, events[0]) then
      || (events[0].CallbackDone? && s.At(events[0].tag).retries >= 3 && (events[0].ok ==> !s.At(events[0].tag).open))
      || RunsOut(Step(s, events[0]), events[1..])
    else RunsOut(s, events[1..])
  }

  lemma CallbackRecords(s: State, tag: nat, ok: bool)
    requires Enabled(s, CallbackDone(tag, ok))
    ensures var t := CallbackStep(s, tag, ok);
      && t.validJson == s.validJson && t.discarded == s.discarded && t.succeeded == (s.succeeded || ok)
      && t.failedOut == (s.failedOut || (s.At(tag).retries >= 3 && (ok ==> !s.At(tag).open)))
  {
    HandleFailureFrame(s, tag);
    HandleFailureFrame(s.(succeeded := true), tag);
  }

  lemma StepRecords(s: State, e: Event)
    requires Enabled(s, e) && !e.CallbackDone?
    ensures var t := Step(s, e);
      && t.validJson == s.validJson && t.succeeded == s.succeeded && t.failedOut == s.failedOut
      && t.discarded == (s.discarded || (e.Deliver? && !s.validJson))
  {
    match e
    case Deliver(_) =>
    case BackoffOver(_) =>
    case BrokerEnqueues(_) =>
    case Confirmed(_) =>
    case Refused(_) =>
    case RefusedWaitOver(_) =>
    case OnFailDone(_) =>
    case BrokerSettles(_) =>
    case Lost(_, _) =>
  }

  lemma {:induction false} RunRecords(s: State, events: seq<Event>)
    ensures var t := Run(s, events);
      && t.succeeded == (s.succeeded || Succeeds(s, events))
      && t.discarded == (s.discarded || (!s.validJson && Delivers(s, events)))
      && t.failedOut == (s.failedOut || RunsOut(s, events))
    decreases |events|
  {
    if |events| > 0 {
      var e := events[0];
      if Enabled(s, e) {
        if e.CallbackDone? { CallbackRecords(s, e.tag, e.ok); } else { StepRecords(s, e); }
        hide Step;
        RunRecords(Step(s, e), events[1..]);
      } else {
        RunRecords(s, events[1..]);
      }
    }
  }

  /**
   * Told by the events alone: until a callback succeeds, or a copy of invalid JSON is delivered, or a
   * callback on the third retry ends badly, the broker holds a copy of the message, ready or
   * unacknowledged, whatever is lost.
   */
  lemma HeldUntilDone(validJson: bool, retryBackoff: bool, events: seq<Event>)
    ensures var start := Published(validJson, retryBackoff);
      var s := Run(start, events);
      || Succeeds(start, events) || (!validJson && Delivers(start, events)) || RunsOut(start, events)
      || s.ready != multiset{} || exists tag :: tag in s.deliveries && s.deliveries[tag].open
  {
    RunRecords(Published(validJson, retryBackoff), events);
    NothingIsLost(validJson, retryBackoff, events);
  }
}
