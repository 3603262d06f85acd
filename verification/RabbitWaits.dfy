/** When a failed RabbitMQ message waits, and how much longer each time (src/config/rabbitmq/consumer.ts). */
module RabbitWaits {
  import opened Common
  import opened RabbitModel
  import opened RabbitProofs
  import opened RabbitRetry

  /** The event happened in the run. */
  ghost predicate Happened(s: State, events: seq<Event>, e: Event)
    decreases |events|
  {
    |events| > 0 &&
    if Enabled(s, events[0]) then events[0] == e || Happened(Step(s, events[0]), events[1..], e)
    else Happened(s, events[1..], e)
  }

  /** The handler has sent the republish, or given it up. */
  predicate HasRepublished(s: State, tag: nat) {
    tag in s.deliveries && (s.At(tag).phase.Publishing? || s.At(tag).phase.RefusedWait? || s.At(tag).phase.Nacked?)
  }

  predicate HasRequeued(s: State, tag: nat) { s.In(tag, Nacked) }

  predicate HasFailed(s: State, tag: nat) { s.In(tag, Backoff) || HasRepublished(s, tag) || s.In(tag, Failing) }

  lemma OthersStay(s: State, e: Event, tag: nat)
    requires Enabled(s, e) && Subject(s, e) != tag
    ensures tag in Step(s, e).deliveries <==> tag in s.deliveries
    ensures tag in s.deliveries ==> Step(s, e).deliveries[tag] == s.deliveries[tag]
  {
    StepTouchesItsSubject(s, e);
  }

  lemma OwnCallback(s: State, tag: nat, ok: bool)
    requires Enabled(s, CallbackDone(tag, ok))
    ensures var t := CallbackStep(s, tag, ok);
      && tag in t.deliveries && t.retryBackoff == s.retryBackoff
      && (s.retryBackoff ==> !HasRepublished(t, tag)) && !HasRequeued(t, tag)
      && (!s.retryBackoff ==> !t.In(tag, Backoff))
      && (HasFailed(t, tag) ==>
            && (ok ==> !s.At(tag).open)
            && (s.At(tag).retries < MAX_RETRIES <==> !t.In(tag, Failing))
            && (s.At(tag).retries < MAX_RETRIES ==> (t.In(tag, Backoff) <==> s.retryBackoff)))
  {
    HandleFailureFrame(s, tag);
    HandleFailureFrame(s.(succeeded := true), tag);
  }

  /** Where a step of its own, other than the end of its callback, leaves a delivery. */
  function PhaseAfter(e: Event, validJson: bool, before: Phase, open: bool): Phase {
    match e
    case Deliver(_) => if validJson then Handling else Acked
    case CallbackDone(_, _) => before
    case BackoffOver(_) => if open then Publishing(false) else RefusedWait
    case BrokerEnqueues(_) => Publishing(true)
    case Confirmed(_) => Acked
    case Refused(_) => RefusedWait
    case RefusedWaitOver(_) => if open then Nacked else Over
    case OnFailDone(_) => if open then Acked else Over
    case BrokerSettles(_) => Over
    case Lost(_, processDied) => if processDied || before == Acked || before == Nacked then Over else before
  }

  lemma PhaseOfNew(s: State, e: Event)
    requires Enabled(s, e) && e.Deliver?
    ensures Step(s, e).In(s.nextTag, PhaseAfter(e, s.validJson, Handling, true))
  {
  }

  lemma PhaseOfMoved(s: State, e: Event, tag: nat)
    requires Enabled(s, e) && Subject(s, e) == tag && !e.CallbackDone? && !e.Deliver?
    ensures tag in s.deliveries && Step(s, e).In(tag, PhaseAfter(e, s.validJson, s.At(tag).phase, s.At(tag).open))
  {
    match e
    case BackoffOver(_) =>
    case BrokerEnqueues(_) =>
    case Confirmed(_) =>
    case Refused(_) =>
    case RefusedWaitOver(_) =>
    case OnFailDone(_) =>
    case BrokerSettles(_) =>
    case Lost(_, _) =>
  }

  lemma OwnStep(s: State, e: Event, tag: nat)
    requires Enabled(s, e) && Subject(s, e) == tag && !e.CallbackDone?
    ensures !HasRepublished(s, tag) && HasRepublished(Step(s, e), tag) ==> e == BackoffOver(tag)
    ensures !HasRequeued(s, tag) && HasRequeued(Step(s, e), tag) ==> e == RefusedWaitOver(tag)
    ensures !s.In(tag, Backoff) ==> !Step(s, e).In(tag, Backoff)
    ensures !HasFailed(s, tag) ==> !HasFailed(Step(s, e), tag)
  {
    hide Step;
    if e.Deliver? { PhaseOfNew(s, e); } else { PhaseOfMoved(s, e, tag); }
  }

  lemma SameKind(s: State, e: Event)
    requires Enabled(s, e)
    ensures Step(s, e).retryBackoff == s.retryBackoff
  {
    match e
    case Deliver(_) =>
    case CallbackDone(u, _) =>
      HandleFailureFrame(s, u);
      HandleFailureFrame(s.(succeeded := true), u);
    case BackoffOver(_) =>
    case BrokerEnqueues(_) =>
    case Confirmed(_) =>
    case Refused(_) =>
    case RefusedWaitOver(_) =>
    case OnFailDone(_) =>
    case BrokerSettles(_) =>
    case Lost(_, _) =>
  }

  lemma RepublishStep(s: State, e: Event, tag: nat)
    requires Enabled(s, e)
    ensures Step(s, e).retryBackoff == s.retryBackoff
    ensures s.retryBackoff && !HasRepublished(s, tag) && HasRepublished(Step(s, e), tag) ==> e == BackoffOver(tag)
    ensures !HasRequeued(s, tag) && HasRequeued(Step(s, e), tag) ==> e == RefusedWaitOver(tag)
    ensures !s.retryBackoff && !s.In(tag, Backoff) ==> !Step(s, e).In(tag, Backoff)
  {
    SameKind(s, e);
    if Subject(s, e) != tag {
      OthersStay(s, e, tag);
    } else if e.CallbackDone? {
      OwnCallback(s, tag, e.ok);
    } else {
      OwnStep(s, e, tag);
    }
  }

  lemma {:induction false} RunWaits(s: State, events: seq<Event>, tag: nat)
    requires s.retryBackoff && !HasRepublished(s, tag)
    ensures HasRepublished(Run(s, events), tag) ==> Happened(s, events, BackoffOver(tag))
    decreases |events|
  {
    if |events| > 0 {
      if !Enabled(s, events[0]) {
        RunWaits(s, events[1..], tag);
      } else {
        RepublishStep(s, events[0], tag);
        if events[0] != BackoffOver(tag) { RunWaits(Step(s, events[0]), events[1..], tag); }
      }
    }
  }

  lemma {:induction false} RunRequeues(s: State, events: seq<Event>, tag: nat)
    requires !HasRequeued(s, tag)
    ensures HasRequeued(Run(s, events), tag) ==> Happened(s, events, RefusedWaitOver(tag))
    decreases |events|
  {
    if |events| > 0 {
      if !Enabled(s, events[0]) {
        RunRequeues(s, events[1..], tag);
      } else {
        RepublishStep(s, events[0], tag);
        if events[0] != RefusedWaitOver(tag) { RunRequeues(Step(s, events[0]), events[1..], tag); }
      }
    }
  }

  lemma {:induction false} RunNeverWaits(s: State, events: seq<Event>, tag: nat)
    requires !s.retryBackoff && !s.In(tag, Backoff)
    ensures !Run(s, events).In(tag, Backoff) && !Happened(s, events, BackoffOver(tag))
    decreases |events|
  {
    if |events| > 0 {
      if Enabled(s, events[0]) { RepublishStep(s, events[0], tag); }
      RunNeverWaits(if Enabled(s, events[0]) then Step(s, events[0]) else s, events[1..], tag);
    }
  }

  /**
   * In every run: where backoff is asked for, no handler republishes its message before its
   * wait is over, and where it is not none waits before that; and no handler has a
   * message requeued before it has waited after the refused republish.
   */
  lemma WaitsComeFirst(validJson: bool, retryBackoff: bool, events: seq<Event>, tag: nat)
    ensures var start := Published(validJson, retryBackoff);
      var s := Run(start, events);
      && (retryBackoff && HasRepublished(s, tag) ==> Happened(start, events, BackoffOver(tag)))
      && (!retryBackoff ==> !Happened(start, events, BackoffOver(tag)))
      && (HasRequeued(s, tag) ==> Happened(start, events, RefusedWaitOver(tag)))
  {
    var start := Published(validJson, retryBackoff);
    if retryBackoff { RunWaits(start, events, tag); } else { RunNeverWaits(start, events, tag); }
    RunRequeues(start, events, tag);
  }

  /** A handler is only ever past its callback when that failed, or succeeded without a channel to ack on. */
  lemma FailureStep(s: State, e: Event, tag: nat)
    requires Enabled(s, e) && !HasFailed(s, tag) && HasFailed(Step(s, e), tag)
    ensures e.CallbackDone? && e.tag == tag && (e.ok ==> !s.At(tag).open)
    ensures s.At(tag).retries < MAX_RETRIES <==> !Step(s, e).In(tag, Failing)
    ensures s.At(tag).retries < MAX_RETRIES ==> (Step(s, e).In(tag, Backoff) <==> s.retryBackoff)
  {
    if Subject(s, e) != tag {
      OthersStay(s, e, tag);
    } else if e.CallbackDone? {
      OwnCallback(s, tag, e.ok);
    } else {
      OwnStep(s, e, tag);
    }
  }

  /**
   * The ceiling of the wait starts at the base and doubles with each attempt until it
   * reaches the maximum, where it stays; from the seventeenth on it does not grow.
   */
  lemma CeilingDoubles(attempt: int, baseMs: nat, maxMs: nat)
    ensures attempt <= 1 ==> Ceiling(attempt, baseMs, maxMs) == Min(maxMs, baseMs)
    ensures 1 <= attempt <= 16 ==>
              Ceiling(attempt + 1, baseMs, maxMs) == Min(maxMs, 2 * Ceiling(attempt, baseMs, maxMs))
    ensures attempt >= 17 ==> Ceiling(attempt, baseMs, maxMs) == Ceiling(17, baseMs, maxMs)
  {
    if 1 <= attempt <= 16 { Doubled(baseMs, PowerOfTwo(attempt - 1), maxMs); }
  }

  lemma Doubled(baseMs: nat, power: nat, maxMs: nat)
    ensures Min(maxMs, baseMs * (2 * power)) == Min(maxMs, 2 * Min(maxMs, baseMs * power))
  {
    assert baseMs * (2 * power) == 2 * (baseMs * power);
  }

  /** So the three retries wait, on average, the base, twice and four times the base, up to the maximum. */
  lemma WaitsOfTheRetries(baseMs: nat, maxMs: nat)
    requires baseMs > 0 && maxMs > 0
    ensures RabbitRetryDelayMs(1, baseMs, maxMs, 500) == Min(maxMs, baseMs)
    ensures RabbitRetryDelayMs(2, baseMs, maxMs, 500) == Min(maxMs, 2 * baseMs)
    ensures RabbitRetryDelayMs(3, baseMs, maxMs, 500) == Min(maxMs, 4 * baseMs)
    ensures forall attempt: int, random: nat :: random <= 1_000 ==>
              RabbitRetryDelayMs(attempt, 0, maxMs, random) == 0 && RabbitRetryDelayMs(attempt, baseMs, 0, random) == 0
  {
    CeilingDoubles(1, baseMs, maxMs);
    CeilingDoubles(2, baseMs, maxMs);
  }
}
