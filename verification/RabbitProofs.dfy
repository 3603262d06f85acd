/** RabbitMQ delivery loses nothing, settles once, and drains. */
module RabbitProofs {
  import opened Common
  import opened RabbitModel

  // ── With any faults ──

  /** A copy that still answers for the message: not one whose republished copy took over, nor one acknowledged. */
  ghost predicate Live(d: Delivery) {
    d.open && d.phase != Acked && d.phase != Publishing(true)
  }

  ghost predicate LiveAt(s: State, tag: nat) { tag in s.deliveries && Live(s.deliveries[tag]) }

  ghost predicate NotLost(s: State) {
    s.Done() || s.ready != multiset{} || exists tag :: tag in s.deliveries && Live(s.deliveries[tag])
  }

  ghost predicate RetriesInRange(s: State) {
    && (forall r :: r in s.ready ==> r <= MAX_RETRIES)
    && (forall tag :: tag in s.deliveries ==>
          && s.deliveries[tag].retries <= MAX_RETRIES
          && (s.deliveries[tag].phase.Publishing? || s.deliveries[tag].phase.Backoff? ==>
                s.deliveries[tag].retries < MAX_RETRIES))
  }

  /** A settled delivery's handler is past its settle; a handler that ended on an open channel settled. */
  ghost predicate SettlesSound(s: State) {
    && NoDuplicates(s.settled)
    && (forall tag :: tag in s.deliveries ==> tag < s.nextTag)
    && (forall tag :: tag in s.settled ==>
          && tag in s.deliveries
          && (s.deliveries[tag].phase == Acked || s.deliveries[tag].phase == Nacked || s.deliveries[tag].phase == Over))
    && (forall tag :: tag in s.deliveries && (s.deliveries[tag].phase == Acked || s.deliveries[tag].phase == Nacked) ==>
          s.deliveries[tag].open && tag in s.settled)
    && (forall tag :: tag in s.deliveries && s.deliveries[tag].phase == Over ==> !s.deliveries[tag].open)
  }

  /** onFail runs for the last retry only. */
  ghost predicate FailingSound(s: State) {
    forall tag :: tag in s.deliveries && s.deliveries[tag].phase == Failing ==>
      s.failedOut && s.deliveries[tag].retries == MAX_RETRIES
  }

  ghost predicate Inv(s: State) {
    NotLost(s) && RetriesInRange(s) && SettlesSound(s) && FailingSound(s)
  }

  /** Another delivery that answered for the message still does after a change to `tag` alone. */
  lemma OthersStayLive(s: State, t: State, tag: nat)
    requires NotLost(s) && tag in s.deliveries && tag in t.deliveries
    requires t.deliveries == s.deliveries[tag := t.deliveries[tag]]
    requires s.ready <= t.ready && (s.Done() ==> t.Done())
    requires Live(s.deliveries[tag]) ==> Live(t.deliveries[tag]) || t.ready != multiset{} || t.Done()
    ensures NotLost(t)
  {
    if !t.Done() && t.ready == multiset{} {
      var other :| other in s.deliveries && Live(s.deliveries[other]);
      assert other in t.deliveries && Live(t.deliveries[other]);
    }
  }

  lemma ReceiveKeeps(s: State, retries: nat)
    requires Inv(s) && retries in s.ready
    ensures Inv(Receive(s, retries))
  {
    assert s.nextTag !in s.settled;
    assert Live(Receive(s, retries).deliveries[s.nextTag]);
  }

  lemma SettleKeeps(s: State, tag: nat, phase: Phase)
    requires Inv(s) && tag in s.deliveries && s.deliveries[tag].open && tag !in s.settled
    requires phase == Nacked || (phase == Acked && (s.Done() || s.deliveries[tag].phase == Publishing(true)))
    ensures Inv(Settle(s, tag, phase))
  {
    AppendKeepsNoDuplicates(s.settled, tag);
    OthersStayLive(s, Settle(s, tag, phase), tag);
  }

  lemma DeliverKeeps(s: State, retries: nat)
    requires Inv(s) && retries in s.ready
    ensures Inv(DeliverStep(s, retries))
  {
    ReceiveKeeps(s, retries);
    if !s.validJson {
      assert s.nextTag !in s.settled;
      SettleKeeps(Receive(s, retries).(discarded := true), s.nextTag, Acked);
    }
  }

  /** Moving a handler on, short of settling. */
  lemma EnterKeeps(s: State, t: State, tag: nat, phase: Phase)
    requires Inv(s) && tag in s.deliveries && tag !in s.settled
    requires t == Enter(s, tag, phase).(ready := t.ready, failedOut := t.failedOut, succeeded := t.succeeded)
    requires s.ready <= t.ready && (forall r :: r in t.ready ==> r <= MAX_RETRIES) && (s.Done() ==> t.Done())
    requires phase != Acked && phase != Nacked && (phase == Over ==> !s.deliveries[tag].open)
    requires phase == Publishing(true) ==> t.ready != multiset{}
    requires phase.Publishing? || phase.Backoff? ==> s.deliveries[tag].retries < MAX_RETRIES
    requires phase == Failing ==> t.failedOut && s.deliveries[tag].retries == MAX_RETRIES
    requires s.failedOut ==> t.failedOut
    ensures Inv(t)
  {
    OthersStayLive(s, t, tag);
  }

  lemma HandleFailureKeeps(s: State, tag: nat)
    requires Inv(s) && tag in s.deliveries && tag !in s.settled
    ensures Inv(HandleFailure(s, tag))
  {
    var t := HandleFailure(s, tag);
    EnterKeeps(s, t, tag, t.deliveries[tag].phase);
  }

  lemma CallbackStepKeeps(s: State, tag: nat, ok: bool)
    requires Inv(s) && Enabled(s, CallbackDone(tag, ok))
    ensures Inv(CallbackStep(s, tag, ok))
  {
    if !ok {
      HandleFailureKeeps(s, tag);
    } else {
      var u := s.(succeeded := true);
      assert Inv(u);
      if s.At(tag).open { SettleKeeps(u, tag, Acked); } else { HandleFailureKeeps(u, tag); }
    }
  }

  lemma SettledStepKeeps(s: State, tag: nat)
    requires Inv(s) && Enabled(s, BrokerSettles(tag))
    ensures Inv(SettledStep(s, tag))
  {
    OthersStayLive(s, SettledStep(s, tag), tag);
  }

  lemma LostStepKeeps(s: State, tag: nat, processDied: bool)
    requires Inv(s) && Enabled(s, Lost(tag, processDied))
    ensures Inv(LostStep(s, tag, processDied))
  {
    var t := LostStep(s, tag, processDied);
    assert s.deliveries[tag].retries in t.ready;
    OthersStayLive(s, t, tag);
  }

  lemma BackoffOverKeeps(s: State, tag: nat)
    requires Inv(s) && Enabled(s, BackoffOver(tag))
    ensures Inv(SendRetry(s, tag))
  {
    EnterKeeps(s, SendRetry(s, tag), tag, if s.At(tag).open then Publishing(false) else RefusedWait);
  }

  lemma EnqueuedKeeps(s: State, tag: nat)
    requires Inv(s) && Enabled(s, BrokerEnqueues(tag))
    ensures Inv(Step(s, BrokerEnqueues(tag)))
  {
    var t := Step(s, BrokerEnqueues(tag));
    assert s.At(tag).retries + 1 in t.ready;
    EnterKeeps(s, t, tag, Publishing(true));
  }

  lemma RefusedWaitOverKeeps(s: State, tag: nat)
    requires Inv(s) && Enabled(s, RefusedWaitOver(tag))
    ensures Inv(Step(s, RefusedWaitOver(tag)))
  {
    if s.At(tag).open {
      SettleKeeps(s, tag, Nacked);
    } else {
      EnterKeeps(s, Enter(s, tag, Over), tag, Over);
    }
  }

  lemma OnFailDoneKeeps(s: State, tag: nat)
    requires Inv(s) && Enabled(s, OnFailDone(tag))
    ensures Inv(Step(s, OnFailDone(tag)))
  {
    if s.At(tag).open {
      SettleKeeps(s, tag, Acked);
    } else {
      EnterKeeps(s, Enter(s, tag, Over), tag, Over);
    }
  }

  lemma StepKeepsInv(s: State, e: Event)
    requires Inv(s) && Enabled(s, e)
    ensures Inv(Step(s, e))
  {
    match e
    case Deliver(retries) => DeliverKeeps(s, retries);
    case CallbackDone(tag, ok) => CallbackStepKeeps(s, tag, ok);
    case BackoffOver(tag) => BackoffOverKeeps(s, tag);
    case BrokerEnqueues(tag) => EnqueuedKeeps(s, tag);
    case Confirmed(tag) => SettleKeeps(s, tag, Acked);
    case Refused(tag) => EnterKeeps(s, Enter(s, tag, RefusedWait), tag, RefusedWait);
    case RefusedWaitOver(tag) => RefusedWaitOverKeeps(s, tag);
    case OnFailDone(tag) => OnFailDoneKeeps(s, tag);
    case BrokerSettles(tag) => SettledStepKeeps(s, tag);
    case Lost(tag, processDied) => LostStepKeeps(s, tag, processDied);
  }

  lemma {:induction false} RunKeepsInv(s: State, events: seq<Event>)
    requires Inv(s)
    ensures Inv(Run(s, events))
    decreases |events|
  {
    if events != [] {
      if Enabled(s, events[0]) { StepKeepsInv(s, events[0]); }
      RunKeepsInv(if Enabled(s, events[0]) then Step(s, events[0]) else s, events[1..]);
    }
  }

  /**
   * With channels lost and processes dying at any step, and republishes
   * refused: until a callback succeeded, the JSON proved invalid or the
   * fourth failure reached onFail, the broker holds a copy, ready or
   * unacknowledged; every copy has x-retries 0 to 3; and no delivery is acked
   * or requeued twice.
   */
  lemma NothingIsLost(validJson: bool, retryBackoff: bool, events: seq<Event>)
    ensures var s := Run(Published(validJson, retryBackoff), events);
      && (s.succeeded || s.discarded || s.failedOut || s.ready != multiset{}
          || exists tag :: tag in s.deliveries && s.deliveries[tag].open)
      && (forall r :: r in s.ready ==> r <= MAX_RETRIES)
      && (forall tag :: tag in s.deliveries ==> s.deliveries[tag].retries <= MAX_RETRIES)
      && NoDuplicates(s.settled)
  {
    RunKeepsInv(Published(validJson, retryBackoff), events);
    var s := Run(Published(validJson, retryBackoff), events);
    if !s.Done() && s.ready == multiset{} {
      var tag :| tag in s.deliveries && Live(s.deliveries[tag]);
      assert s.deliveries[tag].open;
    }
  }

  /** A failing handler only changes its own phase. */
  lemma HandleFailureFrame(s: State, tag: nat)
    requires tag in s.deliveries
    ensures var t := HandleFailure(s, tag);
      && t == s.(deliveries := t.deliveries, failedOut := t.failedOut)
      && t.deliveries == s.deliveries[tag := s.deliveries[tag].(phase := t.deliveries[tag].phase)]
      && (t.deliveries[tag].phase == Failing || t.deliveries[tag].phase == Backoff
          || t.deliveries[tag].phase == if s.deliveries[tag].open then Publishing(false) else RefusedWait)
  {
  }

  /** The delivery an event is about; for a new one, its tag. */
  function Subject(s: State, e: Event): nat {
    match e
    case Deliver(_) => s.nextTag
    case CallbackDone(tag, _) => tag
    case BackoffOver(tag) => tag
    case BrokerEnqueues(tag) => tag
    case Confirmed(tag) => tag
    case Refused(tag) => tag
    case RefusedWaitOver(tag) => tag
    case OnFailDone(tag) => tag
    case BrokerSettles(tag) => tag
    case Lost(tag, _) => tag
  }

  /** Only the delivery `tag` may differ. */
  ghost predicate SameButFor(s: State, t: State, tag: nat) {
    tag in t.deliveries &&
    forall d: nat :: d != tag ==>
      && (d in t.deliveries <==> d in s.deliveries)
      && (d in s.deliveries ==> t.deliveries[d] == s.deliveries[d])
  }

  /** A step changes its own delivery only, and closes it only when it settles or is lost. */
  lemma StepTouchesItsSubject(s: State, e: Event)
    requires Enabled(s, e)
    ensures var t := Step(s, e); var tag := Subject(s, e);
      && SameButFor(s, t, tag)
      && (!e.Deliver? && !e.BrokerSettles? && !e.Lost? ==> t.deliveries[tag].open == s.deliveries[tag].open)
  {
    match e
    case Deliver(retries) => DeliverTouches(s, retries);
    case CallbackDone(tag, ok) => CallbackTouches(s, tag, ok);
    case BackoffOver(tag) => HandlerTouches(s, e, tag);
    case Confirmed(tag) => HandlerTouches(s, e, tag);
    case Refused(tag) => HandlerTouches(s, e, tag);
    case RefusedWaitOver(tag) => HandlerTouches(s, e, tag);
    case OnFailDone(tag) => HandlerTouches(s, e, tag);
    case BrokerEnqueues(tag) =>
    case BrokerSettles(tag) =>
    case Lost(tag, _) =>
  }

  /** A handler that goes on changes its phase only. */
  lemma HandlerTouches(s: State, e: Event, tag: nat)
    requires Enabled(s, e) && tag == Subject(s, e)
    requires e.BackoffOver? || e.Confirmed? || e.Refused? || e.RefusedWaitOver? || e.OnFailDone?
    ensures var t := Step(s, e); SameButFor(s, t, tag) && t.deliveries[tag].open == s.deliveries[tag].open
  {
    assert Step(s, e).deliveries == s.deliveries[tag := Step(s, e).deliveries[tag]];
  }

  lemma DeliverTouches(s: State, retries: nat)
    ensures var t := DeliverStep(s, retries); SameButFor(s, t, s.nextTag) && RankAt(t, s.nextTag) <= 6
  {
  }

  lemma StepLowersRank(s: State, e: Event)
    requires Enabled(s, e) && FaultFree(e) && s.nextTag !in s.deliveries
    ensures RankAt(Step(s, e), Subject(s, e)) < RankAt(s, Subject(s, e))
  {
    match e
    case Deliver(retries) => DeliverTouches(s, retries);
    case CallbackDone(tag, ok) => CallbackTouches(s, tag, ok);
    case BrokerEnqueues(tag) => assert Step(s, e).deliveries[tag].phase == Publishing(true);
    case BrokerSettles(tag) => assert Step(s, e).deliveries[tag].phase == Over;
    case BackoffOver(tag) => EnterLowersRank(s, tag, if s.At(tag).open then Publishing(false) else RefusedWait);
    case Confirmed(tag) => EnterLowersRank(s, tag, Acked);
    case RefusedWaitOver(tag) => EnterLowersRank(s, tag, if s.At(tag).open then Nacked else Over);
    case OnFailDone(tag) => EnterLowersRank(s, tag, if s.At(tag).open then Acked else Over);
  }

  lemma EnterLowersRank(s: State, tag: nat, phase: Phase)
    requires tag in s.deliveries && Rank(phase) < Rank(s.deliveries[tag].phase)
    ensures RankAt(Enter(s, tag, phase), tag) < RankAt(s, tag)
  {
  }

  lemma CallbackTouches(s: State, tag: nat, ok: bool)
    requires Enabled(s, CallbackDone(tag, ok))
    ensures var t := CallbackStep(s, tag, ok);
      && SameButFor(s, t, tag)
      && t.deliveries[tag].open == s.deliveries[tag].open
      && Rank(t.deliveries[tag].phase) < Rank(s.deliveries[tag].phase)
  {
    HandleFailureFrame(s, tag);
    HandleFailureFrame(s.(succeeded := true), tag);
  }

  /** Only an ack or a requeue it sent, or the loss of its channel, takes a delivery from the broker. */
  lemma StepEndsSettledOrLost(s: State, e: Event, tag: nat)
    requires Inv(s) && Enabled(s, e) && tag in s.deliveries && s.deliveries[tag].open
    ensures var t := Step(s, e);
      tag in t.deliveries && (!t.deliveries[tag].open ==> tag in s.settled || (e.Lost? && e.lost == tag))
  {
    StepTouchesItsSubject(s, e);
  }

  lemma SettledStays(s: State, e: Event)
    requires Enabled(s, e)
    ensures forall tag :: tag in s.settled ==> tag in Step(s, e).settled
  {
    var t := Step(s, e);
    assert t.settled == s.settled || exists tag :: t.settled == s.settled + [tag] by {
      match e
      case Deliver(_) => assert s.validJson || t.settled == s.settled + [s.nextTag];
      case CallbackDone(tag, ok) => assert t.settled == s.settled || t.settled == s.settled + [tag];
      case Confirmed(tag) => assert t.settled == s.settled + [tag];
      case RefusedWaitOver(tag) => assert t.settled == s.settled || t.settled == s.settled + [tag];
      case OnFailDone(tag) => assert t.settled == s.settled || t.settled == s.settled + [tag];
      case _ =>
    }
  }

  /** The run loses the channel of the delivery. */
  ghost predicate LostIn(s: State, events: seq<Event>, tag: nat)
    decreases |events|
  {
    events != [] &&
    if Enabled(s, events[0]) then
      (events[0].Lost? && events[0].lost == tag) || LostIn(Step(s, events[0]), events[1..], tag)
    else
      LostIn(s, events[1..], tag)
  }

  lemma {:induction false} RunEndsSettledOrLost(s: State, events: seq<Event>, tag: nat)
    requires Inv(s) && (tag in s.deliveries ==> s.deliveries[tag].open || tag in s.settled)
    ensures var t := Run(s, events);
      tag in t.deliveries && !t.deliveries[tag].open ==> tag in t.settled || LostIn(s, events, tag)
    decreases |events|
  {
    if events != [] {
      var e := events[0];
      if !Enabled(s, e) {
        RunEndsSettledOrLost(s, events[1..], tag);
      } else if !(e.Lost? && e.lost == tag) {
        StepKeepsInv(s, e);
        SettledStays(s, e);
        StepTouchesItsSubject(s, e);
        if tag in s.deliveries && s.deliveries[tag].open { StepEndsSettledOrLost(s, e, tag); }
        RunEndsSettledOrLost(Step(s, e), events[1..], tag);
      }
    }
  }

  /**
   * In every run, a delivery the broker no longer holds was acked or requeued
   * exactly once, or its channel was lost; and a handler that has ended left
   * no delivery with the broker.
   */
  lemma DeliveriesEndSettledOrLost(validJson: bool, retryBackoff: bool, events: seq<Event>, tag: nat)
    ensures var start := Published(validJson, retryBackoff); var s := Run(start, events);
      && NoDuplicates(s.settled)
      && (tag in s.deliveries && s.deliveries[tag].phase == Over ==> !s.deliveries[tag].open)
      && (tag in s.deliveries && !s.deliveries[tag].open ==> tag in s.settled || LostIn(start, events, tag))
  {
    RunKeepsInv(Published(validJson, retryBackoff), events);
    RunEndsSettledOrLost(Published(validJson, retryBackoff), events, tag);
  }

  /**
   * onFail is reached exactly by a delivery on its last retry whose callback
   * failed, or whose callback succeeded after its channel had gone.
   */
  lemma OnFailAfterTheLastRetry(s: State, e: Event)
    requires Enabled(s, e) && !s.failedOut
    ensures Step(s, e).failedOut <==>
            e.CallbackDone? && s.deliveries[e.tag].retries >= MAX_RETRIES && (e.ok ==> !s.deliveries[e.tag].open)
  {
    if e.CallbackDone? { HandleFailureFrame(s, e.tag); }
  }

  // ── A success that is reported as a failure ──

  lemma {:induction false} RunAppend(s: State, first: seq<Event>, second: seq<Event>)
    ensures Run(s, first + second) == Run(Run(s, first), second)
    decreases |first|
  {
    if first == [] {
      assert first + second == second;
    } else {
      assert (first + second)[1..] == first[1..] + second;
      RunAppend(if Enabled(s, first[0]) then Step(s, first[0]) else s, first[1..], second);
    }
  }

  lemma RunOne(s: State, e: Event)
    requires Enabled(s, e)
    ensures Run(s, [e]) == Step(s, e)
  {
    assert Run(Step(s, e), [e][1..]) == Step(s, e);
  }

  lemma RunThree(s: State, a: Event, b: Event, c: Event)
    ensures Run(s, [a, b, c]) == Run(Run(Run(s, [a]), [b]), [c])
  {
    RunAppend(s, [a], [b, c]);
    RunAppend(Run(s, [a]), [b], [c]);
    assert [a] + [b, c] == [a, b, c] && [b] + [c] == [b, c];
  }

  /** One attempt whose callback fails and whose copy reaches the queue with one retry more. */
  function FailedAttempt(retries: nat): seq<Event> {
    [Deliver(retries), CallbackDone(retries, false), BrokerEnqueues(retries)]
  }

  /** The message waits for its attempt number `retries`, and no callback succeeded yet. */
  ghost predicate Waiting(s: State, retries: nat) {
    s == State(true, false, multiset{retries}, s.deliveries, retries, [], false, false, false)
  }

  lemma FailedAttemptWaits(s: State, retries: nat)
    requires Waiting(s, retries) && retries < MAX_RETRIES
    ensures Waiting(Run(s, FailedAttempt(retries)), retries + 1)
  {
    var s1 := Step(s, Deliver(retries));
    var s2 := Step(s1, CallbackDone(retries, false));
    RunThree(s, Deliver(retries), CallbackDone(retries, false), BrokerEnqueues(retries));
    RunOne(s, Deliver(retries));
    RunOne(s1, CallbackDone(retries, false));
    RunOne(s2, BrokerEnqueues(retries));
    assert s1.ready == multiset{};
    assert Step(s2, BrokerEnqueues(retries)).ready == multiset{retries + 1};
  }

  lemma LastAttemptReachesOnFail(s: State)
    requires Waiting(s, 3)
    ensures var t := Run(s, [Deliver(3), Lost(3, false), CallbackDone(3, true)]); t.succeeded && t.failedOut
  {
    var s1 := Step(s, Deliver(3));
    var s2 := Step(s1, Lost(3, false));
    RunThree(s, Deliver(3), Lost(3, false), CallbackDone(3, true));
    RunOne(s, Deliver(3));
    RunOne(s1, Lost(3, false));
    RunOne(s2, CallbackDone(3, true));
  }

  function ThreeFailures(): seq<Event> {
    FailedAttempt(0) + FailedAttempt(1) + FailedAttempt(2)
  }

  lemma ThreeFailuresWait()
    ensures Waiting(Run(Published(true, false), ThreeFailures()), 3)
  {
    var start := Published(true, false);
    FailedAttemptWaits(start, 0);
    RunAppend(start, FailedAttempt(0), FailedAttempt(1));
    FailedAttemptWaits(Run(start, FailedAttempt(0)), 1);
    RunAppend(start, FailedAttempt(0) + FailedAttempt(1), FailedAttempt(2));
    FailedAttemptWaits(Run(start, FailedAttempt(0) + FailedAttempt(1)), 2);
  }

  /**
   * Three failed attempts, then a callback that succeeds, the only one, after
   * its channel was lost: onFail is reached although the work was done.
   */
  lemma SuccessReachesOnFail()
    ensures var failed := Run(Published(true, false), ThreeFailures()); !failed.succeeded && !failed.failedOut
    ensures var s := Run(Published(true, false), ThreeFailures() + [Deliver(3), Lost(3, false), CallbackDone(3, true)]);
      s.succeeded && s.failedOut
  {
    ThreeFailuresWait();
    LastAttemptReachesOnFail(Run(Published(true, false), ThreeFailures()));
    RunAppend(Published(true, false), ThreeFailures(), [Deliver(3), Lost(3, false), CallbackDone(3, true)]);
  }

  // ── Without faults ──

  predicate FaultFree(e: Event) { !e.Lost? && !e.Refused? }

  /** The delivery's copy was replaced or is done with. */
  ghost predicate Superseded(p: Phase) {
    p == Publishing(true) || p == Acked || p == Over
  }

  /**
   * The deliveries follow one another, each with one retry more, and only the last one
   * or the queue holds the message.
   */
  ghost predicate OneCopy(s: State) {
    && s.nextTag <= MAX_RETRIES + 1
    && (forall tag: nat :: tag in s.deliveries <==> tag < s.nextTag)
    && (forall tag :: tag in s.deliveries ==>
          && s.deliveries[tag].retries == tag
          && (s.deliveries[tag].open <==> s.deliveries[tag].phase != Over)
          && s.deliveries[tag].phase != RefusedWait && s.deliveries[tag].phase != Nacked
          && (tag + 1 < s.nextTag ==> Superseded(s.deliveries[tag].phase)))
    && (if s.ready != multiset{} then
          s.ready == multiset{s.nextTag} && s.nextTag <= MAX_RETRIES && !s.Done()
            && (s.nextTag > 0 ==> Superseded(s.deliveries[s.nextTag - 1].phase))
        else
          s.nextTag > 0 &&
            var last := s.deliveries[s.nextTag - 1].phase;
            if s.Done() then last == Failing || last == Acked || last == Over
            else last == Handling || last == Backoff || last == Publishing(false))
  }

  lemma CallbackKeepsOneCopy(s: State, tag: nat, ok: bool)
    requires OneCopy(s) && Enabled(s, CallbackDone(tag, ok))
    ensures OneCopy(CallbackStep(s, tag, ok))
  {
    HandleFailureFrame(s, tag);
    assert tag == s.nextTag - 1;
  }

  /** A step of the last delivery short of the republish, or of one already superseded. */
  lemma MoveKeepsOneCopy(s: State, t: State, tag: nat)
    requires OneCopy(s) && tag in s.deliveries && tag in t.deliveries
    requires t == s.(deliveries := t.deliveries, settled := t.settled)
    requires t.deliveries == s.deliveries[tag := t.deliveries[tag]]
    requires t.deliveries[tag].retries == tag && (t.deliveries[tag].open <==> t.deliveries[tag].phase != Over)
    requires var p, q := s.deliveries[tag].phase, t.deliveries[tag].phase;
      || (p == Backoff && q == Publishing(false)) || (p == Publishing(true) && q == Acked)
      || (p == Failing && q == Acked) || (p == Acked && q == Over)
    ensures OneCopy(t)
  {
  }

  lemma EnqueueKeepsOneCopy(s: State, tag: nat)
    requires Inv(s) && OneCopy(s) && Enabled(s, BrokerEnqueues(tag))
    ensures OneCopy(Step(s, BrokerEnqueues(tag)))
  {
    assert tag == s.nextTag - 1 && s.ready == multiset{};
    assert Step(s, BrokerEnqueues(tag)).ready == multiset{s.nextTag};
  }

  lemma DeliverKeepsOneCopy(s: State, retries: nat)
    requires OneCopy(s) && retries in s.ready
    ensures OneCopy(DeliverStep(s, retries))
  {
    assert retries == s.nextTag && !s.Done();
    var t := Receive(s, retries);
    assert t.ready == multiset{};
    assert OneCopy(t);
    if !s.validJson { DiscardKeepsOneCopy(t, s.nextTag); }
  }

  lemma DiscardKeepsOneCopy(s: State, tag: nat)
    requires OneCopy(s) && s.ready == multiset{} && tag == s.nextTag - 1 && s.deliveries[tag].phase == Handling
    ensures OneCopy(Settle(s.(discarded := true), tag, Acked))
  {
  }

  lemma StepKeepsOneCopy(s: State, e: Event)
    requires Inv(s) && OneCopy(s) && Enabled(s, e) && FaultFree(e)
    ensures OneCopy(Step(s, e))
  {
    var t := Step(s, e);
    match e
    case Deliver(retries) => DeliverKeepsOneCopy(s, retries);
    case CallbackDone(tag, ok) => CallbackKeepsOneCopy(s, tag, ok);
    case BackoffOver(tag) => MoveKeepsOneCopy(s, t, tag);
    case BrokerEnqueues(tag) => EnqueueKeepsOneCopy(s, tag);
    case Confirmed(tag) => MoveKeepsOneCopy(s, t, tag);
    case OnFailDone(tag) => MoveKeepsOneCopy(s, t, tag);
    case BrokerSettles(tag) => MoveKeepsOneCopy(s, t, tag);
  }

  /** Steps still ahead of a delivery in `p`, the ones of a delivery not yet made included. */
  function Rank(p: Phase): nat {
    match p
    case Handling => 6
    case Backoff => 5
    case Publishing(enqueued) => if enqueued then 3 else 4
    case RefusedWait => 2
    case Failing => 2
    case Acked => 1
    case Nacked => 1
    case Over => 0
  }

  function RankAt(s: State, tag: nat): nat {
    if tag in s.deliveries then Rank(s.deliveries[tag].phase) else 7
  }

  /** What is left to do for the at most four deliveries. */
  function Work(s: State): nat {
    RankAt(s, 0) + RankAt(s, 1) + RankAt(s, 2) + RankAt(s, 3)
  }

  lemma MoveWorks(s: State, t: State, tag: nat)
    requires tag <= MAX_RETRIES && SameButFor(s, t, tag)
    requires RankAt(t, tag) < RankAt(s, tag)
    ensures Work(t) < Work(s)
  {
  }

  lemma StepWorks(s: State, e: Event)
    requires OneCopy(s) && Enabled(s, e) && FaultFree(e)
    ensures Work(Step(s, e)) < Work(s)
  {
    StepTouchesItsSubject(s, e);
    StepLowersRank(s, e);
    MoveWorks(s, Step(s, e), Subject(s, e));
  }

  /** Every event of the run happens, and none is a fault. */
  predicate FaultFreeRun(s: State, events: seq<Event>)
    decreases |events|
  {
    events == [] || (Enabled(s, events[0]) && FaultFree(events[0]) && FaultFreeRun(Step(s, events[0]), events[1..]))
  }

  lemma {:induction false} FaultFreeRunWorks(s: State, events: seq<Event>)
    requires Inv(s) && OneCopy(s) && FaultFreeRun(s, events)
    ensures Inv(Run(s, events)) && OneCopy(Run(s, events)) && |events| + Work(Run(s, events)) <= Work(s)
    decreases |events|
  {
    if events != [] {
      StepKeepsInv(s, events[0]);
      StepKeepsOneCopy(s, events[0]);
      StepWorks(s, events[0]);
      FaultFreeRunWorks(Step(s, events[0]), events[1..]);
    }
  }

  /** The step that is always possible while the message is not drained. */
  lemma NotDrainedMeansEnabled(s: State) returns (e: Event)
    requires OneCopy(s) && (s.ready != multiset{} || exists tag :: tag in s.deliveries && s.deliveries[tag].open)
    ensures Enabled(s, e) && FaultFree(e)
  {
    if s.ready != multiset{} { return Deliver(s.nextTag); }
    var tag :| tag in s.deliveries && s.deliveries[tag].open;
    match s.deliveries[tag].phase
    case Handling => e := CallbackDone(tag, true);
    case Backoff => e := BackoffOver(tag);
    case Publishing(enqueued) => e := if enqueued then Confirmed(tag) else BrokerEnqueues(tag);
    case Failing => e := OnFailDone(tag);
    case Acked => e := BrokerSettles(tag);
  }

  /**
   * Without crashes or refusals: one copy answers for the message until it is
   * done, it is delivered at most four times, no run has more than 28 steps,
   * and while anything is left in the queue or unacknowledged a step can
   * happen; so the message drains.
   */
  lemma FaultFreeDrains(validJson: bool, retryBackoff: bool, events: seq<Event>)
    requires FaultFreeRun(Published(validJson, retryBackoff), events)
    ensures var s := Run(Published(validJson, retryBackoff), events);
      && |events| <= 28 && s.nextTag <= 4
      && |s.ready| <= 1
      && (s.ready != multiset{} ==> forall tag :: tag in s.deliveries ==> !Live(s.deliveries[tag]))
      && (forall a, b :: LiveAt(s, a) && LiveAt(s, b) ==> a == b)
      && (if s.ready == multiset{} && forall tag :: tag in s.deliveries ==> !s.deliveries[tag].open then s.Done()
          else exists e :: Enabled(s, e) && FaultFree(e))
  {
    var start := Published(validJson, retryBackoff);
    FaultFreeRunWorks(start, events);
    var s := Run(start, events);
    OneCopyMeans(s);
    if !(s.ready == multiset{} && forall tag :: tag in s.deliveries ==> !s.deliveries[tag].open) {
      var e := NotDrainedMeansEnabled(s);
    }
  }

  lemma OneCopyMeans(s: State)
    requires OneCopy(s)
    ensures s.nextTag <= 4 && |s.ready| <= 1
    ensures s.ready != multiset{} ==> forall tag :: tag in s.deliveries ==> !Live(s.deliveries[tag])
    ensures forall a, b :: LiveAt(s, a) && LiveAt(s, b) ==> a == b
    ensures s.ready == multiset{} && (forall tag :: tag in s.deliveries ==> !s.deliveries[tag].open) ==> s.Done()
  {
    if s.ready == multiset{} { assert s.nextTag - 1 in s.deliveries; }
    forall a, b | LiveAt(s, a) && LiveAt(s, b) ensures a == b { assert a == s.nextTag - 1 && b == s.nextTag - 1; }
  }
}
