/**
 * How the bus notices that its client is gone, and how long it waits before it connects
 * again (src/config/cluster-bus.ts, and listenRetryDelayMs of
 * src/modules/ai-chatbot/ai-id/shared/lesson-author-listen-retry.logic.ts).
 */
module BusLosses {
  import opened Common
  import opened BusModel
  import opened BusProofs
  import R = RabbitRetry

  // ── A client that is gone ──

  /** The client of the event has failed, and the bus is told. */
  predicate Breaks(s: State, e: Event, c: nat) {
    (e.ClientError? && e.client == c) || (e.ProbeFailed? && e.probed == c && s.connection == Some(c))
  }

  /**
   * An error of the current connection, or a probe on it that fails, loses it: the client is released, the
   * bus is unhealthy, the reset handlers run, and a retry is armed. An error of any other client
   * only releases that; a late probe of one does nothing.
   */
  lemma LossIsNoticed(s: State, e: Event, c: nat)
    requires Inv(s) && Enabled(s, e) && (e == ClientError(c) || e == ProbeFailed(c))
    ensures var t := Step(s, e);
      && (s.connection == Some(c) ==>
            && t.connection.None? && !t.healthy && t.probe.None? && t.retryTimer
            && t.released == s.released + [c] && t.resets == s.resets + 1 && t.failures == s.failures + 1)
      && (s.connection != Some(c) && e.ClientError? ==>
            t == s.(released := if c in s.released then s.released else s.released + [c]))
      && (s.connection != Some(c) && e.ProbeFailed? ==> t == s)
  {
  }

  lemma ReleasedStays(s: State, e: Event, c: nat)
    requires Inv(s) && Enabled(s, e) && c in s.released
    ensures c in Step(s, e).released
  {
    match e
    case Acquired(ok) => if !ok { ResumeWithoutConnection(Lose(s).(connecting := None)); }
    case ListenAnswered(listening) => ListenReleases(s, listening);
    case _ =>
  }

  lemma ListenReleases(s: State, listening: bool)
    requires Inv(s) && Enabled(s, ListenAnswered(listening))
    ensures s.released <= Step(s, ListenAnswered(listening)).released
  {
    var c := s.connecting.value.client.value;
    if !listening {
      ResumeWithoutConnection(Lose(Release(s, c)).(connecting := None));
    } else if s.stopped {
      ResumeWithoutConnection(Release(s, c).(connecting := None));
    } else if c in s.released {
      ResumeWithoutConnection(Lose(s).(connecting := None));
    }
  }

  lemma {:induction false} RunKeepsReleased(s: State, events: seq<Event>, c: nat)
    requires Inv(s) && c in s.released
    ensures Inv(Run(s, events)) && c in Run(s, events).released
    decreases |events|
  {
    if |events| > 0 {
      if Enabled(s, events[0]) {
        StepKeepsInv(s, events[0]);
        ReleasedStays(s, events[0], c);
      }
      RunKeepsReleased(if Enabled(s, events[0]) then Step(s, events[0]) else s, events[1..], c);
    }
  }

  /** A client that broke, whenever that was, is released and never the connection from then on. */
  lemma BrokenClientIsNeverUsed(s: State, e: Event, c: nat, later: seq<Event>)
    requires Inv(s) && Enabled(s, e) && Breaks(s, e, c)
    ensures var u := Run(Step(s, e), later); c in u.released && u.connection != Some(c)
  {
    LossIsNoticed(s, e, c);
    StepKeepsInv(s, e);
    RunKeepsReleased(Step(s, e), later, c);
  }

  // ── Failures in a row ──

  /** The event ends an attempt, or a connection, badly. */
  predicate Fails(s: State, e: Event) {
    match e
    case Acquired(ok) => !ok
    case ListenAnswered(listening) =>
      !listening
      || (!s.stopped && s.connecting.Some? && s.connecting.value.client.Some?
          && s.connecting.value.client.value in s.released)
    case ClientError(c) => s.connection == Some(c)
    case ProbeFailed(c) => s.connection == Some(c)
    case _ => false
  }

  /** The event makes the bus listen. */
  predicate Connects(s: State, e: Event) {
    && e.ListenAnswered? && e.listening && !s.stopped
    && s.connecting.Some? && s.connecting.value.client.Some? && s.connecting.value.client.value !in s.released
  }

  /** The failures since the bus last listened. */
  function InARow(s: State, events: seq<Event>, failures: nat): nat
    decreases |events|
  {
    if |events| == 0 then failures
    else if !Enabled(s, events[0]) then InARow(s, events[1..], failures)
    else
      InARow(Step(s, events[0]), events[1..],
             if Connects(s, events[0]) then 0 else if Fails(s, events[0]) then failures + 1 else failures)
  }

  lemma FailuresStep(s: State, e: Event)
    requires Inv(s) && Enabled(s, e)
    ensures Step(s, e).failures == if Connects(s, e) then 0 else if Fails(s, e) then s.failures + 1 else s.failures
  {
    match e
    case Acquired(ok) => if !ok { ResumeWithoutConnection(Lose(s).(connecting := None)); }
    case ListenAnswered(listening) =>
      var c := s.connecting.value.client.value;
      if !listening {
        ResumeWithoutConnection(Lose(Release(s, c)).(connecting := None));
      } else if s.stopped {
        ResumeWithoutConnection(Release(s, c).(connecting := None));
      } else if c in s.released {
        ResumeWithoutConnection(Lose(s).(connecting := None));
      }
    case _ =>
  }

  lemma {:induction false} RunCountsFailures(s: State, events: seq<Event>)
    requires Inv(s)
    ensures Run(s, events).failures == InARow(s, events, s.failures)
    decreases |events|
  {
    if |events| > 0 {
      if Enabled(s, events[0]) {
        StepKeepsInv(s, events[0]);
        FailuresStep(s, events[0]);
        RunCountsFailures(Step(s, events[0]), events[1..]);
      } else {
        RunCountsFailures(s, events[1..]);
      }
    }
  }

  // ── The wait before the next attempt ──

  /** The longest wait after so many failures. */
  function RetryCeiling(failures: nat): nat {
    Min(30_000, 1_000 * R.PowerOfTwo(Min(Max(1, failures) - 1, 10)))
  }

  /** `Math.round(ceiling / 2 + random * (ceiling / 2))` for a random number of `random` thousandths. */
  function ListenRetryDelayMs(failures: nat, random: nat): nat
    requires random <= 1_000
  {
    (RetryCeiling(failures) * (1_000 + random) + 1_000) / 2_000
  }

  lemma HalfRounded(c: nat, random: nat)
    requires random <= 1_000
    ensures c <= 2 * ((c * (1_000 + random) + 1_000) / 2_000) <= 2 * c + 1
  {
    assert c * (1_000 + random) == 1_000 * c + c * random;
    assert 0 <= c * random <= c * 1_000;
    Rounded(c * (1_000 + random), c);
  }

  lemma Rounded(product: nat, c: nat)
    requires 1_000 * c <= product <= 2_000 * c
    ensures c <= 2 * ((product + 1_000) / 2_000) <= 2 * c + 1
  {
  }

  /**
   * In every run the next attempt is put off by at least half and at most all of a ceiling that starts at a
   * second, doubles with each failure since the bus last listened, and stays at 30 s from
   * the sixth on.
   */
  lemma RetryWaitsGrow(enabled: bool, events: seq<Event>, random: nat)
    requires random <= 1_000
    ensures var n := InARow(Init(enabled), events, 0);
      var wait := ListenRetryDelayMs(Run(Init(enabled), events).failures, random);
      && RetryCeiling(n) <= 2 * wait <= 2 * RetryCeiling(n) + 1
      && (n <= 1 ==> RetryCeiling(n) == 1_000)
      && (n >= 1 ==> RetryCeiling(n + 1) == Min(30_000, 2 * RetryCeiling(n)))
      && (RetryCeiling(n) == 30_000 <==> n >= 6)
  {
    RunCountsFailures(Init(enabled), events);
    var n := InARow(Init(enabled), events, 0);
    HalfRounded(RetryCeiling(n), random);
    CeilingGrows(n);
  }

  lemma CeilingGrows(n: nat)
    ensures n <= 1 ==> RetryCeiling(n) == 1_000
    ensures n >= 1 ==> RetryCeiling(n + 1) == Min(30_000, 2 * RetryCeiling(n))
    ensures RetryCeiling(n) == 30_000 <==> n >= 6
  {
    assert R.PowerOfTwo(4) == 16 && R.PowerOfTwo(5) == 32;
    if n >= 6 {
      R.PowerOfTwoGrows(5, Min(n - 1, 10));
      R.PowerOfTwoGrows(5, Min(n, 10));
    } else if n >= 1 {
      R.PowerOfTwoGrows(n - 1, 4);
    }
  }
}
