/** What every run of the cluster bus listener keeps. */
module BusProofs {
  import opened Common
  import opened BusModel

  // ── The invariant ──

  ghost predicate ReleasesSound(s: State) {
    NoDuplicates(s.released) && forall c :: c in s.released ==> c < s.acquired
  }

  /** Who may still hold a client. */
  ghost predicate Held(s: State, c: nat) {
    || s.connection == Some(c)
    || (s.connecting.Some? && s.connecting.value.client == Some(c))
    || c in s.unlistening.Values
  }

  ghost predicate OwnershipExact(s: State) {
    && (forall c :: s.Unreleased(c) ==> Held(s, c))
    && (s.connection.Some? ==> s.Unreleased(s.connection.value))
    && (s.connecting.Some? ==>
          && s.connection.None?
          && (s.connecting.value.client.Some? ==> s.connecting.value.client.value < s.acquired))
  }

  ghost predicate HealthSound(s: State) {
    && (s.healthy <==> s.connection.Some?)
    && (s.probe.Some? ==> s.probe == s.connection)
    && (s.connection.Some? ==> !s.stopped && s.probe == s.connection)
  }

  ghost predicate LifeCycleSound(s: State) {
    && (!s.started ==> s.connection.None? && s.connecting.None? && !s.retryTimer && s.acquired == 0)
    && (s.started && !s.stopped ==> s.connection.Some? || s.connecting.Some? || s.retryTimer)
    && (s.stopped ==> !s.retryTimer)
    && (s.retryTimer ==> s.connection.None? && s.connecting.None?)
    && (s.waitingStops != [] ==> s.connecting.Some? && s.stopped)
    && (s.unlistening != map[] ==> s.stopped && s.started && s.connecting.None? && s.connection.None?)
    && (forall k :: k in s.unlistening ==> s.unlistening[k] < s.acquired)
    && (s.started ==> s.enabled)
  }

  ghost predicate Inv(s: State) {
    ReleasesSound(s) && OwnershipExact(s) && HealthSound(s) && LifeCycleSound(s)
  }

  // ── Every step keeps it ──

  /** With no connection left, the waiting stop() calls resolve, and nothing else changes. */
  lemma {:induction false} ResumeWithoutConnection(s: State)
    requires s.connection.None? && !s.healthy
    ensures ResumeStops(s) == s.(waitingStops := [], resolvedStops := s.resolvedStops + Elements(s.waitingStops))
    decreases |s.waitingStops|
  {
    if s.waitingStops == [] {
      assert s.resolvedStops + Elements(s.waitingStops) == s.resolvedStops;
    } else {
      var t := FinishStop(s.(waitingStops := s.waitingStops[1..]), s.waitingStops[0]);
      ResumeWithoutConnection(t);
      assert s.waitingStops == [s.waitingStops[0]] + s.waitingStops[1..];
      assert Elements(s.waitingStops) == {s.waitingStops[0]} + Elements(s.waitingStops[1..]);
      assert s.resolvedStops + Elements(s.waitingStops) == t.resolvedStops + Elements(t.waitingStops);
    }
  }

  lemma ReleaseKeepsOrder(s: State, c: nat)
    requires ReleasesSound(s) && c < s.acquired
    ensures ReleasesSound(Release(s, c))
  {
    if c !in s.released { AppendKeepsNoDuplicates(s.released, c); }
  }

  lemma FailedAttemptKeeps(s: State, t: State)
    requires Inv(s) && s.connecting.Some? && ReleasesSound(t)
    requires t == s.(released := t.released) && (forall c :: c in s.released ==> c in t.released)
    requires s.connecting.value.client.Some? ==> s.connecting.value.client.value in t.released
    ensures Inv(EndAttempt(Lose(t)))
  {
    ResumeWithoutConnection(Lose(t).(connecting := None));
    var u := EndAttempt(Lose(t));
    forall c | u.Unreleased(c) ensures Held(u, c) { assert s.Unreleased(c) && Held(s, c); }
  }

  lemma ListenKeeps(s: State, listening: bool)
    requires Inv(s) && Enabled(s, ListenAnswered(listening))
    ensures Inv(Step(s, ListenAnswered(listening)))
  {
    var c := s.connecting.value.client.value;
    ReleaseKeepsOrder(s, c);
    if !listening {
      FailedAttemptKeeps(s, Release(s, c));
    } else if s.stopped {
      ResumeWithoutConnection(Release(s, c).(connecting := None));
      var t := Step(s, ListenAnswered(listening));
      forall d | t.Unreleased(d) ensures Held(t, d) { assert s.Unreleased(d) && Held(s, d); }
    } else if c in s.released {
      FailedAttemptKeeps(s, s);
    } else {
      assert s.waitingStops == [];
      var t := Listening(s, c).(connecting := None);
      assert Step(s, ListenAnswered(listening)) == t;
      forall d | t.Unreleased(d) ensures Held(t, d) { assert s.Unreleased(d) && Held(s, d); }
    }
  }

  lemma ClientGoneKeeps(s: State, c: nat)
    requires Inv(s) && c < s.acquired
    ensures Inv(ClientGone(s, c))
  {
    ReleaseKeepsOrder(s, c);
    var t := ClientGone(s, c);
    forall d | t.Unreleased(d) ensures Held(t, d) { assert s.Unreleased(d) && Held(s, d); }
  }

  lemma StopKeeps(s: State)
    requires Inv(s)
    ensures Inv(StopStep(s))
  {
    var t := StopStep(s);
    if s.connecting.None? && s.connection.Some? {
      assert t.unlistening == map[s.stops := s.connection.value] && t.unlistening[s.stops] in t.unlistening.Values;
    }
    forall c | t.Unreleased(c) ensures Held(t, c) { assert s.Unreleased(c) && Held(s, c); }
  }

  lemma UnlistenedKeeps(s: State, k: nat)
    requires Inv(s) && k in s.unlistening && s.unlistening[k] < s.acquired
    ensures Inv(Step(s, Unlistened(k)))
  {
    var t := Step(s, Unlistened(k));
    ReleaseKeepsOrder(s, s.unlistening[k]);
    forall c | t.Unreleased(c) ensures Held(t, c) {
      assert Held(s, c);
      if c in s.unlistening.Values {
        var j :| j in s.unlistening && s.unlistening[j] == c;
        assert j in t.unlistening;
      }
    }
  }

  lemma StepKeepsInv(s: State, e: Event)
    requires Inv(s) && Enabled(s, e)
    ensures Inv(Step(s, e))
  {
    match e
    case Acquired(ok) =>
      if ok {
        var t := Step(s, e);
        forall c | t.Unreleased(c) ensures Held(t, c) { assert c == s.acquired || (s.Unreleased(c) && Held(s, c)); }
      } else {
        FailedAttemptKeeps(s, s);
      }
    case ListenAnswered(listening) => ListenKeeps(s, listening);
    case ClientError(c) => ClientGoneKeeps(s, c);
    case ProbeFailed(c) => ClientGoneKeeps(s, c);
    case StopCalled => StopKeeps(s);
    case Unlistened(k) => UnlistenedKeeps(s, k);
    case _ =>
      var t := Step(s, e);
      forall c | t.Unreleased(c) ensures Held(t, c) { assert s.Unreleased(c) && Held(s, c); }
  }

  lemma {:induction false} RunKeepsInv(s: State, events: seq<Event>)
    requires Inv(s)
    ensures Inv(Run(s, events))
    decreases |events|
  {
    if events != [] {
      if Enabled(s, events[0]) { StepKeepsInv(s, events[0]); }
      RunKeepsInv(if Enabled(s, events[0]) then Step(s, events[0]) else s, events[1..]);
    }
  }

  // ── The promises ──

  /**
   * In every run: a client is released at most once; the ones not released
   * are the current connection, the one being set up and those a stop() is
   * unlistening; the bus is healthy exactly while it holds a connection; and
   * once started and not stopped it is connected, connecting or has a retry
   * armed.
   */
  lemma OwnershipAndProgress(enabled: bool, events: seq<Event>)
    ensures var s := Run(Init(enabled), events);
      && NoDuplicates(s.released) && (forall c :: c in s.released ==> c < s.acquired)
      && (forall c: nat :: c < s.acquired && c !in s.released ==>
            || s.connection == Some(c)
            || (s.connecting.Some? && s.connecting.value.client == Some(c))
            || c in s.unlistening.Values)
      && (s.healthy <==> s.connection.Some?)
      && (s.started && !s.stopped ==> s.connection.Some? || s.connecting.Some? || s.retryTimer)
  {
    RunKeepsInv(Init(enabled), events);
    var s := Run(Init(enabled), events);
    forall c: nat | c < s.acquired && c !in s.released ensures Held(s, c) { assert s.Unreleased(c); }
  }

  /** The end of a connect(): connected, or not and then every stop() that waited is resolved. */
  lemma AttemptEnds(s: State, e: Event)
    requires Inv(s) && Enabled(s, e) && (e == Acquired(false) || e.ListenAnswered?)
    ensures var t := Step(s, e);
      && t == s.(connecting := None, waitingStops := [], resolvedStops := s.resolvedStops + Elements(s.waitingStops),
                 connection := t.connection, healthy := t.healthy, failures := t.failures, retryTimer := t.retryTimer,
                 probe := t.probe, released := t.released, resets := t.resets)
      && (t.connection.Some? ==> e.ListenAnswered? && !s.stopped)
      && t.healthy == t.connection.Some?
      && t.resets == s.resets + if t.healthy then 1 else 0
  {
    if e.Acquired? {
      ResumeWithoutConnection(Lose(s).(connecting := None));
    } else {
      var c := s.connecting.value.client.value;
      if !e.listening {
        ResumeWithoutConnection(Lose(Release(s, c)).(connecting := None));
      } else if s.stopped {
        ResumeWithoutConnection(Release(s, c).(connecting := None));
      } else if c in s.released {
        ResumeWithoutConnection(Lose(s).(connecting := None));
      } else {
        assert s.waitingStops == [];
      }
    }
  }

  /**
   * How often a step runs the reset handlers: once when a healthy connection is
   * lost or won, never when stop() gives one up or nothing changes.
   */
  lemma ResetsFollowHealth(s: State, e: Event)
    requires Inv(s) && Enabled(s, e)
    ensures var t := Step(s, e);
      t.resets == s.resets + if s.healthy != t.healthy && !e.StopCalled? then 1 else 0
  {
    match e
    case Acquired(ok) => if !ok { AttemptEnds(s, e); }
    case ListenAnswered(_) => AttemptEnds(s, e);
    case _ =>
  }

  /**
   * What a step does to the flags: a stopped bus that was started stays stopped; stop()
   * before start() changes no health.
   */
  lemma FlagsMove(s: State, e: Event)
    requires Inv(s) && Enabled(s, e)
    ensures var t := Step(s, e);
      && t.enabled == s.enabled
      && (s.started && s.stopped ==> t.started && t.stopped)
      && (e.StopCalled? ==> t.stopped && t.started == s.started && (!s.started ==> t.healthy == s.healthy))
  {
    match e
    case Acquired(ok) => if !ok { AttemptEnds(s, e); }
    case ListenAnswered(_) => AttemptEnds(s, e);
    case _ =>
  }

  /** Which stop() calls resolve in the step, and that nobody else changes whether the bus is stopped. */
  lemma ResolvedBy(s: State, e: Event, k: nat)
    requires Inv(s) && Enabled(s, e) && k !in s.resolvedStops && k in Step(s, e).resolvedStops
    ensures || e.StopCalled? || e == Unlistened(k)
            || ((e.Acquired? || e.ListenAnswered?) && k in s.waitingStops && s.stopped)
  {
    match e
    case Acquired(ok) => if !ok { AttemptEnds(s, e); }
    case ListenAnswered(_) => AttemptEnds(s, e);
    case _ =>
  }

  ghost predicate AllReleased(s: State) {
    forall c: nat :: c < s.acquired ==> c in s.released
  }

  /** No earlier stop() is still unlistening a client it has not released. */
  ghost predicate NoneUnlistening(s: State) {
    forall j :: j in s.unlistening ==> s.unlistening[j] in s.released
  }

  lemma ResolvingStep(s: State, e: Event, k: nat)
    requires Inv(s) && Enabled(s, e) && k !in s.resolvedStops && k in Step(s, e).resolvedStops
    ensures var t := Step(s, e); t.stopped && (AllReleased(t) <==> NoneUnlistening(t))
  {
    var t := Step(s, e);
    StepKeepsInv(s, e);
    ResolvedBy(s, e, k);
    StopLeavesNoAttempt(s, e, k);
    if NoneUnlistening(t) {
      forall c: nat | c < t.acquired ensures c in t.released {
        assert t.Unreleased(c) ==> Held(t, c);
      }
    }
  }

  lemma StopLeavesNoAttempt(s: State, e: Event, k: nat)
    requires Inv(s) && Enabled(s, e) && k !in s.resolvedStops && k in Step(s, e).resolvedStops
    requires || e.StopCalled? || e == Unlistened(k)
             || ((e.Acquired? || e.ListenAnswered?) && k in s.waitingStops && s.stopped)
    ensures var t := Step(s, e); t.stopped && t.connecting.None? && t.connection.None?
  {
    StepKeepsInv(s, e);
    match e
    case Acquired(ok) => if !ok { AttemptEnds(s, e); }
    case ListenAnswered(_) => AttemptEnds(s, e);
    case _ =>
  }

  /** Once a started bus is stopped with no attempt left, it never acquires or holds a client again. */
  lemma {:induction false} StoppedForGood(s: State, events: seq<Event>)
    requires Inv(s) && s.started && s.stopped && s.connecting.None?
    ensures var t := Run(s, events);
      t.stopped && t.connecting.None? && t.connection.None? && t.acquired == s.acquired && !t.healthy
    decreases |events|
  {
    if events != [] {
      if Enabled(s, events[0]) { StepKeepsInv(s, events[0]); }
      StoppedForGood(if Enabled(s, events[0]) then Step(s, events[0]) else s, events[1..]);
    }
  }

  /** A stop() that had to wait, for connect() or for UNLISTEN: no other stop() will ever unlisten. */
  ghost predicate StopUnderWay(s: State, k: nat) {
    && Inv(s) && s.started && s.stopped && k < s.stops
    && (s.connecting.Some? ==> s.unlistening == map[])
    && forall j :: j in s.unlistening ==> j == k
  }

  lemma StepKeepsStopUnderWay(s: State, e: Event, k: nat)
    requires StopUnderWay(s, k) && Enabled(s, e)
    ensures StopUnderWay(Step(s, e), k)
  {
    StepKeepsInv(s, e);
    FlagsMove(s, e);
    match e
    case Acquired(ok) => if !ok { AttemptEnds(s, e); }
    case ListenAnswered(_) => AttemptEnds(s, e);
    case _ =>
  }

  lemma {:induction false} RunKeepsStopUnderWay(s: State, events: seq<Event>, k: nat)
    requires StopUnderWay(s, k)
    ensures StopUnderWay(Run(s, events), k)
    decreases |events|
  {
    if events != [] {
      if Enabled(s, events[0]) { StepKeepsStopUnderWay(s, events[0], k); }
      RunKeepsStopUnderWay(if Enabled(s, events[0]) then Step(s, events[0]) else s, events[1..], k);
    }
  }

  lemma {:induction false} RunLast(s: State, events: seq<Event>, e: Event)
    ensures var t := Run(s, events); Run(s, events + [e]) == if Enabled(t, e) then Step(t, e) else t
    decreases |events|
  {
    if events == [] {
      assert events + [e] == [e];
    } else {
      assert (events + [e])[1..] == events[1..] + [e];
      RunLast(if Enabled(s, events[0]) then Step(s, events[0]) else s, events[1..], e);
    }
  }

  lemma ResolvedStay(s: State, e: Event)
    requires Inv(s) && Enabled(s, e)
    ensures s.resolvedStops <= Step(s, e).resolvedStops
  {
    match e
    case Acquired(ok) => if !ok { AttemptEnds(s, e); }
    case ListenAnswered(_) => AttemptEnds(s, e);
    case _ =>
  }

  lemma {:induction false} ResolvedStayInRun(s: State, events: seq<Event>)
    requires Inv(s)
    ensures s.resolvedStops <= Run(s, events).resolvedStops
    decreases |events|
  {
    if events != [] {
      if Enabled(s, events[0]) {
        StepKeepsInv(s, events[0]);
        ResolvedStay(s, events[0]);
      }
      ResolvedStayInRun(if Enabled(s, events[0]) then Step(s, events[0]) else s, events[1..]);
    }
  }

  /** The step that ends a stop() which had to wait leaves nobody unlistening. */
  lemma LastUnlistened(s: State, e: Event, k: nat)
    requires StopUnderWay(s, k) && Enabled(s, e) && k !in s.resolvedStops && k in Step(s, e).resolvedStops
    ensures Step(s, e).unlistening == map[]
  {
    ResolvedBy(s, e, k);
    match e
    case Acquired(ok) => if !ok { AttemptEnds(s, e); }
    case ListenAnswered(_) => AttemptEnds(s, e);
    case _ =>
  }

  /** Calling stop() in s and then running the events resolves that call, with the last of them. */
  ghost predicate ResolvesLast(s: State, events: seq<Event>) {
    var before := if events == [] then s else Run(Step(s, StopCalled), events[..|events| - 1]);
    s.stops !in before.resolvedStops && s.stops in Run(Step(s, StopCalled), events).resolvedStops
  }

  /**
   * Whatever happens between the call of a stop() and its end, it ends with
   * every client released exactly when, at the call, no earlier stop() was
   * still unlistening a client.
   */
  lemma ResolvedStopHoldsNothing(s: State, events: seq<Event>)
    requires Inv(s) && ResolvesLast(s, events)
    ensures AllReleased(Run(Step(s, StopCalled), events)) <==> NoneUnlistening(s)
  {
    var called := Step(s, StopCalled);
    if events == [] {
      ResolvingStep(s, StopCalled, s.stops);
    } else {
      var earlier, e := events[..|events| - 1], events[|events| - 1];
      assert earlier + [e] == events;
      RunLast(called, earlier, e);
      var before := Run(called, earlier);
      StopKeeps(s);
      ResolvedStayInRun(called, earlier);
      assert StopUnderWay(called, s.stops);
      RunKeepsStopUnderWay(called, earlier, s.stops);
      ResolvingStep(before, e, s.stops);
      LastUnlistened(before, e, s.stops);
    }
  }

  /**
   * Two overlapping stop() calls: the second resolves while the first still unlistens,
   * and the client is not released yet.
   */
  lemma SecondStopResolvesEarly()
    ensures var s := Run(Init(true), [Start, Acquired(true), ListenAnswered(true), StopCalled, StopCalled]);
      s.resolvedStops == {1} && s.acquired == 1 && s.released == []
  {
    var s1 := Step(Init(true), Start);
    var s2 := Step(s1, Acquired(true));
    var s3 := Step(s2, ListenAnswered(true));
    var s4 := Step(s3, StopCalled);
    var s5 := Step(s4, StopCalled);
    var e5 := [StopCalled];
    var e4 := [StopCalled] + e5;
    var e3 := [ListenAnswered(true)] + e4;
    var e2 := [Acquired(true)] + e3;
    assert [Start, Acquired(true), ListenAnswered(true), StopCalled, StopCalled] == [Start] + e2;
    assert Run(Init(true), [Start] + e2) == Run(s1, e2);
    assert Run(s1, e2) == Run(s2, e3);
    assert Run(s2, e3) == Run(s3, e4);
    assert Run(s3, e4) == Run(s4, e5);
    assert Run(s4, e5) == Run(s5, e5[1..]);
    assert s5.resolvedStops == {1} && s5.acquired == 1 && s5.released == [];
  }
}
