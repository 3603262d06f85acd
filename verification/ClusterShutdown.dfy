/** Shutdown of the in-app cluster primary, at any moment of a run. */
module ClusterShutdown {
  import opened Common
  import opened InAppCluster
  import opened ClusterModel
  import opened ClusterProofs
  import opened ClusterTheorems

  // ── Once it starts, the cluster only shrinks ──

  /** No worker was forked or promoted from `s` to `t`; processes and messages told only move one way. */
  ghost predicate OnlyShrinks(s: State, t: State) {
    && t.Stopping() && t.nextWorker == s.nextWorker && |t.slots| == |s.slots|
    && (forall w :: w in t.live ==> w in s.live && t.live[w] == s.live[w])
    && s.told <= t.told && s.sent <= t.sent
    && (forall i :: 0 <= i < |s.slots| ==> t.slots[i].worker == s.slots[i].worker || t.slots[i].worker.None?)
  }

  lemma OnlyShrinksTransitive(s: State, t: State, u: State)
    requires OnlyShrinks(s, t) && OnlyShrinks(t, u)
    ensures OnlyShrinks(s, u)
  {
  }

  lemma FailedRollShrinks(s: State, r: Roll, after: AfterStop, inTime: bool)
    requires s.Stopping() && r.slot < |s.slots|
    ensures OnlyShrinks(s, AfterStopWait(s, r, after, inTime))
  {
  }

  lemma StopWorkerShrinks(s: State, r: Roll, w: nat, after: AfterStop, offline: set<nat>)
    requires s.Stopping() && r.slot < |s.slots|
    ensures OnlyShrinks(s, StopWorker(s, r, w, after, offline))
  {
    var t := TellToStop(s, w, offline);
    FailedRollShrinks(t, r, after, true);
  }

  lemma OnExitShrinks(s: State, w: nat)
    requires Inv(s) && s.Stopping() && w in s.live
    ensures OnlyShrinks(s, OnExit(s, w))
  {
  }

  lemma ExitEventShrinks(s: State, w: nat, offline: set<nat>)
    requires Inv(s) && s.Stopping() && w in s.live
    ensures OnlyShrinks(s, ExitEvent(s, w, offline))
  {
    var t := OnExit(s, w);
    OnExitShrinks(s, w);
    OnExitShape(s, w);
    if t.roll.AwaitReady? && t.roll.incoming == w {
      StopWorkerShrinks(t, t.roll.roll, w, Abandon(Some(ExitedBeforeReady)), offline);
      OnlyShrinksTransitive(s, t, StopWorker(t, t.roll.roll, w, Abandon(Some(ExitedBeforeReady)), offline));
    } else if t.roll.AwaitExit? && t.roll.target == w {
      FailedRollShrinks(t, t.roll.roll, t.roll.after, !t.roll.killed);
      OnlyShrinksTransitive(s, t, AfterStopWait(t, t.roll.roll, t.roll.after, !t.roll.killed));
    }
  }

  lemma ReadyEventShrinks(s: State, w: nat, offline: set<nat>)
    requires Inv(s) && s.Stopping() && w in s.live
    ensures OnlyShrinks(s, ReadyEvent(s, w, offline))
  {
    var t := OnReady(s.(reported := s.reported + {w}), w);
    OnReadyKeeps(s, w, RollWorkers(s.roll));
    assert OnlyShrinks(s, t);
    if t.roll.AwaitReady? && t.roll.incoming == w {
      StopWorkerShrinks(t, t.roll.roll, w, Abandon(None), offline);
      OnlyShrinksTransitive(s, t, StopWorker(t, t.roll.roll, w, Abandon(None), offline));
    }
  }

  lemma StoppingStepShrinks(s: State, e: Event)
    requires Inv(s) && s.Stopping() && Enabled(s, e)
    ensures OnlyShrinks(s, Step(s, e))
  {
    match e
    case WorkerReady(w, offline) => ReadyEventShrinks(s, w, offline);
    case WorkerExit(w, offline) => ExitEventShrinks(s, w, offline);
    case RollTimer(offline) =>
      if s.roll.AwaitReady? {
        StopWorkerShrinks(s, s.roll.roll, s.roll.incoming, Abandon(Some(ReadyTimeout)), offline);
      }
      else if s.roll.killed { FailedRollShrinks(s, s.roll.roll, s.roll.after, false); }
    case _ =>
  }

  /**
   * From the moment shutdown starts, whatever the roll was doing: no worker is
   * forked, none is promoted to serving, `live` only shrinks.
   */
  lemma {:induction false} ShutdownOnlyShrinks(s: State, events: seq<Event>)
    requires Inv(s) && s.Stopping()
    ensures OnlyShrinks(s, Run(s, events))
    decreases |events|
  {
    if events != [] {
      var t := if Enabled(s, events[0]) then Step(s, events[0]) else s;
      if Enabled(s, events[0]) { StoppingStepShrinks(s, events[0]); StepKeepsInv(s, events[0]); }
      ShutdownOnlyShrinks(t, events[1..]);
      OnlyShrinksTransitive(s, t, Run(t, events[1..]));
    }
  }

  // ── One "shutdown" message a worker, one exit ──

  /** In the whole run no worker gets "shutdown" twice, from the roll, the shutdown or both. */
  lemma ToldAtMostOnce(config: Config, workers: nat, events: seq<Event>)
    ensures var s := Reach(config, workers, events);
      NoDuplicates(s.sent) && forall w :: w in s.sent <==> w in s.told
  {
    ReachInv(config, workers, events);
  }

  /** The shutdown deadline fires during `events`, in a state that still drains. */
  predicate DeadlineFires(s: State, events: seq<Event>)
    decreases |events|
  {
    events != [] &&
    if Enabled(s, events[0]) then
      (s.stop.Draining? && events[0] == ShutdownTimer) || DeadlineFires(Step(s, events[0]), events[1..])
    else DeadlineFires(s, events[1..])
  }

  /** The parts of the state that only the shutdown moves. */
  ghost predicate SameShutdown(s: State, t: State) {
    t.stop == s.stop && t.forced == s.forced && t.exits == s.exits && t.now == s.now && t.config == s.config
  }

  lemma ReadyKeepsShutdown(s: State, w: nat, offline: set<nat>)
    requires Inv(s) && w in s.live
    ensures SameShutdown(s, ReadyEvent(s, w, offline))
  {
    var t := OnReady(s.(reported := s.reported + {w}), w);
    assert SameShutdown(s, t) && |t.slots| == |s.slots| && t.roll == s.roll;
    if t.roll.AwaitReady? && t.roll.incoming == w { AfterReadyWaitFrame(t, None, offline); }
  }

  lemma ExitKeepsShutdown(s: State, w: nat, offline: set<nat>)
    requires Inv(s) && w in s.live
    ensures var t := OnExit(s, w);
      && SameShutdown(t, ExitEvent(s, w, offline))
      && t.forced == s.forced && t.exits == s.exits && t.now == s.now && t.config == s.config
  {
    var t := OnExit(s, w);
    OnExitShape(s, w);
    if t.roll.AwaitReady? && t.roll.incoming == w {
      AfterReadyWaitFrame(t, Some(ExitedBeforeReady), offline);
    } else if t.roll.AwaitExit? && t.roll.target == w {
      AfterStopWaitFrame(t, t.roll.roll, t.roll.after, !t.roll.killed);
    }
  }

  lemma RollTimerKeepsShutdown(s: State, offline: set<nat>)
    requires Inv(s) && !s.roll.NoRoll? && s.roll.roll.slot < |s.slots|
    ensures SameShutdown(s, RollTimerFired(s, offline))
  {
    if s.roll.AwaitReady? {
      AfterReadyWaitFrame(s, Some(ReadyTimeout), offline);
    } else if s.roll.killed {
      AfterStopWaitFrame(s, s.roll.roll, s.roll.after, false);
    }
  }

  lemma RollRequestKeepsShutdown(s: State, id: nat)
    ensures SameShutdown(s, RollingRestart(s, id))
  {
  }

  lemma StepForces(s: State, e: Event)
    requires Inv(s) && Enabled(s, e)
    ensures Step(s, e).forced <==> s.forced || (s.stop.Draining? && e == ShutdownTimer)
  {
    match e
    case WorkerReady(w, offline) => ReadyKeepsShutdown(s, w, offline);
    case WorkerExit(w, offline) => ExitKeepsShutdown(s, w, offline);
    case RollTimer(offline) => RollTimerKeepsShutdown(s, offline);
    case RollRequest(id) => RollRequestKeepsShutdown(s, id);
    case ShutdownRequest(offline) => TellAllOnlyTells(s.(slots := WithoutTimers(s.slots)), 0, offline);
    case _ =>
  }

  lemma {:induction false} RunForces(s: State, events: seq<Event>)
    requires Inv(s)
    ensures Run(s, events).forced <==> s.forced || DeadlineFires(s, events)
    decreases |events|
  {
    if events != [] {
      if Enabled(s, events[0]) { StepForces(s, events[0]); StepKeepsInv(s, events[0]); }
      RunForces(if Enabled(s, events[0]) then Step(s, events[0]) else s, events[1..]);
    }
  }

  /**
   * exit() runs at most once. Its code is 0 exactly when the deadline never
   * fired, and then every worker process is gone; while the deadline is
   * pending (and so when it fires) some worker is still alive.
   */
  lemma ExitOnceWithHonestCode(config: Config, workers: nat, events: seq<Event>)
    ensures var start := StartFrom(Init(config, workers), 0);
      var s := Reach(config, workers, events);
      && |s.exits| <= 1
      && (s.exits != [] ==> (s.exits[0] == 0 <==> !DeadlineFires(start, events)))
      && (s.exits == [0] ==> s.live == map[])
      && (s.exits != [] && s.exits[0] != 0 ==> s.exits[0] == 1)
      && (s.stop.Draining? ==> s.live != map[])
  {
    ReachInv(config, workers, events);
    StartInv(config, workers);
    RunForces(StartFrom(Init(config, workers), 0), events);
  }

  lemma TellAllReachesAll(s: State, w: nat, offline: set<nat>)
    ensures var t := TellAllFrom(s, w, offline);
      s.told <= t.told && forall v :: v in s.live && w <= v < s.nextWorker ==> v in t.told || v in offline
    decreases s.nextWorker - w
  {
    if w < s.nextWorker {
      var u := if w in s.live then TellToStop(s, w, offline) else s;
      TellAllReachesAll(u, w + 1, offline);
    }
  }

  /** The start of a shutdown reaches every live worker whose channel is open, a half-started replacement included. */
  lemma ShutdownReachesEveryWorker(s: State, offline: set<nat>)
    requires Inv(s) && !s.Stopping()
    ensures var t := Shutdown(s, offline);
      && t.Stopping() && t.live == s.live && t.roll == s.roll
      && forall w :: w in s.live ==> w in t.told || w in offline
  {
    var u := s.(slots := WithoutTimers(s.slots));
    TellAllReachesAll(u, 0, offline);
    TellAllOnlyTells(u, 0, offline);
  }

  /** Whoever is still alive once the deadline has fired was killed. */
  lemma DeadlineKillsTheRest(config: Config, workers: nat, events: seq<Event>)
    ensures var s := Reach(config, workers, events); s.forced ==> s.live.Keys <= s.killed
  {
    ReachInv(config, workers, events);
  }

  // ── With timers on time, the primary exits ──

  /** The clock does not pass the due time of the shutdown's armed timer. */
  predicate StopTimerOnTime(s: State, e: Event) {
    e.Tick? && (s.stop.Draining? || s.stop.Killing? || s.stop.Settling?) ==> s.now + e.ms <= s.stop.due
  }

  predicate StopTimersOnTime(s: State, events: seq<Event>)
    decreases |events|
  {
    events == [] ||
    if Enabled(s, events[0]) then StopTimerOnTime(s, events[0]) && StopTimersOnTime(Step(s, events[0]), events[1..])
    else StopTimersOnTime(s, events[1..])
  }

  /** When the shutdown started at `t0`, its armed timer is due in time and not overdue. */
  ghost predicate StopOnSchedule(s: State, t0: nat) {
    match s.stop
    case Running => false
    case Draining(due) => s.now <= due <= t0 + s.config.deadlineMs
    case Killing(due) => s.now <= due <= t0 + s.config.deadlineMs + KILL_SETTLE_MS
    case Settling(due) => s.now <= due <= t0 + s.config.deadlineMs + 2 * KILL_SETTLE_MS
    case Finished => s.exits != []
  }

  lemma StepKeepsSchedule(s: State, e: Event, t0: nat)
    requires Inv(s) && Enabled(s, e) && StopTimerOnTime(s, e) && StopOnSchedule(s, t0)
    ensures StopOnSchedule(Step(s, e), t0)
  {
    match e
    case WorkerReady(w, offline) => ReadyKeepsShutdown(s, w, offline);
    case WorkerExit(w, offline) =>
      OnExitSchedule(s, w, t0);
      ExitKeepsShutdown(s, w, offline);
    case RollTimer(offline) => RollTimerKeepsShutdown(s, offline);
    case RollRequest(id) => RollRequestKeepsShutdown(s, id);
    case _ =>
  }

  lemma OnExitSchedule(s: State, w: nat, t0: nat)
    requires Inv(s) && w in s.live && StopOnSchedule(s, t0)
    ensures var t := OnExit(s, w); StopOnSchedule(t, t0) && t.roll == s.roll && |t.slots| == |s.slots|
  {
  }

  /** With timers firing on time, the primary exits within the deadline plus twice the settle time. */
  lemma {:induction false} ShutdownEndsInTime(s: State, offline: set<nat>, events: seq<Event>)
    requires Inv(s) && !s.Stopping() && StopTimersOnTime(Shutdown(s, offline), events)
    ensures var t := Run(Shutdown(s, offline), events);
      t.exits != [] || t.now <= s.now + s.config.deadlineMs + 2 * KILL_SETTLE_MS
  {
    ShutdownKeeps(s, offline);
    TellAllOnlyTells(s.(slots := WithoutTimers(s.slots)), 0, offline);
    RunKeepsSchedule(Shutdown(s, offline), events, s.now);
  }

  lemma {:induction false} RunKeepsSchedule(s: State, events: seq<Event>, t0: nat)
    requires Inv(s) && StopOnSchedule(s, t0) && StopTimersOnTime(s, events)
    ensures StopOnSchedule(Run(s, events), t0) && Run(s, events).config == s.config
    decreases |events|
  {
    if events != [] {
      if Enabled(s, events[0]) {
        StepKeepsSchedule(s, events[0], t0);
        StepKeepsInv(s, events[0]);
        StepShape(s, events[0]);
      }
      RunKeepsSchedule(if Enabled(s, events[0]) then Step(s, events[0]) else s, events[1..], t0);
    }
  }

  // ── And nothing happens too early ──

  /** When the shutdown started at `t0`, nobody is killed before the deadline. */
  ghost predicate NotEarly(s: State, t0: nat) {
    && (s.stop.Draining? ==> s.stop.due == t0 + s.config.deadlineMs)
    && (s.forced ==> s.now >= t0 + s.config.deadlineMs)
    && s.Stopping()
  }

  lemma OnExitNotEarly(s: State, w: nat, t0: nat)
    requires Inv(s) && w in s.live && NotEarly(s, t0)
    ensures var t := OnExit(s, w); NotEarly(t, t0) && t.roll == s.roll && |t.slots| == |s.slots|
  {
  }

  lemma StepKeepsNotEarly(s: State, e: Event, t0: nat)
    requires Inv(s) && Enabled(s, e) && NotEarly(s, t0)
    ensures NotEarly(Step(s, e), t0)
  {
    match e
    case WorkerReady(w, offline) => ReadyKeepsShutdown(s, w, offline);
    case WorkerExit(w, offline) =>
      OnExitNotEarly(s, w, t0);
      ExitKeepsShutdown(s, w, offline);
    case RollTimer(offline) => RollTimerKeepsShutdown(s, offline);
    case RollRequest(id) => RollRequestKeepsShutdown(s, id);
    case _ =>
  }

  lemma {:induction false} RunKeepsNotEarly(s: State, events: seq<Event>, t0: nat)
    requires Inv(s) && NotEarly(s, t0)
    ensures NotEarly(Run(s, events), t0) && Run(s, events).config == s.config
    decreases |events|
  {
    if |events| > 0 {
      if Enabled(s, events[0]) {
        StepKeepsNotEarly(s, events[0], t0);
        StepKeepsInv(s, events[0]);
        StepShape(s, events[0]);
      }
      RunKeepsNotEarly(if Enabled(s, events[0]) then Step(s, events[0]) else s, events[1..], t0);
    }
  }

  /** A shutdown kills nobody, and does not end with an error, before its deadline has passed. */
  lemma NobodyIsKilledEarly(s: State, offline: set<nat>, events: seq<Event>)
    requires Inv(s) && !s.Stopping()
    ensures var t := Run(Shutdown(s, offline), events); t.forced ==> t.now >= s.now + s.config.deadlineMs
  {
    ShutdownKeeps(s, offline);
    TellAllOnlyTells(s.(slots := WithoutTimers(s.slots)), 0, offline);
    RunKeepsNotEarly(Shutdown(s, offline), events, s.now);
  }

  lemma OnExitSettles(s: State, w: nat)
    requires Inv(s) && w in s.live
    ensures var t := OnExit(s, w);
      && t.roll == s.roll && |t.slots| == |s.slots|
      && (t.stop.Settling? ==> s.stop == t.stop || t.stop.due == s.now + 1_000)
  {
  }

  /** The workers are gone, or given up, in this step: the primary settles for one more second. */
  lemma SettleStep(s: State, e: Event)
    requires Inv(s) && Enabled(s, e)
    ensures Step(s, e).stop.Settling? ==> s.stop == Step(s, e).stop || Step(s, e).stop.due == s.now + 1_000
    ensures s.stop.Settling? && !e.RollSettled? ==> Step(s, e).stop == s.stop
    ensures if e.RollSettled? then Step(s, e).stop.Finished? else Step(s, e).exits == s.exits
  {
    match e
    case WorkerReady(w, offline) => ReadyKeepsShutdown(s, w, offline);
    case WorkerExit(w, offline) =>
      OnExitSettles(s, w);
      ExitKeepsShutdown(s, w, offline);
    case RollTimer(offline) => RollTimerKeepsShutdown(s, offline);
    case RollRequest(id) => RollRequestKeepsShutdown(s, id);
    case ShutdownRequest(offline) => TellAllOnlyTells(s.(slots := WithoutTimers(s.slots)), 0, offline);
    case _ =>
  }

  /** The primary exits only once its roll has given its last answer, or a second after its workers were gone. */
  predicate ExitsInTurn(s: State, events: seq<Event>, settledAt: Option<nat>)
    decreases |events|
  {
    |events| == 0 ||
    if !Enabled(s, events[0]) then ExitsInTurn(s, events[1..], settledAt)
    else
      var t := Step(s, events[0]);
      && (t.exits != s.exits ==> s.roll.NoRoll? || (settledAt.Some? && s.now >= settledAt.value + 1_000))
      && ExitsInTurn(t, events[1..], if t.stop.Settling? && !s.stop.Settling? then Some(s.now) else settledAt)
  }

  lemma {:induction false} RunExitsInTurn(s: State, events: seq<Event>, settledAt: Option<nat>)
    requires Inv(s) && (s.stop.Settling? ==> settledAt.Some? && s.stop.due == settledAt.value + 1_000)
    ensures ExitsInTurn(s, events, settledAt)
    decreases |events|
  {
    if |events| > 0 {
      if !Enabled(s, events[0]) {
        RunExitsInTurn(s, events[1..], settledAt);
      } else {
        var t := Step(s, events[0]);
        SettleStep(s, events[0]);
        StepKeepsInv(s, events[0]);
        hide Step, Inv;
        RunExitsInTurn(t, events[1..], if t.stop.Settling? && !s.stop.Settling? then Some(s.now) else settledAt);
      }
    }
  }

  /**
   * A roll that a shutdown cuts short gives its last answer before the primary exits, unless that takes
   * more than a second from the moment the workers were gone or given up.
   */
  lemma LastAnswerGoesFirst(config: Config, workers: nat, events: seq<Event>)
    ensures ExitsInTurn(StartFrom(Init(config, workers), 0), events, None)
  {
    StartInv(config, workers);
    RunExitsInTurn(StartFrom(Init(config, workers), 0), events, None);
  }
}
