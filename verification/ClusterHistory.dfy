/**
 * What earlier events decide: when each worker was forked, how long an empty slot waits
 * for its next worker, and whether the cluster has been announced as ready
 * (src/config/inapp-cluster-primary.ts).
 */
module ClusterHistory {
  import opened Common
  import opened InAppCluster
  import opened ClusterModel
  import opened ClusterProofs
  import opened ClusterTheorems
  import opened ClusterReplacements

  lemma {:induction false} RunLast(s: State, events: seq<Event>, e: Event)
    ensures var t := Run(s, events); Run(s, events + [e]) == if Enabled(t, e) then Step(t, e) else t
    decreases |events|
  {
    if events == [] {
      assert [] + [e] == [e] && [e][1..] == [];
    } else {
      assert (events + [e])[1..] == events[1..] + [e];
      RunLast(if Enabled(s, events[0]) then Step(s, events[0]) else s, events[1..], e);
    }
  }

  /** The state before the last event of a run, and after it. */
  lemma ReachLast(config: Config, workers: nat, events: seq<Event>)
    requires |events| > 0
    ensures var before := Reach(config, workers, events[..|events| - 1]);
      var e := events[|events| - 1];
      Inv(before) && Reach(config, workers, events) == if Enabled(before, e) then Step(before, e) else before
  {
    var front := events[..|events| - 1];
    assert front + [events[|events| - 1]] == events;
    RunLast(StartFrom(Init(config, workers), 0), front, events[|events| - 1]);
    ReachInv(config, workers, front);
  }

  // ── When a worker was forked ──

  /** The time of the event that forked worker `w`; that of start() for the first ones. */
  function ForkedAt(config: Config, workers: nat, events: seq<Event>, w: nat): nat {
    if |events| == 0 then 0
    else
      var before := Reach(config, workers, events[..|events| - 1]);
      if w < before.nextWorker then ForkedAt(config, workers, events[..|events| - 1], w) else before.now
  }

  /** A slot is as it was, but for its restart timer, its backoff and its worker's "ready", or has a new worker. */
  ghost predicate WorkerStays(s: State, t: State, i: nat)
    requires i < |s.slots| == |t.slots|
  {
    t.slots[i].worker == s.slots[i].worker && t.slots[i].startedAt == s.slots[i].startedAt
  }

  predicate NewWorker(s: State, t: State, i: nat)
    requires i < |s.slots| == |t.slots|
  {
    t.slots[i].worker == Some(s.nextWorker) && t.slots[i].startedAt == s.now && s.nextWorker < t.nextWorker
  }

  predicate Promoted(s: State, e: Event, i: nat) {
    e.WorkerReady? && s.roll.AwaitReady? && e.worker == s.roll.incoming && s.roll.roll.slot == i && !s.Stopping()
  }

  /** The worker that serves a slot exits, and is to be replaced after a wait. */
  predicate Crashes(s: State, e: Event, i: nat) {
    e.WorkerExit? && i < |s.slots| && s.slots[i].worker == Some(e.worker) && !s.Stopping()
  }

  /** What an event does to a slot. */
  ghost predicate SlotMoves(s: State, e: Event, t: State, i: nat)
    requires i < |s.slots| == |t.slots|
  {
    if Promoted(s, e, i) then t.slots[i] == Slot(Some(s.roll.incoming), s.roll.forkedAt, true, None, None)
    else if Crashes(s, e, i) then
      var delay := NextWorkerRestartDelayMs(s.slots[i].restartDelayMs, s.now - s.slots[i].startedAt);
      t.slots[i] == Slot(None, s.slots[i].startedAt, false, Some(delay), Some(s.now + delay))
    else
      && t.slots[i].restartDelayMs == s.slots[i].restartDelayMs
      && (t.slots[i].worker.None? || WorkerStays(s, t, i) || NewWorker(s, t, i))
      && (t.slots[i].ready ==> s.slots[i].ready || (e.WorkerReady? && s.slots[i].worker == Some(e.worker)))
  }

  lemma ReadyMoves(s: State, w: nat, offline: set<nat>, i: nat)
    requires Inv(s) && Enabled(s, WorkerReady(w, offline)) && i < |s.slots|
    ensures |Step(s, WorkerReady(w, offline)).slots| == |s.slots|
    ensures SlotMoves(s, WorkerReady(w, offline), Step(s, WorkerReady(w, offline)), i)
  {
    var u := OnReady(s.(reported := s.reported + {w}), w);
    if s.roll.AwaitReady? && s.roll.incoming == w {
      if s.Stopping() { ReadyReplacementOfStopping(s, offline); } else { ReadyReplacementTakesOver(s, offline); }
    } else {
      assert Step(s, WorkerReady(w, offline)) == u;
    }
  }

  /** Between the two states only the slots may differ of what a worker's history shows. */
  ghost predicate Leaves(u: State, t: State) {
    t.slots == u.slots && t.signalled == u.signalled && t.reported == u.reported && t.killed == u.killed
  }

  lemma DeadReplacementLeaves(s: State, offline: set<nat>)
    requires Inv(s) && s.roll.AwaitReady?
    ensures Leaves(OnExit(s, s.roll.incoming), Step(s, WorkerExit(s.roll.incoming, offline)))
  {
    var w := s.roll.incoming;
    var u := OnExit(s, w);
    IdleExit(s, w);
    AfterReadyWaitFrame(u, Some(ExitedBeforeReady), offline);
    assert Step(s, WorkerExit(w, offline)) == AfterReadyWait(u, Some(ExitedBeforeReady), offline);
  }

  lemma StoppedLeaves(s: State, offline: set<nat>)
    requires Inv(s) && s.roll.AwaitExit?
    ensures Leaves(OnExit(s, s.roll.target), Step(s, WorkerExit(s.roll.target, offline)))
  {
    var w := s.roll.target;
    var u := OnExit(s, w);
    IdleExit(s, w);
    AfterStopWaitFrame(u, u.roll.roll, u.roll.after, !u.roll.killed);
    assert Step(s, WorkerExit(w, offline)) == AfterStopWait(u, u.roll.roll, u.roll.after, !u.roll.killed);
  }

  /** Whatever the roll makes of an exit, the rest is left as the exit left it, and nothing is announced. */
  lemma ExitLeaves(s: State, w: nat, offline: set<nat>)
    requires Inv(s) && Enabled(s, WorkerExit(w, offline))
    ensures Leaves(OnExit(s, w), Step(s, WorkerExit(w, offline)))
  {
    if s.roll.AwaitReady? && s.roll.incoming == w {
      DeadReplacementLeaves(s, offline);
    } else if s.roll.AwaitExit? && s.roll.target == w {
      StoppedLeaves(s, offline);
    } else {
      OnExitShape(s, w);
      assert Step(s, WorkerExit(w, offline)) == OnExit(s, w);
    }
  }

  /** The exit itself announces nothing and records nothing. */
  lemma OnExitRecords(s: State, w: nat)
    requires Inv(s) && w in s.live
    ensures var u := OnExit(s, w); u.signalled == s.signalled && u.reported == s.reported && u.killed == s.killed
  {
  }

  lemma OnExitMoves(s: State, w: nat, offline: set<nat>, i: nat)
    requires Inv(s) && w in s.live && i < |s.slots|
    ensures |OnExit(s, w).slots| == |s.slots| && OnExit(s, w).nextWorker == s.nextWorker
    ensures SlotMoves(s, WorkerExit(w, offline), OnExit(s, w), i)
  {
  }

  lemma ExitMoves(s: State, w: nat, offline: set<nat>, i: nat)
    requires Inv(s) && Enabled(s, WorkerExit(w, offline)) && i < |s.slots|
    ensures |Step(s, WorkerExit(w, offline)).slots| == |s.slots|
    ensures SlotMoves(s, WorkerExit(w, offline), Step(s, WorkerExit(w, offline)), i)
  {
    ExitLeaves(s, w, offline);
    OnExitMoves(s, w, offline, i);
    hide Step, OnExit;
  }

  lemma RollTimerMoves(s: State, offline: set<nat>)
    requires Inv(s) && Enabled(s, RollTimer(offline))
    ensures Step(s, RollTimer(offline)).slots == s.slots
  {
    if s.roll.AwaitReady? { LateReplacementIsStopped(s, offline); }
    else if s.roll.killed { AfterStopWaitFrame(s, s.roll.roll, s.roll.after, false); }
    else { DeadlineKills(s, offline); }
  }

  lemma EventMoves(s: State, e: Event, i: nat)
    requires Inv(s) && Enabled(s, e) && i < |s.slots|
    ensures |Step(s, e).slots| == |s.slots| && SlotMoves(s, e, Step(s, e), i)
  {
    match e
    case WorkerReady(w, offline) => ReadyMoves(s, w, offline, i);
    case WorkerExit(w, offline) => ExitMoves(s, w, offline, i);
    case RollTimer(offline) => RollTimerMoves(s, offline);
    case ShutdownRequest(offline) => TellAllOnlyTells(s.(slots := WithoutTimers(s.slots)), 0, offline);
    case _ =>
  }

  /** The replacement that is awaited is the one awaited before, or was just forked. */
  ghost predicate AwaitsMove(s: State, t: State) {
    t.roll.AwaitReady? ==>
      || (s.roll.AwaitReady? && t.roll.incoming == s.roll.incoming && t.roll.forkedAt == s.roll.forkedAt)
      || (t.roll.incoming == s.nextWorker && t.roll.forkedAt == s.now && s.nextWorker < t.nextWorker)
  }

  lemma GoesOnAwaits(s: State, t: State, r: Roll, said: seq<Reply>)
    requires GoesOn(s, t, r, said) && Inv(t)
    ensures AwaitsMove(s, t)
  {
  }

  lemma RequestAwaits(s: State, id: nat)
    requires Inv(s) && Inv(RollingRestart(s, id))
    ensures AwaitsMove(s, RollingRestart(s, id))
  {
    if RejectReasonOf(s).None? {
      AcceptedRollBegins(s, id);
      var timeoutMs := |s.slots| * (s.config.readyTimeoutMs + (s.config.deadlineMs + 1_000));
      GoesOnAwaits(s, RollingRestart(s, id), Roll(id, 0, s.now), s.replies + [Accepted(id, |s.slots|, timeoutMs)]);
    }
  }

  lemma ReadyAwaits(s: State, offline: set<nat>)
    requires Inv(s) && s.roll.AwaitReady?
    ensures AwaitsMove(s, Step(s, WorkerReady(s.roll.incoming, offline)))
  {
    var e, r := WorkerReady(s.roll.incoming, offline), s.roll.roll;
    StepKeepsInv(s, e);
    if s.Stopping() {
      ReadyReplacementOfStopping(s, offline);
    } else {
      ReadyReplacementTakesOver(s, offline);
      if s.slots[r.slot].worker.None? {
        var said := s.replies + [SlotReplaced(r.id, r.slot, None, s.roll.incoming, s.now - s.roll.forkedAt, 0, false)];
        GoesOnAwaits(s, Step(s, e), r.(slot := r.slot + 1), said);
      }
    }
  }

  lemma StopAwaits(s: State, e: Event)
    requires Inv(s) && Enabled(s, e) && EndsStop(s, e)
    ensures AwaitsMove(s, Step(s, e))
  {
    StepKeepsInv(s, e);
    StopConcludes(s, e);
    hide Step, GoesOn;
    var r := s.roll.roll;
    if s.roll.after.Finish? && s.slots[r.slot].worker == Some(s.roll.after.incoming) {
      GoesOnAwaits(s, Step(s, e), r.(slot := r.slot + 1), s.replies + [ReplacedReply(s)]);
    }
  }

  lemma EventAwaits(s: State, e: Event)
    requires Inv(s) && Enabled(s, e)
    ensures AwaitsMove(s, Step(s, e))
  {
    StepKeepsInv(s, e);
    if EndsStop(s, e) {
      StopAwaits(s, e);
    } else if e.RollRequest? {
      RequestAwaits(s, e.requestId);
    } else if e.RollTimer? {
      if s.roll.AwaitReady? { LateReplacementIsStopped(s, e.timerOffline); } else { DeadlineKills(s, e.timerOffline); }
    } else if e.WorkerReady? && s.roll.AwaitReady? && e.worker == s.roll.incoming {
      ReadyAwaits(s, e.readyOffline);
    } else if e.WorkerExit? && s.roll.AwaitReady? && e.worker == s.roll.incoming {
      DeadReplacementFails(s, e.exitOffline);
    } else if e.WorkerReady? && s.roll.AwaitExit? && e.worker == s.roll.target {
      ReadyTargetStays(s, e.worker, e.readyOffline);
    } else {
      OthersLeaveRollAlone(s, e);
    }
  }

  lemma ReadyTargetStays(s: State, w: nat, offline: set<nat>)
    requires Inv(s) && s.roll.AwaitExit? && w == s.roll.target
    ensures Step(s, WorkerReady(w, offline)).roll == s.roll
  {
    ReadyKeepsRoll(s, w);
  }

  /** Slots and roll know when their workers were forked. */
  ghost predicate StartsKnown(s: State, born: nat -> nat) {
    && (forall i :: 0 <= i < |s.slots| && s.slots[i].worker.Some? ==>
          s.slots[i].startedAt == born(s.slots[i].worker.value))
    && (s.roll.AwaitReady? ==> s.roll.forkedAt == born(s.roll.incoming))
  }

  lemma StartsMove(s: State, e: Event, born: nat -> nat, now: nat -> nat)
    requires Inv(s) && Enabled(s, e) && StartsKnown(s, born)
    requires (forall w: nat :: w < s.nextWorker ==> now(w) == born(w)) && now(s.nextWorker) == s.now
    ensures StartsKnown(Step(s, e), now)
  {
    EventAwaits(s, e);
    StepShape(s, e);
    var t := Step(s, e);
    hide Step;
    forall i | 0 <= i < |t.slots| && t.slots[i].worker.Some?
      ensures t.slots[i].startedAt == now(t.slots[i].worker.value)
    {
      SlotMovesIn(s, e, t, i);
    }
  }

  lemma SlotMovesIn(s: State, e: Event, t: State, i: nat)
    requires Inv(s) && Enabled(s, e) && t == Step(s, e) && i < |s.slots|
    ensures |t.slots| == |s.slots| && SlotMoves(s, e, t, i)
  {
    EventMoves(s, e, i);
  }

  lemma {:induction false} StartForksAtOnce(s: State, i: nat)
    requires i <= |s.slots| && forall j :: 0 <= j < |s.slots| ==> s.slots[j].startedAt == s.now
    ensures var t := StartFrom(s, i);
      && t.now == s.now && t.signalled == s.signalled && |t.slots| == |s.slots| && s.nextWorker <= t.nextWorker
      && (forall j :: 0 <= j < |s.slots| ==>
            t.slots[j].startedAt == s.now && t.slots[j].restartDelayMs == s.slots[j].restartDelayMs
            && (s.slots[j].ready || t.slots[j].ready ==> s.slots[j].ready))
    decreases |s.slots| - i
  {
    if i < |s.slots| { StartForksAtOnce(StartInSlot(s, i), i + 1); }
  }

  /** In every run each slot's worker, and the replacement the roll waits for, are known to be as old as they are. */
  lemma {:induction false} WorkersKnowTheirStart(config: Config, workers: nat, events: seq<Event>)
    ensures StartsKnown(Reach(config, workers, events), w => ForkedAt(config, workers, events, w))
  {
    if |events| == 0 {
      StartForksAtOnce(Init(config, workers), 0);
      StartInv(config, workers);
    } else {
      var front, e := events[..|events| - 1], events[|events| - 1];
      var s := Reach(config, workers, front);
      WorkersKnowTheirStart(config, workers, front);
      ReachLast(config, workers, events);
      if Enabled(s, e) {
        StartsMove(s, e, w => ForkedAt(config, workers, front, w), w => ForkedAt(config, workers, events, w));
      }
    }
  }

  // ── How long a slot stays empty ──

  /**
   * How many crashes in a row the slot has behind it, not counting the first; None before the first, and
   * again once a rolling restart has replaced its worker. A crash after a stable uptime counts as a first one.
   */
  function CrashRun(config: Config, workers: nat, events: seq<Event>, i: nat): Option<nat> {
    if |events| == 0 then None
    else
      var front, e := events[..|events| - 1], events[|events| - 1];
      var s, run := Reach(config, workers, front), CrashRun(config, workers, front, i);
      if !Enabled(s, e) then run
      else if Promoted(s, e, i) then None
      else if Crashes(s, e, i) then Some(NextRun(run, s.now - ForkedAt(config, workers, front, e.worker)))
      else run
  }

  function NextRun(run: Option<nat>, uptimeMs: int): nat {
    if run.None? || uptimeMs >= 30_000 then 0 else run.value + 1
  }

  /** The slot's memory of its last wait is that of its crashes in a row. */
  ghost predicate WaitKnown(s: State, i: nat, run: Option<nat>) {
    i < |s.slots| ==> s.slots[i].restartDelayMs == match run { case None => None case Some(n) => Some(BackoffAfter(n)) }
  }

  lemma NextWait(run: Option<nat>, uptimeMs: int)
    ensures NextWorkerRestartDelayMs(match run { case None => None case Some(n) => Some(BackoffAfter(n)) }, uptimeMs)
         == BackoffAfter(NextRun(run, uptimeMs))
  {
  }

  lemma {:induction false} SlotsKnowTheirWait(config: Config, workers: nat, events: seq<Event>, i: nat)
    ensures WaitKnown(Reach(config, workers, events), i, CrashRun(config, workers, events, i))
  {
    if |events| == 0 {
      StartForksAtOnce(Init(config, workers), 0);
    } else {
      var front, e := events[..|events| - 1], events[|events| - 1];
      var s := Reach(config, workers, front);
      SlotsKnowTheirWait(config, workers, front, i);
      WorkersKnowTheirStart(config, workers, front);
      ReachLast(config, workers, events);
      if Enabled(s, e) {
        StepShape(s, e);
        if i < |s.slots| {
          EventMoves(s, e, i);
          if Crashes(s, e, i) {
            NextWait(CrashRun(config, workers, front, i), s.now - ForkedAt(config, workers, front, e.worker));
          }
        }
      }
    }
  }

  /**
   * In every run before a shutdown, a slot whose worker exits is empty until a timer armed for
   * the wait its crashes in a row call for: a second after the first crash or one after an
   * uptime of 30 s, measured from the fork of the worker, and after each other one
   * half as long again, up to 15 s.
   */
  lemma CrashedSlotWaits(config: Config, workers: nat, events: seq<Event>, w: nat, offline: set<nat>)
    requires var s := Reach(config, workers, events);
      Enabled(s, WorkerExit(w, offline)) && s.Serving(w) && !s.Stopping()
    ensures var s := Reach(config, workers, events);
      var i, uptimeMs := s.live[w], s.now - ForkedAt(config, workers, events, w);
      var slot := Step(s, WorkerExit(w, offline)).slots;
      && i < |slot| && slot[i].worker.None? && !slot[i].ready
      && slot[i].restartTimer == Some(s.now + BackoffAfter(NextRun(CrashRun(config, workers, events, i), uptimeMs)))
  {
    var s := Reach(config, workers, events);
    var i := s.live[w];
    ReachInv(config, workers, events);
    SlotsKnowTheirWait(config, workers, events, i);
    WorkersKnowTheirStart(config, workers, events);
    EventMoves(s, WorkerExit(w, offline), i);
    hide Step, Reach, BackoffAfter, NextWorkerRestartDelayMs, CrashRun, ForkedAt;
    NextWait(CrashRun(config, workers, events, i), s.now - ForkedAt(config, workers, events, w));
  }

  // ── When the cluster is announced as ready ──

  /** Once all are ready that has been announced; a roll runs only after it. */
  ghost predicate Announced(s: State) {
    (s.AllReady() ==> s.signalled) && (!s.roll.NoRoll? ==> s.signalled)
  }

  lemma ReadyOfServing(s: State, w: nat, offline: set<nat>)
    requires Inv(s) && s.Serving(w)
    ensures Step(s, WorkerReady(w, offline)) == OnReady(s.(reported := s.reported + {w}), w)
  {
  }

  lemma ReadyOfOther(s: State, w: nat, offline: set<nat>)
    requires Inv(s) && w in s.live && !s.Serving(w)
    ensures Step(s, WorkerReady(w, offline)).signalled == s.signalled
  {
    ReadyKeepsRoll(s, w);
    var u := s.(reported := s.reported + {w});
    if s.roll.AwaitReady? && s.roll.incoming == w { AfterReadyWaitFrame(u, None, offline); }
  }

  /** The workers an event kills: the one that stops too slowly, or at the shutdown's deadline all that live. */
  function KilledBy(s: State, e: Event): set<nat> {
    if e.RollTimer? && s.roll.AwaitExit? && !s.roll.killed then {s.roll.target}
    else if e.ShutdownTimer? && s.stop.Draining? then s.live.Keys
    else {}
  }

  lemma RollTimerLeaves(s: State, offline: set<nat>)
    requires Inv(s) && Enabled(s, RollTimer(offline))
    ensures var t := Step(s, RollTimer(offline));
      t.signalled == s.signalled && t.reported == s.reported && t.killed == s.killed + KilledBy(s, RollTimer(offline))
  {
    if s.roll.AwaitReady? { AfterReadyWaitFrame(s, Some(ReadyTimeout), offline); }
    else if s.roll.killed { AfterStopWaitFrame(s, s.roll.roll, s.roll.after, false); }
  }

  /** Only a worker's "ready" announces, and the roll leaves the announcement alone. */
  lemma SignalStep(s: State, e: Event)
    requires Inv(s) && Enabled(s, e)
    ensures !e.WorkerReady? ==> Step(s, e).signalled == s.signalled
    ensures e.WorkerReady? && s.Serving(e.worker) ==>
              Step(s, e) == OnReady(s.(reported := s.reported + {e.worker}), e.worker)
    ensures e.WorkerReady? && !s.Serving(e.worker) ==> Step(s, e).signalled == s.signalled
  {
    match e
    case WorkerReady(w, offline) =>
      if s.Serving(w) { ReadyOfServing(s, w, offline); } else { ReadyOfOther(s, w, offline); }
    case WorkerExit(w, offline) => ExitLeaves(s, w, offline); OnExitRecords(s, w);
    case RollTimer(offline) => RollTimerLeaves(s, offline);
    case ShutdownRequest(offline) => TellAllOnlyTells(s.(slots := WithoutTimers(s.slots)), 0, offline);
    case _ =>
  }

  /** A "ready" that is not announced leaves some slot not ready. */
  lemma NewlyReady(s: State, e: Event)
    requires Inv(s) && Enabled(s, e) && |s.slots| > 0 && Announced(s) && !s.signalled && Step(s, e).AllReady()
    ensures e.WorkerReady? && s.Serving(e.worker)
  {
    var i :| 0 <= i < |s.slots| && !s.slots[i].ready;
    EventMoves(s, e, i);
  }

  lemma AnnouncedStep(s: State, e: Event)
    requires Inv(s) && Enabled(s, e) && |s.slots| > 0 && Announced(s)
    ensures Announced(Step(s, e)) && (Step(s, e).signalled <==> s.signalled || Step(s, e).AllReady())
  {
    SignalStep(s, e);
    EventAwaits(s, e);
    StepShape(s, e);
    if !s.signalled {
      RollStarts(s, e);
      if Step(s, e).AllReady() { NewlyReady(s, e); }
    }
  }

  /** Before the announcement no roll starts. */
  lemma RollStarts(s: State, e: Event)
    requires Inv(s) && Enabled(s, e) && Announced(s) && !s.signalled
    ensures Step(s, e).roll == s.roll == NoRoll
  {
    if e.RollRequest? { RejectedStays(s, e.requestId); } else if !e.RollTimer? { OthersLeaveRollAlone(s, e); }
  }

  lemma RejectedStays(s: State, id: nat)
    requires RejectReasonOf(s).Some?
    ensures RollingRestart(s, id).roll == s.roll
  {
  }

  /** Some time up to now all workers were ready. */
  ghost predicate WasAllReady(config: Config, workers: nat, events: seq<Event>) {
    exists k: nat :: k <= |events| && Reach(config, workers, events[..k]).AllReady()
  }

  lemma WasReadyGrows(config: Config, workers: nat, events: seq<Event>)
    requires |events| > 0
    ensures WasAllReady(config, workers, events)
      <==> WasAllReady(config, workers, events[..|events| - 1]) || Reach(config, workers, events).AllReady()
  {
    hide Reach;
    var front := events[..|events| - 1];
    assert events[..|events|] == events;
    if k: nat :| k <= |events| && Reach(config, workers, events[..k]).AllReady() {
      if k < |events| { assert front[..k] == events[..k]; }
    }
    if k: nat :| k <= |front| && Reach(config, workers, front[..k]).AllReady() {
      assert front[..k] == events[..k];
    }
  }

  /**
   * The cluster is announced as ready exactly when all its workers have been ready at the
   * same time, and stays so.
   */
  lemma {:induction false} AnnouncedOnceAllReady(config: Config, workers: nat, events: seq<Event>)
    requires workers > 0
    ensures var s := Reach(config, workers, events);
      Announced(s) && |s.slots| == workers && (s.signalled <==> WasAllReady(config, workers, events))
  {
    if |events| == 0 {
      StartForksAtOnce(Init(config, workers), 0);
      StartInv(config, workers);
      assert !Reach(config, workers, events).slots[0].ready;
      forall k: nat | k <= |events| ensures events[..k] == events { }
    } else {
      var front, e := events[..|events| - 1], events[|events| - 1];
      var s := Reach(config, workers, front);
      AnnouncedOnceAllReady(config, workers, front);
      ReachLast(config, workers, events);
      WasReadyGrows(config, workers, events);
      if Enabled(s, e) {
        AnnouncedStep(s, e);
        StepShape(s, e);
      }
    }
  }

  // ── What is remembered of workers ──

  lemma ReadyRecords(s: State, w: nat, offline: set<nat>)
    requires Inv(s) && w in s.live
    ensures var t := Step(s, WorkerReady(w, offline)); t.reported == s.reported + {w} && t.killed == s.killed
  {
    var u := OnReady(s.(reported := s.reported + {w}), w);
    OnReadyKeeps(s, w, RollWorkers(s.roll));
    if s.roll.AwaitReady? && s.roll.incoming == w { AfterReadyWaitFrame(u, None, offline); }
  }

  lemma RequestRecords(s: State, id: nat)
    ensures var t := RollingRestart(s, id); t.reported == s.reported && t.killed == s.killed
  {
  }

  /** A worker counts as reported when its "ready" arrived, and as killed when a deadline passed over it. */
  lemma RecordsAreTrue(s: State, e: Event)
    requires Inv(s) && Enabled(s, e)
    ensures Step(s, e).reported == s.reported + (if e.WorkerReady? then {e.worker} else {})
    ensures Step(s, e).killed == s.killed + KilledBy(s, e)
  {
    match e
    case WorkerReady(w, offline) => ReadyRecords(s, w, offline);
    case WorkerExit(w, offline) => ExitLeaves(s, w, offline); OnExitRecords(s, w);
    case RollTimer(offline) => RollTimerLeaves(s, offline);
    case ShutdownRequest(offline) => TellAllOnlyTells(s.(slots := WithoutTimers(s.slots)), 0, offline);
    case Tick(_) =>
    case RestartTimer(_) =>
    case RollRequest(id) => RequestRecords(s, id);
    case ShutdownTimer =>
    case RollSettled =>
  }
}
