/**
 * The in-app cluster primary as a state machine (src/config/inapp-cluster-primary.ts).
 *
 * A step is one event-loop turn: the code between two awaits, with every
 * continuation that becomes runnable in that turn. Worker processes are
 * numbered in fork order. The clock, late timers, and which IPC channels are
 * already closed (`offline`) come from the environment.
 */
module ClusterModel {
  import opened Common
  import opened InAppCluster

  datatype Slot = Slot(
    worker: Option<nat>,        // the serving worker
    startedAt: nat,
    ready: bool,
    restartDelayMs: Option<nat>,
    restartTimer: Option<nat>)  // when the armed restart timer is due

  datatype RejectReason = InProgress | ShuttingDown | NotReady
  datatype FailReason = ExitedBeforeReady | ReadyTimeout | ReplacementExited | SlotNotReady | CutByShutdown

  datatype Reply =
    | Accepted(id: nat, workers: nat, timeoutMs: nat)
    | Rejected(id: nat, reject: RejectReason)
    | SlotReplaced(id: nat, slot: nat, previous: Option<nat>, incoming: nat,
                   readyMs: int, stopMs: int, forcedStop: bool)
    | Succeeded(id: nat, workers: nat, durationMs: int)
    | Failed(id: nat, reason: FailReason, slot: nat, replaced: nat, durationMs: int)

  /** The roll in progress: request, slot being replaced, slots replaced so far, start time. */
  datatype Roll = Roll(id: nat, slot: nat, startedAt: nat)

  /** What replaceSlot does once the worker it stops is gone. */
  datatype AfterStop =
    | Abandon(reason: Option<FailReason>)  // the replacement was stopped; None when it had been ready
    | Finish(previous: Option<nat>, incoming: nat, readyMs: int, stopStartedAt: nat)

  /** Where the rolling restart is suspended. */
  datatype RollPhase =
    | NoRoll
    | AwaitReady(roll: Roll, incoming: nat, forkedAt: nat, due: nat)
    | AwaitExit(roll: Roll, target: nat, killed: bool, after: AfterStop, due: nat)

  /** Where the shutdown is suspended. */
  datatype StopPhase = Running | Draining(due: nat) | Killing(due: nat) | Settling(due: nat) | Finished

  datatype Config = Config(deadlineMs: nat, readyTimeoutMs: nat)

  datatype State = State(
    config: Config,
    now: nat,
    slots: seq<Slot>,
    live: map<nat, nat>,   // every worker process that has not exited, with its slot
    told: set<nat>,
    nextWorker: nat,
    roll: RollPhase,
    stop: StopPhase,
    forced: bool,
    signalled: bool,
    reported: set<nat>,    // history: workers whose "ready" arrived
    killed: set<nat>,      // history: workers killed at a deadline
    sent: seq<nat>,        // history: "shutdown" messages, in order
    replies: seq<Reply>,   // history: answers to rolling restart requests
    exits: seq<int>)       // history: exit codes of the primary
  {
    predicate Stopping() { stop != Running }

    predicate AllReady() { forall i :: 0 <= i < |slots| ==> slots[i].ready }

    predicate Serving(w: nat) { w in live && live[w] < |slots| && slots[live[w]].worker == Some(w) }
  }

  datatype Event =
    | Tick(ms: nat)
    | WorkerReady(worker: nat, readyOffline: set<nat>)
    | WorkerExit(worker: nat, exitOffline: set<nat>)
    | RestartTimer(slotIndex: nat)
    | RollTimer(timerOffline: set<nat>)
    | RollRequest(requestId: nat)
    | ShutdownRequest(stopOffline: set<nat>)
    | ShutdownTimer
    | RollSettled

  function Init(config: Config, workers: nat): State {
    State(config, 0, seq(workers, _ => Slot(None, 0, false, None, None)), map[], {}, 0, NoRoll, Running, false, false,
      {}, {}, [], [], [])
  }

  // ── Slots and workers ──

  function Fork(s: State, i: nat): State {
    s.(live := s.live[s.nextWorker := i], nextWorker := s.nextWorker + 1)
  }

  function StartInSlot(s: State, i: nat): State
    requires i < |s.slots|
  {
    Fork(s, i).(slots := s.slots[i := s.slots[i].(worker := Some(s.nextWorker), startedAt := s.now, ready := false)])
  }

  /** Start: every slot from `i` on gets its first worker. */
  function StartFrom(s: State, i: nat): State
    decreases |s.slots| - i
  {
    if i >= |s.slots| then s else StartFrom(StartInSlot(s, i), i + 1)
  }

  function OnReady(s: State, w: nat): State
    requires w in s.live && s.live[w] < |s.slots|
  {
    var i := s.live[w];
    if s.slots[i].worker != Some(w) then s
    else
      SignalAllReady(s.(slots := s.slots[i := s.slots[i].(ready := true)]))
  }

  /** All slots ready for the first time. */
  function SignalAllReady(s: State): State {
    if !s.signalled && s.AllReady() then s.(signalled := true) else s
  }

  function OnExit(s: State, w: nat): State
    requires w in s.live && s.live[w] < |s.slots|
  {
    var i := s.live[w];
    var t := s.(live := s.live - {w});
    if s.slots[i].worker != Some(w) then AllStopped(t)
    else
      var gone := t.slots[i].(worker := None, ready := false);
      if s.Stopping() then AllStopped(t.(slots := t.slots[i := gone]))
      else
        var delay := NextWorkerRestartDelayMs(gone.restartDelayMs, s.now - gone.startedAt);
        t.(slots := t.slots[i := gone.(restartDelayMs := Some(delay), restartTimer := Some(s.now + delay))])
  }

  /** The shutdown goes on once its last worker is gone. */
  function AllStopped(s: State): State {
    if (s.stop.Draining? || s.stop.Killing?) && s.live == map[] then s.(stop := Settling(s.now + KILL_SETTLE_MS)) else s
  }

  function TellToStop(s: State, w: nat, offline: set<nat>): State {
    if w in s.told || w in offline then s else s.(told := s.told + {w}, sent := s.sent + [w])
  }

  /** "shutdown" to every live worker numbered `w` and above, in fork order. */
  function TellAllFrom(s: State, w: nat, offline: set<nat>): State
    decreases s.nextWorker - w
  {
    if w >= s.nextWorker then s
    else TellAllFrom(if w in s.live then TellToStop(s, w, offline) else s, w + 1, offline)
  }

  function KillAtDeadline(s: State, w: nat): State {
    if w in s.live then s.(killed := s.killed + {w}) else s
  }

  // ── Rolling restart ──

  function SendReply(s: State, r: Reply): State {
    s.(replies := s.replies + [r])
  }

  function StopTimeoutMs(config: Config): nat { config.deadlineMs + KILL_SETTLE_MS }

  function RollTimeoutMs(s: State): nat {
    RollingRestartTimeoutMs(|s.slots|, s.config.readyTimeoutMs, StopTimeoutMs(s.config))
  }

  function RejectReasonOf(s: State): Option<RejectReason> {
    if s.Stopping() then Some(ShuttingDown)
    else if s.roll != NoRoll then Some(InProgress)
    else if !s.AllReady() then Some(NotReady)
    else None
  }

  function RollingRestart(s: State, id: nat): State {
    var rejected := RejectReasonOf(s);
    if rejected.Some? then SendReply(s, Rejected(id, rejected.value))
    else RollSlot(SendReply(s, Accepted(id, |s.slots|, RollTimeoutMs(s))), Roll(id, 0, s.now))
  }

  function FailRoll(s: State, r: Roll, reason: FailReason): State {
    SendReply(s, Failed(r.id, reason, r.slot, r.slot, s.now - r.startedAt)).(roll := NoRoll)
  }

  /** The head of the roll's loop: the slots before `r.slot` are replaced. */
  function RollSlot(s: State, r: Roll): State {
    if r.slot >= |s.slots| then SendReply(s, Succeeded(r.id, |s.slots|, s.now - r.startedAt)).(roll := NoRoll)
    else if s.Stopping() then FailRoll(s, r, CutByShutdown)
    else if !s.slots[r.slot].ready then FailRoll(s, r, SlotNotReady)
    else Fork(s, r.slot).(roll := AwaitReady(r, s.nextWorker, s.now, s.now + s.config.readyTimeoutMs))
  }

  /** The new worker takes over its slot; a restart timer armed meanwhile is cleared. */
  function Promote(s: State, i: nat, incoming: nat, forkedAt: nat): State
    requires i < |s.slots|
  {
    s.(slots := s.slots[i := Slot(Some(incoming), forkedAt, true, None, None)])
  }

  /** replaceSlot after waitForReady; `failure` is None when the new worker reported ready. */
  function AfterReadyWait(s: State, failure: Option<FailReason>, offline: set<nat>): State
    requires s.roll.AwaitReady? && s.roll.roll.slot < |s.slots|
  {
    if failure.Some? || s.Stopping() then StopWorker(s, s.roll.roll, s.roll.incoming, Abandon(failure), offline)
    else TakeOver(s, offline)
  }

  /** The replacement serves its slot; the worker it replaces, if any, is stopped. */
  function TakeOver(s: State, offline: set<nat>): State
    requires s.roll.AwaitReady? && s.roll.roll.slot < |s.slots|
  {
    Replace(s, s.roll.roll, s.slots[s.roll.roll.slot].worker, s.roll.incoming, s.roll.forkedAt, offline)
  }

  function Replace(s: State, r: Roll, previous: Option<nat>, incoming: nat, forkedAt: nat, offline: set<nat>): State
    requires r.slot < |s.slots|
  {
    StopPrevious(Promote(s, r.slot, incoming, forkedAt), r, previous,
      Finish(previous, incoming, s.now - forkedAt, s.now), offline)
  }

  function StopPrevious(s: State, r: Roll, previous: Option<nat>, after: AfterStop, offline: set<nat>): State
    requires r.slot < |s.slots|
  {
    if previous.None? then AfterStopWait(s, r, after, true) else StopWorker(s, r, previous.value, after, offline)
  }

  function StopWorker(s: State, r: Roll, w: nat, after: AfterStop, offline: set<nat>): State
    requires r.slot < |s.slots|
  {
    var t := TellToStop(s, w, offline);
    if w in t.live then t.(roll := AwaitExit(r, w, false, after, s.now + s.config.deadlineMs))
    else AfterStopWait(t, r, after, true)
  }

  /** replaceSlot and the loop of roll after stopWorker. */
  function AfterStopWait(s: State, r: Roll, after: AfterStop, exitedInTime: bool): State
    requires r.slot < |s.slots|
  {
    match after
    case Abandon(reason) =>
      FailRoll(s, r, if s.Stopping() || reason.None? then CutByShutdown else reason.value)
    case Finish(previous, incoming, readyMs, stopStartedAt) =>
      if s.slots[r.slot].worker != Some(incoming) then FailRoll(s, r, ReplacementExited)
      else
        RollSlot(
          SendReply(s, SlotReplaced(r.id, r.slot, previous, incoming, readyMs, s.now - stopStartedAt, !exitedInTime)),
          r.(slot := r.slot + 1))
  }

  // ── Events ──

  /** What the environment and the armed timers allow in `s`. */
  predicate Enabled(s: State, e: Event) {
    match e
    case Tick(_) => true
    case WorkerReady(w, _) => w in s.live && s.live[w] < |s.slots|
    case WorkerExit(w, _) => w in s.live && s.live[w] < |s.slots|
    case RestartTimer(i) => i < |s.slots| && s.slots[i].restartTimer.Some? && s.slots[i].restartTimer.value <= s.now
    case RollTimer(_) => !s.roll.NoRoll? && s.roll.roll.slot < |s.slots| && s.roll.due <= s.now
    case RollRequest(_) => true
    case ShutdownRequest(_) => true
    case ShutdownTimer => (s.stop.Draining? || s.stop.Killing?) && s.stop.due <= s.now
    case RollSettled => s.stop.Settling? && (s.roll.NoRoll? || s.stop.due <= s.now)
  }

  function ReadyEvent(s: State, w: nat, offline: set<nat>): State
    requires w in s.live && s.live[w] < |s.slots|
  {
    var t := OnReady(s.(reported := s.reported + {w}), w);
    if t.roll.AwaitReady? && t.roll.incoming == w && t.roll.roll.slot < |t.slots|
    then AfterReadyWait(t, None, offline)
    else t
  }

  function ExitEvent(s: State, w: nat, offline: set<nat>): State
    requires w in s.live && s.live[w] < |s.slots|
  {
    var t := OnExit(s, w);
    if t.roll.NoRoll? || t.roll.roll.slot >= |t.slots| then t
    else if t.roll.AwaitReady? && t.roll.incoming == w then AfterReadyWait(t, Some(ExitedBeforeReady), offline)
    else if t.roll.AwaitExit? && t.roll.target == w then AfterStopWait(t, t.roll.roll, t.roll.after, !t.roll.killed)
    else t
  }

  function RestartTimerFired(s: State, i: nat): State
    requires i < |s.slots|
  {
    var t := s.(slots := s.slots[i := s.slots[i].(restartTimer := None)]);
    if s.Stopping() then t else StartInSlot(t, i)
  }

  function RollTimerFired(s: State, offline: set<nat>): State
    requires !s.roll.NoRoll? && s.roll.roll.slot < |s.slots|
  {
    if s.roll.AwaitReady? then AfterReadyWait(s, Some(ReadyTimeout), offline)
    else if s.roll.killed then AfterStopWait(s, s.roll.roll, s.roll.after, false)
    else KillAtDeadline(s, s.roll.target).(roll := s.roll.(killed := true, due := s.now + KILL_SETTLE_MS))
  }

  function WithoutTimers(slots: seq<Slot>): (r: seq<Slot>)
    ensures |r| == |slots| && forall i :: 0 <= i < |r| ==> r[i] == slots[i].(restartTimer := None)
  {
    seq(|slots|, i requires 0 <= i < |slots| => slots[i].(restartTimer := None))
  }

  function Shutdown(s: State, offline: set<nat>): State {
    if s.Stopping() then s
    else
      var t := s.(slots := WithoutTimers(s.slots));
      if t.live == map[] then t.(stop := Settling(s.now + KILL_SETTLE_MS))
      else TellAllFrom(t, 0, offline).(stop := Draining(s.now + s.config.deadlineMs))
  }

  function ShutdownTimerFired(s: State): State {
    if s.stop.Draining? then
      s.(forced := true, killed := s.killed + s.live.Keys, stop := Killing(s.now + KILL_SETTLE_MS))
    else s.(stop := Settling(s.now + KILL_SETTLE_MS))
  }

  function ExitPrimary(s: State): State {
    s.(stop := Finished, exits := s.exits + [if s.forced then 1 else 0])
  }

  function Step(s: State, e: Event): State
    requires Enabled(s, e)
  {
    match e
    case Tick(ms) => s.(now := s.now + ms)
    case WorkerReady(w, offline) => ReadyEvent(s, w, offline)
    case WorkerExit(w, offline) => ExitEvent(s, w, offline)
    case RestartTimer(i) => RestartTimerFired(s, i)
    case RollTimer(offline) => RollTimerFired(s, offline)
    case RollRequest(id) => RollingRestart(s, id)
    case ShutdownRequest(offline) => Shutdown(s, offline)
    case ShutdownTimer => ShutdownTimerFired(s)
    case RollSettled => ExitPrimary(s)
  }

  /** A run of the primary; an event that cannot happen in its state is skipped. */
  function Run(s: State, events: seq<Event>): State
    decreases |events|
  {
    if events == [] then s
    else Run(if Enabled(s, events[0]) then Step(s, events[0]) else s, events[1..])
  }

  /** The primary after start() and `events`. */
  function Reach(config: Config, workers: nat, events: seq<Event>): State {
    Run(StartFrom(Init(config, workers), 0), events)
  }
}
