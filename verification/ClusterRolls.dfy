/** The answers to rolling restart requests, and how long a roll takes. */
module ClusterRolls {
  import opened Common
  import opened InAppCluster
  import opened ClusterModel
  import opened ClusterProofs
  import opened ClusterTheorems

  // ── The reply language ──

  /** Between rolls; inside the roll of `id` with `replaced` slots reported; or out of order. */
  datatype Listener = Idle | InRoll(id: nat, replaced: nat) | OutOfOrder

  /** How an operator reading the answers of a primary with `n` slots moves on. */
  function Hear(n: nat, l: Listener, r: Reply): Listener {
    match r
    case Rejected(_, _) => l
    case Accepted(id, workers, _) => if l.Idle? && workers == n then InRoll(id, 0) else OutOfOrder
    case SlotReplaced(id, slot, _, _, _, _, _) =>
      if l == InRoll(id, slot) && slot < n then InRoll(id, slot + 1) else OutOfOrder
    case Succeeded(id, workers, _) => if l == InRoll(id, n) && workers == n then Idle else OutOfOrder
    case Failed(id, _, slot, replaced, _) =>
      if l == InRoll(id, slot) && slot == replaced && slot < n then Idle else OutOfOrder
  }

  function HearAll(n: nat, replies: seq<Reply>): Listener {
    if replies == [] then Idle else Hear(n, HearAll(n, replies[..|replies| - 1]), replies[|replies| - 1])
  }

  lemma HearOneMore(n: nat, replies: seq<Reply>, r: Reply)
    ensures HearAll(n, replies + [r]) == Hear(n, HearAll(n, replies), r)
  {
    assert (replies + [r])[..|replies|] == replies;
  }

  /** What the listener has to have heard in a state: exactly the roll in progress. */
  ghost predicate Heard(s: State) {
    HearAll(|s.slots|, s.replies) ==
    match s.roll
    case NoRoll => Idle
    case AwaitReady(r, _, _, _) => InRoll(r.id, r.slot)
    case AwaitExit(r, _, _, _, _) => InRoll(r.id, r.slot)
  }

  lemma FailRollHeard(s: State, r: Roll, reason: FailReason)
    requires r.slot < |s.slots| && HearAll(|s.slots|, s.replies) == InRoll(r.id, r.slot)
    ensures Heard(FailRoll(s, r, reason))
  {
    HearOneMore(|s.slots|, s.replies, Failed(r.id, reason, r.slot, r.slot, s.now - r.startedAt));
  }

  lemma RollSlotHeard(s: State, r: Roll)
    requires r.slot <= |s.slots| && HearAll(|s.slots|, s.replies) == InRoll(r.id, r.slot)
    ensures Heard(RollSlot(s, r))
  {
    if r.slot == |s.slots| {
      HearOneMore(|s.slots|, s.replies, Succeeded(r.id, |s.slots|, s.now - r.startedAt));
    } else if s.Stopping() {
      FailRollHeard(s, r, CutByShutdown);
    } else if !s.slots[r.slot].ready {
      FailRollHeard(s, r, SlotNotReady);
    }
  }

  lemma SlotReplacedHeard(s: State, r: Roll, reply: Reply)
    requires r.slot < |s.slots| && HearAll(|s.slots|, s.replies) == InRoll(r.id, r.slot)
    requires reply.SlotReplaced? && reply.id == r.id && reply.slot == r.slot
    ensures Heard(RollSlot(SendReply(s, reply), r.(slot := r.slot + 1)))
  {
    HearOneMore(|s.slots|, s.replies, reply);
    RollSlotHeard(SendReply(s, reply), r.(slot := r.slot + 1));
  }

  lemma AfterStopWaitHeard(s: State, r: Roll, after: AfterStop, inTime: bool)
    requires r.slot < |s.slots| && HearAll(|s.slots|, s.replies) == InRoll(r.id, r.slot)
    ensures Heard(AfterStopWait(s, r, after, inTime))
  {
    if after.Finish? && s.slots[r.slot].worker == Some(after.incoming) {
      var reply := SlotReplaced(r.id, r.slot, after.previous, after.incoming,
                                after.readyMs, s.now - after.stopStartedAt, !inTime);
      SlotReplacedHeard(s, r, reply);
      assert AfterStopWait(s, r, after, inTime) == RollSlot(SendReply(s, reply), r.(slot := r.slot + 1));
    } else {
      FailRollHeard(s, r, FailReasonAfter(s, after));
    }
  }

  lemma StopWorkerHeard(s: State, r: Roll, w: nat, after: AfterStop, offline: set<nat>)
    requires r.slot < |s.slots| && HearAll(|s.slots|, s.replies) == InRoll(r.id, r.slot)
    ensures Heard(StopWorker(s, r, w, after, offline))
  {
    AfterStopWaitHeard(TellToStop(s, w, offline), r, after, true);
  }

  lemma AfterReadyWaitHeard(s: State, failure: Option<FailReason>, offline: set<nat>)
    requires s.roll.AwaitReady? && s.roll.roll.slot < |s.slots| && Heard(s)
    ensures Heard(AfterReadyWait(s, failure, offline))
  {
    if failure.Some? || s.Stopping() {
      StopWorkerHeard(s, s.roll.roll, s.roll.incoming, Abandon(failure), offline);
    } else {
      TakeOverHeard(s, offline);
    }
  }

  lemma TakeOverHeard(s: State, offline: set<nat>)
    requires s.roll.AwaitReady? && s.roll.roll.slot < |s.slots| && Heard(s)
    ensures Heard(TakeOver(s, offline))
  {
    var p := s.roll;
    var previous := s.slots[p.roll.slot].worker;
    var t := Promote(s, p.roll.slot, p.incoming, p.forkedAt);
    var after := Finish(previous, p.incoming, s.now - p.forkedAt, s.now);
    if previous.None? {
      AfterStopWaitHeard(t, p.roll, after, true);
      assert TakeOver(s, offline) == AfterStopWait(t, p.roll, after, true);
    } else {
      StopWorkerHeard(t, p.roll, previous.value, after, offline);
      assert TakeOver(s, offline) == StopWorker(t, p.roll, previous.value, after, offline);
    }
  }

  lemma RollRequestHeard(s: State, id: nat)
    requires Heard(s)
    ensures Heard(RollingRestart(s, id))
  {
    var rejected := RejectReasonOf(s);
    if rejected.Some? {
      HearOneMore(|s.slots|, s.replies, Rejected(id, rejected.value));
    } else {
      var accepted := Accepted(id, |s.slots|, RollTimeoutMs(s));
      HearOneMore(|s.slots|, s.replies, accepted);
      RollSlotHeard(SendReply(s, accepted), Roll(id, 0, s.now));
    }
  }

  lemma StepHeard(s: State, e: Event)
    requires Inv(s) && Enabled(s, e) && Heard(s)
    ensures Heard(Step(s, e))
  {
    match e
    case WorkerReady(w, offline) =>
      var t := OnReady(s.(reported := s.reported + {w}), w);
      if t.roll.AwaitReady? && t.roll.incoming == w { AfterReadyWaitHeard(t, None, offline); }
    case WorkerExit(w, offline) =>
      var t := OnExit(s, w);
      OnExitKeeps(s, w, RollWorkers(s.roll));
      assert Heard(t);
      if t.roll.AwaitReady? && t.roll.incoming == w {
        AfterReadyWaitHeard(t, Some(ExitedBeforeReady), offline);
      } else if t.roll.AwaitExit? && t.roll.target == w {
        AfterStopWaitHeard(t, t.roll.roll, t.roll.after, !t.roll.killed);
      }
    case RollTimer(offline) =>
      if s.roll.AwaitReady? { AfterReadyWaitHeard(s, Some(ReadyTimeout), offline); }
      else if s.roll.killed { AfterStopWaitHeard(s, s.roll.roll, s.roll.after, false); }
    case RollRequest(id) => RollRequestHeard(s, id);
    case ShutdownRequest(offline) =>
      TellAllOnlyTells(s.(slots := WithoutTimers(s.slots)), 0, offline);
    case _ =>
  }

  lemma {:induction false} RunHeard(s: State, events: seq<Event>)
    requires Inv(s) && Heard(s)
    ensures Heard(Run(s, events))
    decreases |events|
  {
    if events != [] {
      if Enabled(s, events[0]) { StepHeard(s, events[0]); StepKeepsInv(s, events[0]); }
      RunHeard(if Enabled(s, events[0]) then Step(s, events[0]) else s, events[1..]);
    }
  }

  /**
   * In every run the answers are, apart from rejections: `accepted`, then
   * `slot_replaced` for slots 0, 1, ... in order, then `succeeded` after all
   * n of them or `failed` naming the first slot not replaced; then the next
   * roll. So rolls never overlap, and one is open exactly while one runs.
   */
  lemma RepliesAreInOrder(config: Config, workers: nat, events: seq<Event>)
    ensures var s := Reach(config, workers, events);
      && HearAll(workers, s.replies) != OutOfOrder
      && (HearAll(workers, s.replies).Idle? <==> s.roll.NoRoll?)
  {
    var start := StartFrom(Init(config, workers), 0);
    StartInv(config, workers);
    RunHeard(start, events);
    RunKeepsWorkerCount(start, events);
  }

  /**
   * A request is rejected exactly when the primary stops, rolls already or has a slot
   * that is not ready, for the first of these reasons that holds; nothing else changes then.
   */
  lemma RejectedRequestChangesNothing(s: State, id: nat)
    requires Inv(s)
    ensures var t := RollingRestart(s, id);
      if s.Stopping() || !s.roll.NoRoll? || exists i :: 0 <= i < |s.slots| && !s.slots[i].ready
      then t == s.(replies := t.replies) && |t.replies| == |s.replies| + 1 && t.replies[..|s.replies|] == s.replies
           && t.replies[|s.replies|] == Rejected(id, if s.Stopping() then ShuttingDown
                                                     else if !s.roll.NoRoll? then InProgress
                                                     else NotReady)
      else |t.replies| > |s.replies| && t.replies[|s.replies|] == Accepted(id, |s.slots|, RollTimeoutMs(s))
  {
  }

  // ── How long a roll takes ──

  /** The most a roll of `slots` slots takes. */
  function Budget(config: Config, slots: nat): nat {
    RollingRestartTimeoutMs(slots, config.readyTimeoutMs, StopTimeoutMs(config))
  }

  lemma BudgetGrows(config: Config, a: nat, b: nat)
    requires a <= b
    ensures Budget(config, a) <= Budget(config, b)
    ensures Budget(config, a + 1) == Budget(config, a) + config.readyTimeoutMs + config.deadlineMs + KILL_SETTLE_MS
  {
    assert a * (config.readyTimeoutMs + StopTimeoutMs(config)) <= b * (config.readyTimeoutMs + StopTimeoutMs(config));
    assert (a + 1) * (config.readyTimeoutMs + StopTimeoutMs(config))
        == a * (config.readyTimeoutMs + StopTimeoutMs(config)) + (config.readyTimeoutMs + StopTimeoutMs(config));
  }

  /** The clock does not pass the due time of the roll's armed timer. */
  predicate RollTimerOnTime(s: State, e: Event) {
    e.Tick? && !s.roll.NoRoll? ==> s.now + e.ms <= s.roll.due
  }

  predicate RollTimersOnTime(s: State, events: seq<Event>)
    decreases |events|
  {
    events == [] ||
    if Enabled(s, events[0]) then RollTimerOnTime(s, events[0]) && RollTimersOnTime(Step(s, events[0]), events[1..])
    else RollTimersOnTime(s, events[1..])
  }

  ghost predicate DurationsInBudget(s: State) {
    forall r :: r in s.replies && (r.Succeeded? || r.Failed?) ==> 0 <= r.durationMs <= Budget(s.config, |s.slots|)
  }

  /** The roll's armed timer is due within the budget of the slots up to the current one, and is not overdue. */
  ghost predicate OnSchedule(s: State) {
    DurationsInBudget(s) &&
    match s.roll
    case NoRoll => true
    case AwaitReady(r, _, forkedAt, due) =>
      && r.slot < |s.slots|
      && r.startedAt <= s.now <= due <= r.startedAt + Budget(s.config, r.slot) + s.config.readyTimeoutMs
    case AwaitExit(r, _, killed, _, due) =>
      r.slot < |s.slots| && r.startedAt <= s.now <= due <=
        r.startedAt + Budget(s.config, r.slot) + s.config.readyTimeoutMs + s.config.deadlineMs
          + if killed then KILL_SETTLE_MS else 0
  }

  lemma FailRollOnSchedule(s: State, r: Roll, reason: FailReason)
    requires DurationsInBudget(s) && r.slot < |s.slots|
    requires r.startedAt <= s.now <= r.startedAt + Budget(s.config, r.slot + 1)
    ensures OnSchedule(FailRoll(s, r, reason))
  {
    BudgetGrows(s.config, r.slot + 1, |s.slots|);
  }

  lemma RollSlotOnSchedule(s: State, r: Roll)
    requires DurationsInBudget(s) && r.slot <= |s.slots|
    requires r.startedAt <= s.now <= r.startedAt + Budget(s.config, r.slot)
    ensures OnSchedule(RollSlot(s, r))
  {
    BudgetGrows(s.config, r.slot, |s.slots|);
    if r.slot < |s.slots| {
      BudgetGrows(s.config, r.slot, r.slot + 1);
      if s.Stopping() { FailRollOnSchedule(s, r, CutByShutdown); }
      else if !s.slots[r.slot].ready { FailRollOnSchedule(s, r, SlotNotReady); }
    }
  }

  lemma AfterStopWaitOnSchedule(s: State, r: Roll, after: AfterStop, inTime: bool)
    requires DurationsInBudget(s) && r.slot < |s.slots|
    requires r.startedAt <= s.now <= r.startedAt + Budget(s.config, r.slot + 1)
    ensures OnSchedule(AfterStopWait(s, r, after, inTime))
  {
    if after.Finish? && s.slots[r.slot].worker == Some(after.incoming) {
      var reply := SlotReplaced(r.id, r.slot, after.previous, after.incoming,
                                after.readyMs, s.now - after.stopStartedAt, !inTime);
      RollSlotOnSchedule(SendReply(s, reply), r.(slot := r.slot + 1));
      assert AfterStopWait(s, r, after, inTime) == RollSlot(SendReply(s, reply), r.(slot := r.slot + 1));
    } else {
      FailRollOnSchedule(s, r, FailReasonAfter(s, after));
    }
  }

  lemma StopWorkerOnSchedule(s: State, r: Roll, w: nat, after: AfterStop, offline: set<nat>)
    requires DurationsInBudget(s) && r.slot < |s.slots|
    requires r.startedAt <= s.now <= r.startedAt + Budget(s.config, r.slot) + s.config.readyTimeoutMs
    ensures OnSchedule(StopWorker(s, r, w, after, offline))
  {
    var t := TellToStop(s, w, offline);
    if w !in t.live {
      BudgetGrows(s.config, r.slot, r.slot + 1);
      AfterStopWaitOnSchedule(t, r, after, true);
    }
  }

  lemma AfterReadyWaitOnSchedule(s: State, failure: Option<FailReason>, offline: set<nat>)
    requires s.roll.AwaitReady? && OnSchedule(s)
    ensures OnSchedule(AfterReadyWait(s, failure, offline))
  {
    if failure.Some? || s.Stopping() {
      StopWorkerOnSchedule(s, s.roll.roll, s.roll.incoming, Abandon(failure), offline);
    } else {
      TakeOverOnSchedule(s, offline);
    }
  }

  lemma TakeOverOnSchedule(s: State, offline: set<nat>)
    requires s.roll.AwaitReady? && OnSchedule(s)
    ensures OnSchedule(TakeOver(s, offline))
  {
    var p := s.roll;
    var previous := s.slots[p.roll.slot].worker;
    var t := Promote(s, p.roll.slot, p.incoming, p.forkedAt);
    var after := Finish(previous, p.incoming, s.now - p.forkedAt, s.now);
    assert DurationsInBudget(t);
    if previous.None? {
      BudgetGrows(s.config, p.roll.slot, p.roll.slot + 1);
      AfterStopWaitOnSchedule(t, p.roll, after, true);
      assert TakeOver(s, offline) == AfterStopWait(t, p.roll, after, true);
    } else {
      StopWorkerOnSchedule(t, p.roll, previous.value, after, offline);
      assert TakeOver(s, offline) == StopWorker(t, p.roll, previous.value, after, offline);
    }
  }

  lemma ReadyEventOnSchedule(s: State, w: nat, offline: set<nat>)
    requires Inv(s) && w in s.live && OnSchedule(s)
    ensures OnSchedule(ReadyEvent(s, w, offline))
  {
    var t := OnReady(s.(reported := s.reported + {w}), w);
    assert OnSchedule(t);
    if t.roll.AwaitReady? && t.roll.incoming == w { AfterReadyWaitOnSchedule(t, None, offline); }
  }

  lemma ExitEventOnSchedule(s: State, w: nat, offline: set<nat>)
    requires Inv(s) && w in s.live && OnSchedule(s)
    ensures OnSchedule(ExitEvent(s, w, offline))
  {
    var t := OnExit(s, w);
    OnExitKeeps(s, w, RollWorkers(s.roll));
    assert OnSchedule(t);
    if t.roll.AwaitReady? && t.roll.incoming == w {
      AfterReadyWaitOnSchedule(t, Some(ExitedBeforeReady), offline);
    } else if t.roll.AwaitExit? && t.roll.target == w {
      BudgetGrows(t.config, t.roll.roll.slot, t.roll.roll.slot + 1);
      AfterStopWaitOnSchedule(t, t.roll.roll, t.roll.after, !t.roll.killed);
    }
  }

  lemma RollTimerFiredOnSchedule(s: State, offline: set<nat>)
    requires Inv(s) && Enabled(s, RollTimer(offline)) && OnSchedule(s)
    ensures OnSchedule(RollTimerFired(s, offline))
  {
    if s.roll.AwaitReady? {
      AfterReadyWaitOnSchedule(s, Some(ReadyTimeout), offline);
    } else if s.roll.killed {
      BudgetGrows(s.config, s.roll.roll.slot, s.roll.roll.slot + 1);
      AfterStopWaitOnSchedule(s, s.roll.roll, s.roll.after, false);
    }
  }

  lemma RollRequestOnSchedule(s: State, id: nat)
    requires OnSchedule(s)
    ensures OnSchedule(RollingRestart(s, id))
  {
    if RejectReasonOf(s).None? {
      RollSlotOnSchedule(SendReply(s, Accepted(id, |s.slots|, RollTimeoutMs(s))), Roll(id, 0, s.now));
    }
  }

  lemma StepOnSchedule(s: State, e: Event)
    requires Inv(s) && Enabled(s, e) && OnSchedule(s) && RollTimerOnTime(s, e)
    ensures OnSchedule(Step(s, e))
  {
    match e
    case WorkerReady(w, offline) => ReadyEventOnSchedule(s, w, offline);
    case WorkerExit(w, offline) => ExitEventOnSchedule(s, w, offline);
    case RollTimer(offline) => RollTimerFiredOnSchedule(s, offline);
    case RollRequest(id) => RollRequestOnSchedule(s, id);
    case ShutdownRequest(offline) =>
      TellAllOnlyTells(s.(slots := WithoutTimers(s.slots)), 0, offline);
    case _ =>
  }

  lemma {:induction false} RunOnSchedule(s: State, events: seq<Event>)
    requires Inv(s) && OnSchedule(s) && RollTimersOnTime(s, events)
    ensures OnSchedule(Run(s, events)) && Run(s, events).config == s.config && |Run(s, events).slots| == |s.slots|
    decreases |events|
  {
    if events != [] {
      if Enabled(s, events[0]) { StepOnSchedule(s, events[0]); StepKeepsInv(s, events[0]); StepShape(s, events[0]); }
      RunOnSchedule(if Enabled(s, events[0]) then Step(s, events[0]) else s, events[1..]);
    }
  }

  /**
   * With the roll's timers firing on time, every roll ends, succeeded or
   * failed, within workers x (ready timeout + stop timeout), the time its
   * `accepted` answer announced; a roll still running is inside it too.
   */
  lemma RollEndsInAnnouncedTime(config: Config, workers: nat, events: seq<Event>)
    requires RollTimersOnTime(StartFrom(Init(config, workers), 0), events)
    ensures var s := Reach(config, workers, events);
      var announced := RollingRestartTimeoutMs(workers, config.readyTimeoutMs, config.deadlineMs + KILL_SETTLE_MS);
      && (forall r :: r in s.replies && (r.Succeeded? || r.Failed?) ==> 0 <= r.durationMs <= announced)
      && (!s.roll.NoRoll? ==> s.now <= s.roll.roll.startedAt + announced)
  {
    var start := StartFrom(Init(config, workers), 0);
    StartInv(config, workers);
    RunOnSchedule(start, events);
    var s := Reach(config, workers, events);
    if !s.roll.NoRoll? {
      BudgetGrows(config, s.roll.roll.slot, s.roll.roll.slot + 1);
      BudgetGrows(config, s.roll.roll.slot + 1, workers);
    }
  }
}
