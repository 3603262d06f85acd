/** The class of src/config/inapp-cluster-primary.ts: its fields, updated in place by its event handlers. */
module InAppClusterPrimary {
  import opened Common
  import opened InAppCluster
  import M = ClusterModel

  class Slot {
    var worker: Option<nat>
    var startedAt: nat
    var ready: bool
    var restartDelayMs: Option<nat>
    var restartTimer: Option<nat>

    constructor ()
      ensures Value() == M.Slot(None, 0, false, None, None)
    {
      worker, startedAt, ready, restartDelayMs, restartTimer := None, 0, false, None, None;
    }

    function Value(): M.Slot
      reads this
    {
      M.Slot(worker, startedAt, ready, restartDelayMs, restartTimer)
    }
  }

  /**
   * Every method ends in the state the model's function of the same name
   * gives for the state before; what the model's runs keep therefore holds
   * for the class.
   */
  class ClusterPrimary {
    const config: M.Config
    var now: nat
    const slots: seq<Slot>
    var live: map<nat, nat>
    var toldToStop: set<nat>
    var nextWorker: nat
    var rolling: M.RollPhase
    var stopping: M.StopPhase
    var forced: bool
    var allReadySignalled: bool
    ghost var reported: set<nat>
    ghost var killed: set<nat>
    ghost var sent: seq<nat>
    ghost var replies: seq<M.Reply>
    ghost var exits: seq<int>

    ghost predicate Valid() {
      NoDuplicates(slots)
    }

    ghost function Slots(): (r: seq<M.Slot>)
      reads slots
      ensures |r| == |slots| && forall i :: 0 <= i < |r| ==> r[i] == slots[i].Value()
    {
      seq(|slots|, i requires 0 <= i < |slots| reads slots => slots[i].Value())
    }

    ghost function State(): M.State
      reads this, slots
    {
      M.State(config, now, Slots(), live, toldToStop, nextWorker, rolling, stopping, forced, allReadySignalled,
        reported, killed, sent, replies, exits)
    }

    constructor (config: M.Config, workers: nat)
      ensures Valid() && fresh(slots) && State() == M.Init(config, workers)
    {
      this.config := config;
      now, live, toldToStop, nextWorker := 0, map[], {}, 0;
      rolling, stopping, forced, allReadySignalled := M.NoRoll, M.Running, false, false;
      reported, killed, sent, replies, exits := {}, {}, [], [], [];
      var made: seq<Slot> := [];
      while |made| < workers
        invariant |made| <= workers && fresh(made) && NoDuplicates(made)
        invariant forall i :: 0 <= i < |made| ==> made[i].Value() == M.Slot(None, 0, false, None, None)
      {
        var slot := new Slot();
        made := made + [slot];
      }
      slots := made;
    }

    method Start()
      requires Valid()
      modifies this, slots
      ensures Valid() && State() == M.StartFrom(old(State()), 0)
    {
      var i := 0;
      while i < |slots|
        invariant Valid() && i <= |slots|
        invariant M.StartFrom(State(), i) == M.StartFrom(old(State()), 0)
      {
        StartInSlot(i);
        i := i + 1;
      }
    }

    method Fork(i: nat) returns (worker: nat)
      modifies this
      ensures State() == M.Fork(old(State()), i) && worker == old(nextWorker)
    {
      worker := nextWorker;
      live := live[worker := i];
      nextWorker := nextWorker + 1;
    }

    method StartInSlot(i: nat)
      requires Valid() && i < |slots|
      modifies this, slots
      ensures Valid() && State() == M.StartInSlot(old(State()), i)
    {
      var worker := Fork(i);
      slots[i].worker := Some(worker);
      slots[i].startedAt := now;
      slots[i].ready := false;
    }

    method OnReady(worker: nat)
      requires Valid() && worker in live && live[worker] < |slots|
      modifies this, slots
      ensures Valid() && State() == M.OnReady(old(State()), worker)
    {
      var i := live[worker];
      if slots[i].worker != Some(worker) { return; }
      slots[i].ready := true;
      assert Slots() == old(Slots())[i := old(Slots())[i].(ready := true)];
      SignalAllReady();
    }

    method SignalAllReady()
      modifies this`allReadySignalled
      ensures State() == M.SignalAllReady(old(State()))
    {
      if !allReadySignalled {
        var all := AllReady();
        if all { allReadySignalled := true; }
      }
    }

    method AllReady() returns (all: bool)
      ensures all == State().AllReady()
    {
      all := true;
      for i := 0 to |slots|
        invariant all <==> forall j :: 0 <= j < i ==> slots[j].ready
      {
        if !slots[i].ready { all := false; }
      }
    }

    method OnExit(worker: nat)
      requires Valid() && worker in live && live[worker] < |slots|
      modifies this, slots
      ensures Valid() && State() == M.OnExit(old(State()), worker)
    {
      var i := live[worker];
      live := live - {worker};
      if slots[i].worker != Some(worker) {
        AllStopped();
        return;
      }
      assert State() == old(State()).(live := old(live) - {worker});
      ServingWorkerGone(i);
    }

    /** The slot is empty; unless the primary is stopping, its next worker is due after the backoff. */
    method ServingWorkerGone(i: nat)
      requires Valid() && i < |slots|
      modifies this, slots
      ensures var gone := old(Slots())[i].(worker := None, ready := false);
              var delay := NextWorkerRestartDelayMs(gone.restartDelayMs, now - gone.startedAt);
              Valid() && State() == (
                if old(stopping) != M.Running then M.AllStopped(old(State()).(slots := old(Slots())[i := gone]))
                else old(State()).(slots :=
                  old(Slots())[i := gone.(restartDelayMs := Some(delay), restartTimer := Some(now + delay))]))
    {
      Vacate(i);
      if stopping != M.Running {
        AllStopped();
        return;
      }
      ArmRestart(i);
      assert Slots() == old(Slots())[i := Slots()[i]];
    }

    method Vacate(i: nat)
      requires Valid() && i < |slots|
      modifies slots
      ensures Valid()
      ensures State() == old(State()).(slots := old(Slots())[i := old(Slots())[i].(worker := None, ready := false)])
    {
      slots[i].worker := None;
      slots[i].ready := false;
      assert Slots() == old(Slots())[i := old(Slots())[i].(worker := None, ready := false)];
    }

    method ArmRestart(i: nat)
      requires Valid() && i < |slots|
      modifies slots
      ensures var was := old(Slots())[i];
              var delay := NextWorkerRestartDelayMs(was.restartDelayMs, now - was.startedAt);
              Valid() && State() == old(State()).(slots :=
                old(Slots())[i := was.(restartDelayMs := Some(delay), restartTimer := Some(now + delay))])
    {
      ghost var was := slots[i].Value();
      var delay := NextWorkerRestartDelayMs(slots[i].restartDelayMs, now - slots[i].startedAt);
      slots[i].restartDelayMs := Some(delay);
      slots[i].restartTimer := Some(now + delay);
      assert Slots() == old(Slots())[i := was.(restartDelayMs := Some(delay), restartTimer := Some(now + delay))];
    }

    method AllStopped()
      modifies this
      ensures State() == M.AllStopped(old(State()))
    {
      if (stopping.Draining? || stopping.Killing?) && live == map[] {
        stopping := M.Settling(now + KILL_SETTLE_MS);
      }
    }

    method TellToStop(worker: nat, offline: set<nat>)
      modifies this`toldToStop, this`sent
      ensures State() == M.TellToStop(old(State()), worker, offline)
    {
      if worker in toldToStop || worker in offline { return; }
      toldToStop := toldToStop + {worker};
      sent := sent + [worker];
    }

    method KillAtDeadline(worker: nat)
      modifies this
      ensures State() == M.KillAtDeadline(old(State()), worker)
    {
      if worker !in live { return; }
      killed := killed + {worker};
    }

    // ── Rolling restart ──

    method Reply(reply: M.Reply)
      modifies this`replies
      ensures State() == M.SendReply(old(State()), reply)
    {
      replies := replies + [reply];
    }

    method RejectReason() returns (reason: Option<M.RejectReason>)
      ensures reason == M.RejectReasonOf(State())
    {
      if stopping != M.Running { return Some(M.ShuttingDown); }
      if rolling != M.NoRoll { return Some(M.InProgress); }
      var all := AllReady();
      reason := if all then None else Some(M.NotReady);
    }

    method RollingRestart(id: nat)
      requires Valid()
      modifies this, slots
      ensures Valid() && State() == M.RollingRestart(old(State()), id)
    {
      var rejected := RejectReason();
      if rejected.Some? {
        Reply(M.Rejected(id, rejected.value));
        return;
      }
      var timeoutMs := RollingRestartTimeoutMs(|slots|, config.readyTimeoutMs, config.deadlineMs + KILL_SETTLE_MS);
      Reply(M.Accepted(id, |slots|, timeoutMs));
      RollSlot(M.Roll(id, 0, now));
    }

    method FailRoll(r: M.Roll, reason: M.FailReason)
      modifies this
      ensures State() == M.FailRoll(old(State()), r, reason)
    {
      Reply(M.Failed(r.id, reason, r.slot, r.slot, now - r.startedAt));
      rolling := M.NoRoll;
    }

    method RollSlot(r: M.Roll)
      modifies this
      ensures State() == M.RollSlot(old(State()), r)
    {
      if r.slot >= |slots| {
        Reply(M.Succeeded(r.id, |slots|, now - r.startedAt));
        rolling := M.NoRoll;
      } else if stopping != M.Running {
        FailRoll(r, M.CutByShutdown);
      } else if !slots[r.slot].ready {
        FailRoll(r, M.SlotNotReady);
      } else {
        var incoming := Fork(r.slot);
        rolling := M.AwaitReady(r, incoming, now, now + config.readyTimeoutMs);
      }
    }

    method AfterReadyWait(failure: Option<M.FailReason>, offline: set<nat>)
      requires Valid() && rolling.AwaitReady? && rolling.roll.slot < |slots|
      modifies this, slots
      ensures Valid() && State() == M.AfterReadyWait(old(State()), failure, offline)
    {
      if failure.Some? || stopping != M.Running {
        StopWorker(rolling.roll, rolling.incoming, M.Abandon(failure), offline);
      } else {
        TakeOver(offline);
      }
    }

    method TakeOver(offline: set<nat>)
      requires Valid() && rolling.AwaitReady? && rolling.roll.slot < |slots|
      modifies this, slots
      ensures Valid() && State() == M.TakeOver(old(State()), offline)
    {
      Replace(rolling.roll, slots[rolling.roll.slot].worker, rolling.incoming, rolling.forkedAt, offline);
    }

    method Replace(r: M.Roll, previous: Option<nat>, incoming: nat, forkedAt: nat, offline: set<nat>)
      requires Valid() && r.slot < |slots|
      modifies this, slots
      ensures Valid() && State() == M.Replace(old(State()), r, previous, incoming, forkedAt, offline)
    {
      hide M.AfterStopWait, M.StopWorker, M.StopPrevious;
      Promote(r.slot, incoming, forkedAt);
      StopPrevious(r, previous, M.Finish(previous, incoming, now - forkedAt, now), offline);
    }

    /** The worker replaced, if the slot had one, is stopped. */
    method StopPrevious(r: M.Roll, previous: Option<nat>, after: M.AfterStop, offline: set<nat>)
      requires r.slot < |slots|
      modifies this
      ensures State() == M.StopPrevious(old(State()), r, previous, after, offline)
    {
      if previous.None? {
        AfterStopWait(r, after, true);
      } else {
        StopWorker(r, previous.value, after, offline);
      }
    }

    method Promote(i: nat, incoming: nat, forkedAt: nat)
      requires Valid() && i < |slots|
      modifies slots
      ensures Valid() && State() == M.Promote(old(State()), i, incoming, forkedAt)
    {
      slots[i].restartTimer := None;
      slots[i].worker := Some(incoming);
      slots[i].startedAt := forkedAt;
      slots[i].ready := true;
      slots[i].restartDelayMs := None;
      assert Slots() == old(Slots())[i := M.Slot(Some(incoming), forkedAt, true, None, None)];
    }

    method StopWorker(r: M.Roll, worker: nat, after: M.AfterStop, offline: set<nat>)
      requires r.slot < |slots|
      modifies this
      ensures State() == M.StopWorker(old(State()), r, worker, after, offline)
    {
      TellToStop(worker, offline);
      if worker in live {
        rolling := M.AwaitExit(r, worker, false, after, now + config.deadlineMs);
      } else {
        AfterStopWait(r, after, true);
      }
    }

    method AfterStopWait(r: M.Roll, after: M.AfterStop, exitedInTime: bool)
      requires r.slot < |slots|
      modifies this
      ensures State() == M.AfterStopWait(old(State()), r, after, exitedInTime)
    {
      match after
      case Abandon(reason) =>
        FailRoll(r, if stopping != M.Running || reason.None? then M.CutByShutdown else reason.value);
      case Finish(previous, incoming, readyMs, stopStartedAt) =>
        if slots[r.slot].worker != Some(incoming) {
          FailRoll(r, M.ReplacementExited);
        } else {
          Reply(M.SlotReplaced(r.id, r.slot, previous, incoming, readyMs, now - stopStartedAt, !exitedInTime));
          RollSlot(r.(slot := r.slot + 1));
        }
    }

    // ── Event handlers ──

    method WorkerReady(worker: nat, offline: set<nat>)
      requires Valid() && worker in live && live[worker] < |slots|
      modifies this, slots
      ensures Valid() && State() == M.ReadyEvent(old(State()), worker, offline)
    {
      reported := reported + {worker};
      OnReady(worker);
      if rolling.AwaitReady? && rolling.incoming == worker && rolling.roll.slot < |slots| {
        AfterReadyWait(None, offline);
      }
    }

    method WorkerExit(worker: nat, offline: set<nat>)
      requires Valid() && worker in live && live[worker] < |slots|
      modifies this, slots
      ensures Valid() && State() == M.ExitEvent(old(State()), worker, offline)
    {
      OnExit(worker);
      if rolling.NoRoll? || rolling.roll.slot >= |slots| { return; }
      if rolling.AwaitReady? && rolling.incoming == worker {
        AfterReadyWait(Some(M.ExitedBeforeReady), offline);
      } else if rolling.AwaitExit? && rolling.target == worker {
        AfterStopWait(rolling.roll, rolling.after, !rolling.killed);
      }
    }

    method RestartTimerFired(i: nat)
      requires Valid() && i < |slots|
      modifies this, slots
      ensures Valid() && State() == M.RestartTimerFired(old(State()), i)
    {
      slots[i].restartTimer := None;
      assert Slots() == old(Slots())[i := old(Slots())[i].(restartTimer := None)];
      if stopping == M.Running { StartInSlot(i); }
    }

    method RollTimerFired(offline: set<nat>)
      requires Valid() && !rolling.NoRoll? && rolling.roll.slot < |slots|
      modifies this, slots
      ensures Valid() && State() == M.RollTimerFired(old(State()), offline)
    {
      if rolling.AwaitReady? {
        AfterReadyWait(Some(M.ReadyTimeout), offline);
      } else if rolling.killed {
        AfterStopWait(rolling.roll, rolling.after, false);
      } else {
        KillAtDeadline(rolling.target);
        rolling := rolling.(killed := true, due := now + KILL_SETTLE_MS);
      }
    }

    method Shutdown(offline: set<nat>)
      requires Valid()
      modifies this, slots
      ensures Valid() && State() == M.Shutdown(old(State()), offline)
    {
      if stopping != M.Running { return; }
      ClearRestartTimers();
      if live == map[] {
        stopping := M.Settling(now + KILL_SETTLE_MS);
        return;
      }
      TellAll(offline);
      stopping := M.Draining(now + config.deadlineMs);
    }

    method TellAll(offline: set<nat>)
      modifies this`toldToStop, this`sent
      ensures State() == M.TellAllFrom(old(State()), 0, offline)
    {
      var worker := 0;
      while worker < nextWorker
        invariant worker <= nextWorker
        invariant M.TellAllFrom(State(), worker, offline) == M.TellAllFrom(old(State()), 0, offline)
      {
        if worker in live { TellToStop(worker, offline); }
        worker := worker + 1;
      }
    }

    method ClearRestartTimers()
      requires Valid()
      modifies slots
      ensures Valid() && State() == old(State()).(slots := M.WithoutTimers(old(Slots())))
    {
      ghost var cleared := M.WithoutTimers(old(Slots()));
      for i := 0 to |slots|
        invariant Valid()
        invariant forall j :: 0 <= j < i ==> slots[j].Value() == old(slots[j].Value()).(restartTimer := None)
        invariant forall j :: i <= j < |slots| ==> slots[j].Value() == old(slots[j].Value())
      {
        slots[i].restartTimer := None;
      }
      assert Slots() == cleared;
    }

    method ShutdownTimerFired()
      modifies this
      ensures State() == M.ShutdownTimerFired(old(State()))
    {
      if stopping.Draining? {
        forced := true;
        killed := killed + live.Keys;
        stopping := M.Killing(now + KILL_SETTLE_MS);
      } else {
        stopping := M.Settling(now + KILL_SETTLE_MS);
      }
    }

    method ExitPrimary()
      modifies this
      ensures State() == M.ExitPrimary(old(State()))
    {
      stopping := M.Finished;
      exits := exits + [if forced then 1 else 0];
    }

    /** One event of the primary: the class and the model take the same step. */
    method Handle(e: M.Event)
      requires Valid() && M.Enabled(State(), e)
      modifies this, slots
      ensures Valid() && State() == M.Step(old(State()), e)
    {
      match e
      case Tick(ms) => now := now + ms;
      case WorkerReady(worker, offline) => WorkerReady(worker, offline);
      case WorkerExit(worker, offline) => WorkerExit(worker, offline);
      case RestartTimer(i) => RestartTimerFired(i);
      case RollTimer(offline) => RollTimerFired(offline);
      case RollRequest(id) => RollingRestart(id);
      case ShutdownRequest(offline) => Shutdown(offline);
      case ShutdownTimer => ShutdownTimerFired();
      case RollSettled => ExitPrimary();
    }
  }
}
