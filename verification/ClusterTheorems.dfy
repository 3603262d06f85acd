/** The promises of the in-app cluster primary, over every run. */
module ClusterTheorems {
  import opened Common
  import opened ClusterModel
  import opened ClusterProofs

  // ── Every reachable state ──

  /** start() has filled the slots before `i`; the others are as new. */
  ghost predicate StartedUpTo(s: State, i: nat) {
    && SlotsAgree(s) && ReadyMeansReported(s) && ServingNotTold(s)
    && MessagesAgree(s) && Accounted(s, {}) && BackoffInRange(s)
    && s.stop == Running && s.roll == NoRoll && !s.forced && s.exits == [] && s.replies == []
    && forall j :: 0 <= j < |s.slots| ==> (s.slots[j].worker.Some? <==> j < i) && s.slots[j].restartTimer.None?
  }

  lemma StartKeeps(s: State, i: nat)
    requires StartedUpTo(s, i) && i <= |s.slots|
    ensures StartedUpTo(StartFrom(s, i), |s.slots|)
    ensures |StartFrom(s, i).slots| == |s.slots| && StartFrom(s, i).config == s.config
    decreases |s.slots| - i
  {
    if i < |s.slots| {
      var t := StartInSlot(s, i);
      forall w | w in t.live ensures t.Serving(w) || w in t.killed {
        if w != s.nextWorker {
          assert w in s.live;
          assert s.Serving(w) || w in {} || w in s.killed;
        }
      }
      StartKeeps(t, i + 1);
    }
  }

  lemma StartInv(config: Config, workers: nat)
    ensures var s := StartFrom(Init(config, workers), 0);
      && Inv(s) && |s.slots| == workers && s.config == config
      && s.stop == Running && s.roll == NoRoll && s.replies == []
  {
    StartKeeps(Init(config, workers), 0);
  }

  lemma {:induction false} RunKeepsInv(s: State, events: seq<Event>)
    requires Inv(s)
    ensures Inv(Run(s, events))
    decreases |events|
  {
    if events != [] {
      if Enabled(s, events[0]) { StepKeepsInv(s, events[0]); }
      RunKeepsInv(if Enabled(s, events[0]) then Step(s, events[0]) else s, events[1..]);
    }
  }

  lemma ReachInv(config: Config, workers: nat, events: seq<Event>)
    ensures Inv(Reach(config, workers, events))
  {
    StartInv(config, workers);
    RunKeepsInv(StartFrom(Init(config, workers), 0), events);
  }

  // ── Slots never move between events ──

  /** After stopWorker the roll only answers, forks and moves on. */
  lemma AfterStopWaitFrame(s: State, r: Roll, after: AfterStop, inTime: bool)
    requires r.slot < |s.slots|
    ensures var t := AfterStopWait(s, r, after, inTime);
            t == s.(roll := t.roll, replies := t.replies, live := t.live, nextWorker := t.nextWorker)
  {
  }

  lemma StopWorkerFrame(s: State, r: Roll, w: nat, after: AfterStop, offline: set<nat>)
    requires r.slot < |s.slots|
    ensures var t := StopWorker(s, r, w, after, offline);
            t == s.(roll := t.roll, replies := t.replies, live := t.live, nextWorker := t.nextWorker,
                    told := t.told, sent := t.sent)
  {
    AfterStopWaitFrame(TellToStop(s, w, offline), r, after, true);
  }

  /** After the wait for "ready", at most the slot being replaced changes, and then to a ready one. */
  lemma AfterReadyWaitFrame(s: State, failure: Option<FailReason>, offline: set<nat>)
    requires s.roll.AwaitReady? && s.roll.roll.slot < |s.slots|
    ensures var t := AfterReadyWait(s, failure, offline);
            && t == s.(slots := t.slots, roll := t.roll, replies := t.replies, live := t.live,
                       nextWorker := t.nextWorker, told := t.told, sent := t.sent)
            && |t.slots| == |s.slots|
            && forall i :: 0 <= i < |s.slots| ==>
                 || t.slots[i] == s.slots[i]
                 || (i == s.roll.roll.slot && t.slots[i].ready && !s.Stopping() && failure.None?)
  {
    if failure.Some? || s.Stopping() {
      StopWorkerFrame(s, s.roll.roll, s.roll.incoming, Abandon(failure), offline);
    } else {
      TakeOverFrame(s, offline);
    }
  }

  lemma TakeOverFrame(s: State, offline: set<nat>)
    requires s.roll.AwaitReady? && s.roll.roll.slot < |s.slots|
    ensures var t := TakeOver(s, offline);
            && t == s.(slots := t.slots, roll := t.roll, replies := t.replies, live := t.live,
                       nextWorker := t.nextWorker, told := t.told, sent := t.sent)
            && t.slots == Promote(s, s.roll.roll.slot, s.roll.incoming, s.roll.forkedAt).slots
  {
    var p := s.roll;
    var previous := s.slots[p.roll.slot].worker;
    var t := Promote(s, p.roll.slot, p.incoming, p.forkedAt);
    var after := Finish(previous, p.incoming, s.now - p.forkedAt, s.now);
    if previous.None? {
      AfterStopWaitFrame(t, p.roll, after, true);
      assert TakeOver(s, offline) == AfterStopWait(t, p.roll, after, true);
    } else {
      StopWorkerFrame(t, p.roll, previous.value, after, offline);
      assert TakeOver(s, offline) == StopWorker(t, p.roll, previous.value, after, offline);
    }
  }

  /** Same slots, same configuration, stopping or not as before; a ready slot not named in `except` stays ready. */
  ghost predicate SameShape(s: State, t: State, except: Option<nat>) {
    && |t.slots| == |s.slots| && t.config == s.config && (t.Stopping() <==> s.Stopping())
    && forall i :: 0 <= i < |s.slots| && s.slots[i].ready && (except.None? || s.slots[i].worker != except) ==>
         t.slots[i].ready
  }

  lemma ReadyEventShape(s: State, w: nat, offline: set<nat>)
    requires Inv(s) && w in s.live
    ensures SameShape(s, ReadyEvent(s, w, offline), None)
  {
    var t := OnReady(s.(reported := s.reported + {w}), w);
    if t.roll.AwaitReady? && t.roll.incoming == w { AfterReadyWaitFrame(t, None, offline); }
  }

  lemma ExitEventShape(s: State, w: nat, offline: set<nat>)
    requires Inv(s) && w in s.live
    ensures SameShape(s, ExitEvent(s, w, offline), Some(w))
  {
    var t := OnExit(s, w);
    OnExitShape(s, w);
    if t.roll.AwaitReady? && t.roll.incoming == w {
      AfterReadyWaitFrame(t, Some(ExitedBeforeReady), offline);
    } else if t.roll.AwaitExit? && t.roll.target == w {
      AfterStopWaitFrame(t, t.roll.roll, t.roll.after, !t.roll.killed);
    }
  }

  lemma OnExitShape(s: State, w: nat)
    requires Inv(s) && w in s.live
    ensures SameShape(s, OnExit(s, w), Some(w)) && OnExit(s, w).roll == s.roll
  {
  }

  lemma RollTimerShape(s: State, offline: set<nat>)
    requires Inv(s) && Enabled(s, RollTimer(offline))
    ensures SameShape(s, RollTimerFired(s, offline), None)
  {
    if s.roll.AwaitReady? { AfterReadyWaitFrame(s, Some(ReadyTimeout), offline); }
    else if s.roll.killed { AfterStopWaitFrame(s, s.roll.roll, s.roll.after, false); }
  }

  lemma StepShape(s: State, e: Event)
    requires Inv(s) && Enabled(s, e)
    ensures |Step(s, e).slots| == |s.slots| && Step(s, e).config == s.config
    ensures !e.ShutdownRequest? ==> SameShape(s, Step(s, e), if e.WorkerExit? then Some(e.worker) else None)
  {
    match e
    case WorkerReady(w, offline) => ReadyEventShape(s, w, offline);
    case WorkerExit(w, offline) => ExitEventShape(s, w, offline);
    case RollTimer(offline) => RollTimerShape(s, offline);
    case RestartTimer(i) => assert s.Stopping() || s.slots[i].worker.None?;
    case ShutdownRequest(offline) =>
      TellAllOnlyTells(s.(slots := WithoutTimers(s.slots)), 0, offline);
    case _ =>
  }

  lemma RunKeepsWorkerCount(s: State, events: seq<Event>)
    requires Inv(s)
    ensures |Run(s, events).slots| == |s.slots|
    decreases |events|
  {
    if events != [] {
      if Enabled(s, events[0]) { StepKeepsInv(s, events[0]); StepShape(s, events[0]); }
      RunKeepsWorkerCount(if Enabled(s, events[0]) then Step(s, events[0]) else s, events[1..]);
    }
  }

  lemma TellAllOnlyTells(s: State, w: nat, offline: set<nat>)
    ensures var t := TellAllFrom(s, w, offline); t == s.(told := t.told, sent := t.sent)
    decreases s.nextWorker - w
  {
    if w < s.nextWorker { TellAllOnlyTells(if w in s.live then TellToStop(s, w, offline) else s, w + 1, offline); }
  }

  // ── Slot structure ──

  ghost function ServingBelow(s: State, k: nat): set<nat>
  {
    set w | w in s.live && s.Serving(w) && s.live[w] < k
  }

  lemma ServingBelowBounded(s: State, k: nat)
    requires SlotsAgree(s) && k <= |s.slots|
    ensures |ServingBelow(s, k)| <= k
  {
    if k == 0 {
      assert ServingBelow(s, 0) == {};
    } else {
      ServingBelowBounded(s, k - 1);
      var last := if s.slots[k - 1].worker.Some? then {s.slots[k - 1].worker.value} else {};
      forall w | w in ServingBelow(s, k) ensures w in ServingBelow(s, k - 1) + last {
        if s.live[w] == k - 1 { assert s.slots[k - 1].worker == Some(w); }
      }
      SubsetSize(ServingBelow(s, k), ServingBelow(s, k - 1) + last);
    }
  }

  /**
   * Before shutdown every slot has exactly one of a serving worker and an
   * armed restart timer; serving workers are live, distinct and in their own
   * slot; a ready slot's worker reported ready; and at most one process more
   * than there are slots lives without having been killed.
   */
  lemma SlotStructure(config: Config, workers: nat, events: seq<Event>)
    ensures var s := Reach(config, workers, events);
      && |s.slots| == workers
      && (!s.Stopping() ==>
            forall i :: 0 <= i < workers ==> (s.slots[i].worker.Some? <==> s.slots[i].restartTimer.None?))
      && (forall i :: 0 <= i < workers && s.slots[i].worker.Some? ==>
            s.slots[i].worker.value in s.live && s.live[s.slots[i].worker.value] == i)
      && (forall i, j :: 0 <= i < j < workers && s.slots[i].worker.Some? ==> s.slots[i].worker != s.slots[j].worker)
      && (forall i :: 0 <= i < workers && s.slots[i].ready ==>
            s.slots[i].worker.Some? && s.slots[i].worker.value in s.reported)
      && |s.live.Keys - s.killed| <= workers + 1
  {
    var s := Reach(config, workers, events);
    ReachInv(config, workers, events);
    StartInv(config, workers);
    RunKeepsWorkerCount(StartFrom(Init(config, workers), 0), events);
    ServingBelowBounded(s, workers);
    var all := ServingBelow(s, workers) + RollWorkers(s.roll);
    forall w | w in s.live.Keys - s.killed ensures w in all {
      assert s.Serving(w) || w in RollWorkers(s.roll) || w in s.killed;
    }
    SubsetSize(s.live.Keys - s.killed, all);
  }

  // ── A rolling restart never costs capacity ──

  /** `e` is neither a shutdown nor the exit of the worker serving slot `i`. */
  predicate Spares(s: State, e: Event, i: nat)
    requires i < |s.slots|
  {
    !e.ShutdownRequest? && (e.WorkerExit? ==> s.slots[i].worker != Some(e.worker))
  }

  /**
   * Before shutdown, whatever happens except the exit of its own serving
   * worker, a ready slot stays ready, and the worker that serves it afterwards
   * has never been told to stop.
   */
  lemma ReadySlotStaysReady(s: State, e: Event, i: nat)
    requires Inv(s) && Enabled(s, e) && !s.Stopping() && i < |s.slots| && s.slots[i].ready && Spares(s, e, i)
    ensures var t := Step(s, e);
      && !t.Stopping() && i < |t.slots| && t.slots[i].ready
      && t.slots[i].worker.Some? && t.slots[i].worker.value !in t.told
  {
    StepKeepsInv(s, e);
    StepShape(s, e);
  }

  /** No event of the run is a shutdown or the exit of a worker that serves a slot when it exits. */
  predicate SparesServing(s: State, events: seq<Event>)
    decreases |events|
  {
    events == [] ||
    if Enabled(s, events[0]) then
      && !events[0].ShutdownRequest?
      && (forall i :: 0 <= i < |s.slots| ==> Spares(s, events[0], i))
      && SparesServing(Step(s, events[0]), events[1..])
    else SparesServing(s, events[1..])
  }

  /** From all slots ready, through any number of rolls, failed or not: all slots stay served by ready workers. */
  lemma {:induction false} RollKeepsCapacity(s: State, events: seq<Event>)
    requires Inv(s) && !s.Stopping() && s.AllReady() && SparesServing(s, events)
    ensures var t := Run(s, events);
      && t.AllReady() && |t.slots| == |s.slots| && !t.Stopping()
      && forall i :: 0 <= i < |t.slots| ==> t.slots[i].worker.Some? && t.slots[i].worker.value !in t.told
    decreases |events|
  {
    if events != [] {
      if Enabled(s, events[0]) {
        var t := Step(s, events[0]);
        StepKeepsInv(s, events[0]);
        StepShape(s, events[0]);
        forall i | 0 <= i < |s.slots| ensures t.slots[i].ready { ReadySlotStaysReady(s, events[0], i); }
        RollKeepsCapacity(t, events[1..]);
      } else {
        RollKeepsCapacity(s, events[1..]);
      }
    }
  }
}
