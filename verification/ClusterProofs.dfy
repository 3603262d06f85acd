/** What every run of the in-app cluster primary keeps. */
module ClusterProofs {
  import opened Common
  import opened InAppCluster
  import opened ClusterModel

  // ── The invariant ──

  /** Slots and processes agree: a serving worker is live in its own slot and no other. */
  ghost predicate SlotsAgree(s: State) {
    && (forall w :: w in s.live ==> w < s.nextWorker && s.live[w] < |s.slots|)
    && (forall i :: 0 <= i < |s.slots| && s.slots[i].worker.Some? ==>
          s.slots[i].worker.value in s.live && s.live[s.slots[i].worker.value] == i)
  }

  /** Before shutdown a slot has either a serving worker or an armed restart timer; afterwards no timer. */
  ghost predicate TimersAgree(s: State) {
    forall i :: 0 <= i < |s.slots| ==>
      if s.Stopping() then s.slots[i].restartTimer.None?
      else s.slots[i].worker.Some? <==> s.slots[i].restartTimer.None?
  }

  ghost predicate ReadyMeansReported(s: State) {
    forall i :: 0 <= i < |s.slots| && s.slots[i].ready ==>
      s.slots[i].worker.Some? && s.slots[i].worker.value in s.reported
  }

  /** Before shutdown no serving worker was told to stop. */
  ghost predicate ServingNotTold(s: State) {
    !s.Stopping() ==>
      forall i :: 0 <= i < |s.slots| && s.slots[i].worker.Some? ==> s.slots[i].worker.value !in s.told
  }

  ghost predicate MessagesAgree(s: State) {
    && NoDuplicates(s.sent)
    && (forall w :: w in s.sent <==> w in s.told)
    && (forall w :: w in s.told || w in s.reported || w in s.killed ==> w < s.nextWorker)
  }

  /** A live worker serves, or is one of `extra` (the roll's worker), or was killed. */
  ghost predicate Accounted(s: State, extra: set<nat>) {
    forall w :: w in s.live ==> s.Serving(w) || w in extra || w in s.killed
  }

  ghost predicate BackoffInRange(s: State) {
    forall i :: 0 <= i < |s.slots| && s.slots[i].restartDelayMs.Some? ==>
      WORKER_RESTART_INITIAL_DELAY_MS <= s.slots[i].restartDelayMs.value <= WORKER_RESTART_MAX_DELAY_MS
  }

  ghost predicate Core(s: State, extra: set<nat>) {
    && SlotsAgree(s) && TimersAgree(s) && ReadyMeansReported(s) && ServingNotTold(s)
    && MessagesAgree(s) && Accounted(s, extra) && BackoffInRange(s)
  }

  function RollWorkers(p: RollPhase): set<nat> {
    match p
    case NoRoll => {}
    case AwaitReady(_, incoming, _, _) => {incoming}
    case AwaitExit(_, target, _, _, _) => {target}
  }

  /** The roll's worker is live in the slot being replaced, and does not serve it. */
  ghost predicate RollAgrees(s: State) {
    match s.roll
    case NoRoll => true
    case AwaitReady(r, incoming, _, _) =>
      && r.slot < |s.slots| && incoming in s.live && s.live[incoming] == r.slot
      && !s.Serving(incoming) && (!s.Stopping() ==> incoming !in s.told)
    case AwaitExit(r, target, killed, after, _) =>
      && r.slot < |s.slots| && target in s.live && s.live[target] == r.slot
      && !s.Serving(target) && (killed ==> target in s.killed)
  }

  ghost predicate StopAgrees(s: State) {
    && (s.stop.Draining? || s.stop.Killing? ==> s.live != map[])
    && (s.stop.Running? || s.stop.Draining? ==> !s.forced)
    && (s.stop.Killing? ==> s.forced)
    && (s.forced ==> s.live.Keys <= s.killed)
    && (!s.stop.Running? && !s.stop.Draining? && !s.forced ==> s.live == map[])
    && s.exits == if s.stop.Finished? then [if s.forced then 1 else 0] else []
  }

  ghost predicate Inv(s: State) {
    Core(s, RollWorkers(s.roll)) && RollAgrees(s) && StopAgrees(s)
  }

  // ── Helpers keep it ──

  lemma ForkKeeps(s: State, i: nat, extra: set<nat>)
    requires Core(s, extra) && i < |s.slots|
    ensures var t := Fork(s, i); Core(t, extra + {s.nextWorker}) && !t.Serving(s.nextWorker) && s.nextWorker !in t.told
  {
    var t := Fork(s, i);
    forall w | w in t.live ensures t.Serving(w) || w in extra + {s.nextWorker} || w in t.killed {
      assert w in s.live || w == s.nextWorker;
      if w in s.live { assert s.Serving(w) || w in extra || w in s.killed; }
    }
  }

  lemma StartInSlotKeeps(s: State, i: nat, extra: set<nat>)
    requires SlotsAgree(s) && ReadyMeansReported(s) && ServingNotTold(s)
    requires MessagesAgree(s) && Accounted(s, extra) && BackoffInRange(s)
    requires i < |s.slots| && !s.Stopping() && s.slots[i].worker.None?
    requires forall j :: 0 <= j < |s.slots| ==> (s.slots[j].worker.Some? || j == i <==> s.slots[j].restartTimer.None?)
    ensures Core(StartInSlot(s, i), extra)
  {
    var t := StartInSlot(s, i);
    forall w | w in t.live ensures t.Serving(w) || w in extra || w in t.killed {
      if w != s.nextWorker {
        assert w in s.live;
        assert s.Serving(w) || w in extra || w in s.killed;
      }
    }
  }

  lemma TellToStopKeeps(s: State, w: nat, offline: set<nat>, extra: set<nat>)
    requires Core(s, extra) && w < s.nextWorker && (s.Stopping() || w !in s.live || !s.Serving(w))
    ensures Core(TellToStop(s, w, offline), extra)
  {
    if w !in s.told { AppendKeepsNoDuplicates(s.sent, w); }
  }

  lemma TellAllKeeps(s: State, w: nat, offline: set<nat>, extra: set<nat>)
    requires Core(s, extra) && s.Stopping()
    ensures var t := TellAllFrom(s, w, offline);
            Core(t, extra) && t == s.(told := t.told, sent := t.sent) && s.told <= t.told
    decreases s.nextWorker - w
  {
    if w < s.nextWorker {
      var t := if w in s.live then TellToStop(s, w, offline) else s;
      if w in s.live { TellToStopKeeps(s, w, offline, extra); }
      TellAllKeeps(t, w + 1, offline, extra);
    }
  }

  lemma OnReadyKeeps(s: State, w: nat, extra: set<nat>)
    requires Core(s, extra) && w in s.live
    ensures var r := s.(reported := s.reported + {w}); Core(r, extra) && Core(OnReady(r, w), extra)
    ensures var t := OnReady(s.(reported := s.reported + {w}), w);
            && t == s.(slots := t.slots, reported := t.reported, signalled := t.signalled)
            && |t.slots| == |s.slots| && forall i :: 0 <= i < |s.slots| ==> t.slots[i].worker == s.slots[i].worker
  {
    var r := s.(reported := s.reported + {w});
    var t := OnReady(r, w);
    assert Core(r, extra) by {
      forall v | v in r.live
        ensures r.Serving(v) || v in extra || v in r.killed
      {
        assert s.Serving(v) || v in extra || v in s.killed;
      }
    }
    forall v | v in t.live
      ensures t.Serving(v) || v in extra || v in t.killed
    {
      assert r.Serving(v) || v in extra || v in r.killed;
    }
  }

  lemma OnExitKeeps(s: State, w: nat, extra: set<nat>)
    requires Core(s, extra) && w in s.live
    ensures Core(OnExit(s, w), extra - {w})
    ensures var t := OnExit(s, w);
            && t == s.(slots := t.slots, live := s.live - {w}, stop := t.stop)
            && |t.slots| == |s.slots| && (s.Stopping() <==> t.Stopping())
            && forall i :: 0 <= i < |s.slots| ==>
                 t.slots[i].worker == if s.slots[i].worker == Some(w) then None else s.slots[i].worker
  {
    var t := OnExit(s, w);
    OnExitEmpties(s, w, extra);
    WorkerGoneKeeps(s, t, w, extra);
    assert Accounted(t, extra - {w}) by {
      forall v | v in t.live ensures t.Serving(v) || v in extra - {w} || v in t.killed {
        assert v in s.live && v != w;
        assert s.Serving(v) || v in extra || v in s.killed;
      }
    }
  }

  /** `w` is gone, and with it at most the serving worker of its slot, which `slots` shows. */
  ghost predicate WorkerGone(s: State, t: State, w: nat) {
    && t == s.(slots := t.slots, live := s.live - {w}, stop := t.stop)
    && |t.slots| == |s.slots| && (s.Stopping() <==> t.Stopping())
    && (forall i :: 0 <= i < |s.slots| ==>
          t.slots[i].worker == if s.slots[i].worker == Some(w) then None else s.slots[i].worker)
  }

  /** An emptied slot has a restart armed before shutdown and none afterwards; the others are as they were. */
  ghost predicate SlotEmptied(s: State, t: State, i: nat)
    requires i < |s.slots| == |t.slots|
  {
    && (forall j :: 0 <= j < |s.slots| && j != i ==> t.slots[j] == s.slots[j])
    && t.slots[i].worker.None? && !t.slots[i].ready
    && (if s.Stopping() then t.slots[i].restartTimer == s.slots[i].restartTimer else t.slots[i].restartTimer.Some?)
    && (t.slots[i].restartDelayMs.Some? ==>
          WORKER_RESTART_INITIAL_DELAY_MS <= t.slots[i].restartDelayMs.value <= WORKER_RESTART_MAX_DELAY_MS)
  }

  lemma WorkerGoneKeeps(s: State, t: State, w: nat, extra: set<nat>)
    requires Core(s, extra) && w in s.live && WorkerGone(s, t, w)
    requires t.slots == s.slots || SlotEmptied(s, t, s.live[w])
    ensures SlotsAgree(t) && TimersAgree(t) && ReadyMeansReported(t)
    ensures ServingNotTold(t) && MessagesAgree(t) && BackoffInRange(t)
  {
  }

  lemma OnExitEmpties(s: State, w: nat, extra: set<nat>)
    requires Core(s, extra) && w in s.live
    ensures var t := OnExit(s, w);
      WorkerGone(s, t, w) && (t.slots == s.slots || SlotEmptied(s, t, s.live[w]))
  {
    var i := s.live[w];
    if s.slots[i].worker == Some(w) {
      BackoffStaysInRange(s.slots[i].restartDelayMs, s.now - s.slots[i].startedAt);
      assert forall j :: 0 <= j < |s.slots| && j != i ==> s.slots[j].worker != Some(w);
    }
  }

  lemma BackoffStaysInRange(previous: Option<nat>, uptimeMs: int)
    requires previous.Some? ==> WORKER_RESTART_INITIAL_DELAY_MS <= previous.value <= WORKER_RESTART_MAX_DELAY_MS
    ensures var delay := NextWorkerRestartDelayMs(previous, uptimeMs);
      WORKER_RESTART_INITIAL_DELAY_MS <= delay <= WORKER_RESTART_MAX_DELAY_MS
  {
  }

  lemma PromoteKeeps(s: State, i: nat, incoming: nat, forkedAt: nat, extra: set<nat>)
    requires Core(s, extra) && i < |s.slots| && !s.Stopping()
    requires incoming in s.live && s.live[incoming] == i && incoming in s.reported && incoming !in s.told
    ensures Core(Promote(s, i, incoming, forkedAt),
                 extra - {incoming} + if s.slots[i].worker.Some? then {s.slots[i].worker.value} else {})
  {
    var t := Promote(s, i, incoming, forkedAt);
    var extra' := extra - {incoming} + if s.slots[i].worker.Some? then {s.slots[i].worker.value} else {};
    forall w | w in t.live ensures t.Serving(w) || w in extra' || w in t.killed {
      assert s.Serving(w) || w in extra || w in s.killed;
      if w == incoming { assert t.Serving(w); }
    }
  }

  lemma AccountedMonotone(s: State, extra: set<nat>, more: set<nat>)
    requires Core(s, extra) && (forall w :: w in extra && w in s.live ==> w in more || s.Serving(w) || w in s.killed)
    ensures Core(s, more)
  {
    forall w | w in s.live
      ensures s.Serving(w) || w in more || w in s.killed
    {
      assert s.Serving(w) || w in extra || w in s.killed;
    }
  }

  lemma RollSlotKeeps(s: State, r: Roll)
    requires Core(s, {}) && StopAgrees(s)
    ensures Inv(RollSlot(s, r))
  {
    if r.slot < |s.slots| && !s.Stopping() && s.slots[r.slot].ready {
      ForkKeeps(s, r.slot, {});
      assert {} + {s.nextWorker} == {s.nextWorker};
      var t := Fork(s, r.slot);
      var waiting := AwaitReady(r, s.nextWorker, s.now, s.now + s.config.readyTimeoutMs);
      CoreIgnoresRoll(t, waiting, s.replies, {s.nextWorker});
    } else if r.slot >= |s.slots| {
      CoreIgnoresRoll(s, NoRoll, RollSlot(s, r).replies, {});
    } else {
      CoreIgnoresRoll(s, NoRoll, RollSlot(s, r).replies, {});
    }
  }

  lemma CoreIgnoresRoll(s: State, p: RollPhase, replies: seq<Reply>, extra: set<nat>)
    requires Core(s, extra)
    ensures Core(s.(roll := p, replies := replies), extra)
  {
    var t := s.(roll := p, replies := replies);
    forall w | w in t.live
      ensures t.Serving(w) || w in extra || w in t.killed
    {
      assert s.Serving(w) || w in extra || w in s.killed;
    }
  }

  lemma FailRollKeeps(s: State, r: Roll, reason: FailReason)
    requires Core(s, {}) && StopAgrees(s)
    ensures Inv(FailRoll(s, r, reason))
  {
    CoreIgnoresRoll(s, NoRoll, FailRoll(s, r, reason).replies, {});
  }

  /** Why the roll fails when the slot's worker is gone but the slot is not replaced. */
  function FailReasonAfter(s: State, after: AfterStop): FailReason {
    match after
    case Finish(_, _, _, _) => ReplacementExited
    case Abandon(reason) => if s.Stopping() || reason.None? then CutByShutdown else reason.value
  }

  lemma AfterStopWaitKeeps(s: State, r: Roll, after: AfterStop, exitedInTime: bool)
    requires Core(s, {}) && StopAgrees(s) && r.slot < |s.slots|
    ensures Inv(AfterStopWait(s, r, after, exitedInTime))
  {
    if after.Finish? && s.slots[r.slot].worker == Some(after.incoming) {
      var reply := SlotReplaced(r.id, r.slot, after.previous, after.incoming,
                                after.readyMs, s.now - after.stopStartedAt, !exitedInTime);
      ReplyKeeps(s, reply);
      var t := SendReply(s, reply);
      RollSlotKeeps(t, r.(slot := r.slot + 1));
      assert AfterStopWait(s, r, after, exitedInTime) == RollSlot(t, r.(slot := r.slot + 1));
    } else {
      var reason := FailReasonAfter(s, after);
      FailRollKeeps(s, r, reason);
      assert AfterStopWait(s, r, after, exitedInTime) == FailRoll(s, r, reason);
    }
  }

  lemma ReplyKeeps(s: State, reply: Reply)
    requires Core(s, {}) && StopAgrees(s)
    ensures Core(SendReply(s, reply), {}) && StopAgrees(SendReply(s, reply))
  {
    CoreIgnoresRoll(s, s.roll, SendReply(s, reply).replies, {});
    assert SendReply(s, reply) == s.(roll := s.roll, replies := SendReply(s, reply).replies);
  }

  lemma AwaitExitKeeps(s: State, r: Roll, w: nat, after: AfterStop, due: nat)
    requires Core(s, {w}) && StopAgrees(s) && r.slot < |s.slots|
    requires w in s.live && s.live[w] == r.slot && !s.Serving(w)
    ensures Inv(s.(roll := AwaitExit(r, w, false, after, due)))
  {
    var waiting := AwaitExit(r, w, false, after, due);
    CoreIgnoresRoll(s, waiting, s.replies, {w});
    assert s.(roll := waiting, replies := s.replies) == s.(roll := waiting);
  }

  lemma TellToStopFrame(s: State, w: nat, offline: set<nat>)
    ensures var t := TellToStop(s, w, offline);
      t == s.(told := t.told, sent := t.sent) && (StopAgrees(s) ==> StopAgrees(t))
  {
  }

  lemma StopWorkerKeeps(s: State, r: Roll, w: nat, after: AfterStop, offline: set<nat>)
    requires Core(s, {w}) && StopAgrees(s) && r.slot < |s.slots| && w < s.nextWorker
    requires w in s.live ==> s.live[w] == r.slot && !s.Serving(w)
    ensures Inv(StopWorker(s, r, w, after, offline))
  {
    TellToStopKeeps(s, w, offline, {w});
    TellToStopFrame(s, w, offline);
    var t := TellToStop(s, w, offline);
    if w in s.live {
      AwaitExitKeeps(t, r, w, after, s.now + s.config.deadlineMs);
    } else {
      AccountedMonotone(t, {w}, {});
      AfterStopWaitKeeps(t, r, after, true);
    }
  }

  lemma AfterReadyWaitKeeps(s: State, failure: Option<FailReason>, offline: set<nat>)
    requires s.roll.AwaitReady? && s.roll.roll.slot < |s.slots|
    requires Core(s, {s.roll.incoming}) && StopAgrees(s) && s.roll.incoming < s.nextWorker
    requires s.roll.incoming in s.live ==> RollAgrees(s)
    requires failure.None? ==> s.roll.incoming in s.live && s.roll.incoming in s.reported
    ensures Inv(AfterReadyWait(s, failure, offline))
  {
    if failure.Some? || s.Stopping() {
      StopWorkerKeeps(s, s.roll.roll, s.roll.incoming, Abandon(failure), offline);
    } else {
      TakeOverKeeps(s, offline);
    }
  }

  lemma TakeOverKeeps(s: State, offline: set<nat>)
    requires s.roll.AwaitReady? && !s.Stopping() && RollAgrees(s) && StopAgrees(s)
    requires Core(s, {s.roll.incoming}) && s.roll.incoming in s.reported
    ensures Inv(TakeOver(s, offline))
  {
    var p := s.roll;
    var previous := s.slots[p.roll.slot].worker;
    var t := Promote(s, p.roll.slot, p.incoming, p.forkedAt);
    var after := Finish(previous, p.incoming, s.now - p.forkedAt, s.now);
    PromoteKeeps(s, p.roll.slot, p.incoming, p.forkedAt, {p.incoming});
    if previous.None? {
      AccountedMonotone(t, {p.incoming} - {p.incoming} + {}, {});
      AfterStopWaitKeeps(t, p.roll, after, true);
      assert TakeOver(s, offline) == AfterStopWait(t, p.roll, after, true);
    } else {
      AccountedMonotone(t, {p.incoming} - {p.incoming} + {previous.value}, {previous.value});
      PreviousLeaves(s, previous.value);
      StopWorkerKeeps(t, p.roll, previous.value, after, offline);
      assert TakeOver(s, offline) == StopWorker(t, p.roll, previous.value, after, offline);
    }
  }

  lemma PreviousLeaves(s: State, previous: nat)
    requires s.roll.AwaitReady? && RollAgrees(s) && Core(s, {s.roll.incoming})
    requires s.slots[s.roll.roll.slot].worker == Some(previous)
    ensures var t := Promote(s, s.roll.roll.slot, s.roll.incoming, s.roll.forkedAt);
            && previous in t.live && t.live[previous] == s.roll.roll.slot
            && !t.Serving(previous) && previous < t.nextWorker
  {
  }

  // ── Every step keeps it ──

  lemma ReadyEventKeeps(s: State, w: nat, offline: set<nat>)
    requires Inv(s) && w in s.live
    ensures Inv(ReadyEvent(s, w, offline))
  {
    OnReadyKeeps(s, w, RollWorkers(s.roll));
    var t := OnReady(s.(reported := s.reported + {w}), w);
    assert forall v :: t.Serving(v) <==> s.Serving(v);
    if t.roll.AwaitReady? && t.roll.incoming == w { AfterReadyWaitKeeps(t, None, offline); }
  }

  lemma ExitEventKeeps(s: State, w: nat, offline: set<nat>)
    requires Inv(s) && w in s.live
    ensures Inv(ExitEvent(s, w, offline))
  {
    var t := OnExit(s, w);
    OnExitKeeps(s, w, RollWorkers(s.roll));
    OnExitStops(s, w);
    if w in RollWorkers(s.roll) {
      AccountedMonotone(t, RollWorkers(s.roll) - {w}, {});
      if t.roll.AwaitReady? {
        AccountedMonotone(t, {}, {w});
        AfterReadyWaitKeeps(t, Some(ExitedBeforeReady), offline);
      } else {
        AfterStopWaitKeeps(t, t.roll.roll, t.roll.after, !t.roll.killed);
      }
    } else {
      assert RollWorkers(s.roll) - {w} == RollWorkers(t.roll);
      assert forall v :: v != w && t.Serving(v) ==> s.Serving(v);
    }
  }

  lemma OnExitStops(s: State, w: nat)
    requires Core(s, RollWorkers(s.roll)) && StopAgrees(s) && w in s.live
    ensures StopAgrees(OnExit(s, w))
  {
  }

  lemma RestartTimerKeeps(s: State, i: nat)
    requires Inv(s) && Enabled(s, RestartTimer(i))
    ensures Inv(RestartTimerFired(s, i))
  {
    var t := s.(slots := s.slots[i := s.slots[i].(restartTimer := None)]);
    var extra := RollWorkers(s.roll);
    assert !s.Stopping() && s.slots[i].worker.None?;
    assert Accounted(t, extra) by {
      forall w | w in t.live
        ensures t.Serving(w) || w in extra || w in t.killed
      {
        assert s.Serving(w) || w in extra || w in s.killed;
      }
    }
    StartInSlotKeeps(t, i, extra);
    RestartServesOnlyTheNew(s, i);
  }

  lemma RestartServesOnlyTheNew(s: State, i: nat)
    requires Inv(s) && Enabled(s, RestartTimer(i))
    ensures var u := RestartTimerFired(s, i); RollAgrees(u) && StopAgrees(u)
  {
    var u := RestartTimerFired(s, i);
    assert !s.Stopping() && s.slots[i].worker.None?;
    assert forall w :: w in s.live ==> (u.Serving(w) <==> s.Serving(w));
  }

  lemma RollTimerKeeps(s: State, offline: set<nat>)
    requires Inv(s) && Enabled(s, RollTimer(offline))
    ensures Inv(RollTimerFired(s, offline))
  {
    if s.roll.AwaitReady? {
      AfterReadyWaitKeeps(s, Some(ReadyTimeout), offline);
    } else if s.roll.killed {
      AccountedMonotone(s, {s.roll.target}, {});
      AfterStopWaitKeeps(s, s.roll.roll, s.roll.after, false);
    } else {
      var t := RollTimerFired(s, offline);
      forall w | w in t.live ensures t.Serving(w) || w in {s.roll.target} || w in t.killed {
        assert s.Serving(w) || w in {s.roll.target} || w in s.killed;
      }
    }
  }

  lemma RollRequestKeeps(s: State, id: nat)
    requires Inv(s)
    ensures Inv(RollingRestart(s, id))
  {
    var rejected := RejectReasonOf(s);
    if rejected.Some? {
      CoreIgnoresRoll(s, s.roll, s.replies + [Rejected(id, rejected.value)], RollWorkers(s.roll));
    } else {
      var accepted := Accepted(id, |s.slots|, RollTimeoutMs(s));
      ReplyKeeps(s, accepted);
      RollSlotKeeps(SendReply(s, accepted), Roll(id, 0, s.now));
    }
  }

  lemma ShutdownKeeps(s: State, offline: set<nat>)
    requires Inv(s)
    ensures Inv(Shutdown(s, offline))
  {
    if !s.Stopping() {
      var extra := RollWorkers(s.roll);
      var slots := WithoutTimers(s.slots);
      var stop := if s.live == map[] then Settling(s.now + KILL_SETTLE_MS) else Draining(s.now + s.config.deadlineMs);
      var t := s.(slots := slots, stop := stop);
      assert Core(t, extra) by {
        forall w | w in t.live
          ensures t.Serving(w) || w in extra || w in t.killed
        {
          assert s.Serving(w) || w in extra || w in s.killed;
        }
      }
      if s.live != map[] {
        TellAllKeeps(t, 0, offline, extra);
        TellAllIgnoresStop(s.(slots := slots), stop, 0, offline);
        var u := TellAllFrom(t, 0, offline);
        assert forall w :: u.Serving(w) <==> s.Serving(w);
      } else {
        assert forall w :: t.Serving(w) <==> s.Serving(w);
      }
    }
  }

  lemma TellAllIgnoresStop(s: State, stop: StopPhase, w: nat, offline: set<nat>)
    ensures TellAllFrom(s, w, offline).(stop := stop) == TellAllFrom(s.(stop := stop), w, offline)
    decreases s.nextWorker - w
  {
    if w < s.nextWorker {
      TellAllIgnoresStop(if w in s.live then TellToStop(s, w, offline) else s, stop, w + 1, offline);
    }
  }

  lemma ShutdownTimerKeeps(s: State)
    requires Inv(s) && Enabled(s, ShutdownTimer)
    ensures Inv(ShutdownTimerFired(s))
  {
    var t := ShutdownTimerFired(s);
    var extra := RollWorkers(s.roll);
    forall w | w in t.live
      ensures t.Serving(w) || w in extra || w in t.killed
    {
      assert s.Serving(w) || w in extra || w in s.killed;
    }
  }

  lemma StepKeepsInv(s: State, e: Event)
    requires Inv(s) && Enabled(s, e)
    ensures Inv(Step(s, e))
  {
    match e
    case Tick(ms) =>
      var t := s.(now := s.now + ms);
      forall w | w in t.live ensures t.Serving(w) || w in RollWorkers(t.roll) || w in t.killed {
        assert s.Serving(w) || w in RollWorkers(s.roll) || w in s.killed;
      }
    case WorkerReady(w, offline) => ReadyEventKeeps(s, w, offline);
    case WorkerExit(w, offline) => ExitEventKeeps(s, w, offline);
    case RestartTimer(i) => RestartTimerKeeps(s, i);
    case RollTimer(offline) => RollTimerKeeps(s, offline);
    case RollRequest(id) => RollRequestKeeps(s, id);
    case ShutdownRequest(offline) => ShutdownKeeps(s, offline);
    case ShutdownTimer => ShutdownTimerKeeps(s);
    case RollSettled =>
      var t := ExitPrimary(s);
      forall w | w in t.live ensures t.Serving(w) || w in RollWorkers(t.roll) || w in t.killed {
        assert s.Serving(w) || w in RollWorkers(s.roll) || w in s.killed;
      }
  }
}
