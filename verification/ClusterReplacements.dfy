/**
 * How a rolling restart replaces one worker, step by step, and what it answers
 * (roll, replaceSlot and stopWorker of src/config/inapp-cluster-primary.ts).
 */
module ClusterReplacements {
  import opened Common
  import opened ClusterModel
  import opened ClusterProofs
  import opened ClusterTheorems

  // ── What the head of the loop does ──

  /** The roll ends with `failed` for this reason, having said `said` before. */
  ghost predicate FailsWith(s: State, t: State, r: Roll, said: seq<Reply>, reason: FailReason) {
    && t.replies == said + [Failed(r.id, reason, r.slot, r.slot, s.now - r.startedAt)]
    && t.roll == NoRoll
  }

  /**
   * After `said` the roll turns to its slot: it has succeeded when there is none left; it fails when the
   * primary stops or the slot is not ready; otherwise it forks the replacement and
   * gives it the ready timeout.
   */
  ghost predicate GoesOn(s: State, t: State, r: Roll, said: seq<Reply>) {
    if r.slot >= |s.slots| then
      && t.replies == said + [Succeeded(r.id, |s.slots|, s.now - r.startedAt)]
      && t.roll == NoRoll
    else if s.Stopping() then FailsWith(s, t, r, said, CutByShutdown)
    else if !s.slots[r.slot].ready then FailsWith(s, t, r, said, SlotNotReady)
    else
      && t.replies == said
      && t.roll == AwaitReady(r, s.nextWorker, s.now, s.now + s.config.readyTimeoutMs)
      && s.nextWorker in t.live && t.live[s.nextWorker] == r.slot
  }

  lemma RollSlotGoesOn(s: State, r: Roll)
    ensures GoesOn(s, RollSlot(s, r), r, s.replies)
  {
  }

  /** Only what the loop looks at matters. */
  ghost predicate LooksLike(s: State, u: State) {
    && u.slots == s.slots && u.nextWorker == s.nextWorker && u.config == s.config && u.now == s.now
    && (u.Stopping() <==> s.Stopping())
  }

  lemma GoesOnAlike(s: State, u: State, t: State, r: Roll, said: seq<Reply>)
    requires LooksLike(s, u) && GoesOn(u, t, r, said)
    ensures GoesOn(s, t, r, said)
  {
  }

  /** A request that is not rejected starts with slot 0, and announces the time all slots may take. */
  lemma AcceptedRollBegins(s: State, id: nat)
    requires !s.Stopping() && s.roll.NoRoll? && forall i :: 0 <= i < |s.slots| ==> s.slots[i].ready
    ensures var timeoutMs := |s.slots| * (s.config.readyTimeoutMs + (s.config.deadlineMs + 1_000));
      GoesOn(s, Step(s, RollRequest(id)), Roll(id, 0, s.now), s.replies + [Accepted(id, |s.slots|, timeoutMs)])
  {
    RollSlotGoesOn(SendReply(s, Accepted(id, |s.slots|, RollTimeoutMs(s))), Roll(id, 0, s.now));
  }

  // ── While the replacement starts ──

  /** A worker was told to stop, unless its channel is closed. */
  predicate IsTold(t: State, w: nat, offline: set<nat>) { w in t.told || w in offline }

  lemma ReadyKeepsRoll(s: State, w: nat)
    requires Inv(s) && w in s.live && !s.Serving(w)
    ensures OnReady(s.(reported := s.reported + {w}), w) == s.(reported := s.reported + {w})
  {
  }

  lemma StopWorkerWaits(s: State, r: Roll, w: nat, after: AfterStop, offline: set<nat>)
    requires r.slot < |s.slots| && w in s.live
    ensures var t := StopWorker(s, r, w, after, offline);
      && t == s.(roll := AwaitExit(r, w, false, after, s.now + s.config.deadlineMs), told := t.told, sent := t.sent)
      && IsTold(t, w, offline)
  {
  }

  lemma TakeOverWaits(s: State, offline: set<nat>)
    requires Inv(s) && s.roll.AwaitReady? && s.slots[s.roll.roll.slot].worker.Some?
    ensures var r, w := s.roll.roll, s.roll.incoming;
      var previous := s.slots[r.slot].worker;
      var t := TakeOver(s, offline);
      && t.replies == s.replies && IsTold(t, previous.value, offline)
      && t.roll == AwaitExit(r, previous.value, false, Finish(previous, w, s.now - s.roll.forkedAt, s.now),
                             s.now + s.config.deadlineMs)
  {
    hide StopWorker;
    var p := s.roll;
    var previous := s.slots[p.roll.slot].worker;
    var after := Finish(previous, p.incoming, s.now - p.forkedAt, s.now);
    StopWorkerWaits(Promote(s, p.roll.slot, p.incoming, p.forkedAt), p.roll, previous.value, after, offline);
  }

  lemma TakeOverOfEmpty(s: State, offline: set<nat>)
    requires Inv(s) && s.roll.AwaitReady? && s.slots[s.roll.roll.slot].worker.None?
    ensures var r, w := s.roll.roll, s.roll.incoming;
      GoesOn(s, TakeOver(s, offline), r.(slot := r.slot + 1),
             s.replies + [SlotReplaced(r.id, r.slot, None, w, s.now - s.roll.forkedAt, 0, false)])
  {
    hide RollSlot;
    var p := s.roll;
    var v := Promote(s, p.roll.slot, p.incoming, p.forkedAt);
    var said := SendReply(v, SlotReplaced(p.roll.id, p.roll.slot, None, p.incoming, s.now - p.forkedAt, 0, false));
    RollSlotGoesOn(said, p.roll.(slot := p.roll.slot + 1));
    assert TakeOver(s, offline) == RollSlot(said, p.roll.(slot := p.roll.slot + 1));
  }

  /**
   * A replacement that reports ready takes over at once: it serves the slot, ready, with the
   * time it was forked and without a backoff or an armed restart. The worker it
   * replaces, if any, is told to stop and has until the deadline.
   */
  lemma ReadyReplacementTakesOver(s: State, offline: set<nat>)
    requires Inv(s) && s.roll.AwaitReady? && !s.Stopping()
    ensures var r, w := s.roll.roll, s.roll.incoming;
      var previous := s.slots[r.slot].worker;
      var t := Step(s, WorkerReady(w, offline));
      && t.slots == s.slots[r.slot := Slot(Some(w), s.roll.forkedAt, true, None, None)]
      && (previous.Some? ==>
            && t.replies == s.replies && IsTold(t, previous.value, offline)
            && t.roll == AwaitExit(r, previous.value, false, Finish(previous, w, s.now - s.roll.forkedAt, s.now),
                                   s.now + s.config.deadlineMs))
      && (previous.None? ==>
            GoesOn(s, t, r.(slot := r.slot + 1),
                   s.replies + [SlotReplaced(r.id, r.slot, None, w, s.now - s.roll.forkedAt, 0, false)]))
  {
    var p := s.roll;
    var u := s.(reported := s.reported + {p.incoming});
    ReadyKeepsRoll(s, p.incoming);
    OnReadyKeeps(s, p.incoming, RollWorkers(s.roll));
    ReportKeepsInv(s, p.incoming);
    assert Step(s, WorkerReady(p.incoming, offline)) == TakeOver(u, offline);
    hide TakeOver, GoesOn;
    TakeOverFrame(u, offline);
    if s.slots[p.roll.slot].worker.Some? {
      TakeOverWaits(u, offline);
    } else {
      TakeOverOfEmpty(u, offline);
      var r := p.roll;
      GoesOnAlike(s, u, TakeOver(u, offline), r.(slot := r.slot + 1),
                  s.replies + [SlotReplaced(r.id, r.slot, None, p.incoming, s.now - p.forkedAt, 0, false)]);
    }
  }

  lemma ReportKeepsInv(s: State, w: nat)
    requires Inv(s) && w in s.live && Core(s.(reported := s.reported + {w}), RollWorkers(s.roll))
    ensures Inv(s.(reported := s.reported + {w}))
  {
    var u := s.(reported := s.reported + {w});
    assert forall v :: u.Serving(v) <==> s.Serving(v);
  }

  /** One that reports ready to a primary that stops is stopped again; the roll was cut by the shutdown. */
  lemma ReadyReplacementOfStopping(s: State, offline: set<nat>)
    requires Inv(s) && s.roll.AwaitReady? && s.Stopping()
    ensures var r, w := s.roll.roll, s.roll.incoming;
      var t := Step(s, WorkerReady(w, offline));
      && t.slots == s.slots && t.replies == s.replies && IsTold(t, w, offline)
      && t.roll == AwaitExit(r, w, false, Abandon(None), s.now + s.config.deadlineMs)
  {
    ReadyKeepsRoll(s, s.roll.incoming);
    var u := s.(reported := s.reported + {s.roll.incoming});
    StopWorkerWaits(u, s.roll.roll, s.roll.incoming, Abandon(None), offline);
  }

  /** One that does not report in time is told to stop; the slot keeps its worker. */
  lemma LateReplacementIsStopped(s: State, offline: set<nat>)
    requires Inv(s) && s.roll.AwaitReady? && Enabled(s, RollTimer(offline))
    ensures var r, w := s.roll.roll, s.roll.incoming;
      var t := Step(s, RollTimer(offline));
      && t.slots == s.slots && t.replies == s.replies && IsTold(t, w, offline)
      && t.roll == AwaitExit(r, w, false, Abandon(Some(ReadyTimeout)), s.now + s.config.deadlineMs)
  {
    StopWorkerWaits(s, s.roll.roll, s.roll.incoming, Abandon(Some(ReadyTimeout)), offline);
  }

  /** One that exits first ends the roll; the slot keeps its worker. */
  lemma DeadReplacementFails(s: State, offline: set<nat>)
    requires Inv(s) && s.roll.AwaitReady?
    ensures var t := Step(s, WorkerExit(s.roll.incoming, offline));
      && t.slots == s.slots
      && FailsWith(s, t, s.roll.roll, s.replies, if s.Stopping() then CutByShutdown else ExitedBeforeReady)
  {
    var w := s.roll.incoming;
    var u := OnExit(s, w);
    IdleExit(s, w);
    StoppedReplacementFails(u, s.roll.roll, w, ExitedBeforeReady, offline);
    assert Step(s, WorkerExit(w, offline)) == StopWorker(u, s.roll.roll, w, Abandon(Some(ExitedBeforeReady)), offline);
  }

  lemma StoppedReplacementFails(s: State, r: Roll, w: nat, reason: FailReason, offline: set<nat>)
    requires r.slot < |s.slots| && w !in s.live
    ensures var t := StopWorker(s, r, w, Abandon(Some(reason)), offline);
      t.slots == s.slots && FailsWith(s, t, r, s.replies, if s.Stopping() then CutByShutdown else reason)
  {
  }

  /** The exit of a worker that does not serve changes no slot. */
  lemma IdleExit(s: State, w: nat)
    requires Inv(s) && w in s.live && !s.Serving(w)
    ensures var u := OnExit(s, w); u == s.(live := s.live - {w}, stop := u.stop) && (u.Stopping() <==> s.Stopping())
  {
  }

  // ── While a worker stops ──

  /** A worker still there at the deadline is killed, and has one more second. */
  lemma DeadlineKills(s: State, offline: set<nat>)
    requires Inv(s) && s.roll.AwaitExit? && !s.roll.killed && Enabled(s, RollTimer(offline))
    ensures var t := Step(s, RollTimer(offline));
      t == s.(killed := s.killed + {s.roll.target}, roll := s.roll.(killed := true, due := s.now + 1_000))
  {
  }

  /** The event ends the wait for the worker that stops: its exit, or the second timer. */
  predicate EndsStop(s: State, e: Event) {
    s.roll.AwaitExit? && ((e.WorkerExit? && e.worker == s.roll.target) || (e.RollTimer? && s.roll.killed))
  }

  /** Who replaced whom, how long it took to be ready and the other to stop, and whether that had to be killed. */
  function ReplacedReply(s: State): Reply
    requires s.roll.AwaitExit? && s.roll.after.Finish?
  {
    var after := s.roll.after;
    SlotReplaced(s.roll.roll.id, s.roll.roll.slot, after.previous, after.incoming,
                 after.readyMs, s.now - after.stopStartedAt, s.roll.killed)
  }

  /** What follows a stop. */
  ghost predicate Concludes(s: State, t: State) {
    s.roll.AwaitExit? && s.roll.roll.slot < |s.slots| &&
    var r := s.roll.roll;
    match s.roll.after
    case Abandon(reason) =>
      FailsWith(s, t, r, s.replies, if s.Stopping() || reason.None? then CutByShutdown else reason.value)
    case Finish(_, incoming, _, _) =>
      if s.slots[r.slot].worker != Some(incoming) then FailsWith(s, t, r, s.replies, ReplacementExited)
      else
        GoesOn(s, t, r.(slot := r.slot + 1), s.replies + [ReplacedReply(s)])
  }

  lemma AfterStopConcludes(s: State)
    requires s.roll.AwaitExit? && s.roll.roll.slot < |s.slots|
    ensures Concludes(s, AfterStopWait(s, s.roll.roll, s.roll.after, !s.roll.killed))
  {
    var r := s.roll.roll;
    if s.roll.after.Finish? && s.slots[r.slot].worker == Some(s.roll.after.incoming) {
      hide RollSlot, GoesOn;
      var u := SendReply(s, ReplacedReply(s));
      RollSlotGoesOn(u, r.(slot := r.slot + 1));
      GoesOnAlike(s, u, RollSlot(u, r.(slot := r.slot + 1)), r.(slot := r.slot + 1), u.replies);
    }
  }

  lemma ConcludesAlike(s: State, u: State, t: State)
    requires LooksLike(s, u) && u.roll == s.roll && u.replies == s.replies && Concludes(u, t)
    ensures Concludes(s, t)
  {
    hide GoesOn;
    var r := s.roll.roll;
    if s.roll.after.Finish? && s.slots[r.slot].worker == Some(s.roll.after.incoming) {
      GoesOnAlike(s, u, t, r.(slot := r.slot + 1), s.replies + [ReplacedReply(s)]);
    }
  }

  /**
   * When the worker that stops is gone, or has been killed and its second is over: a replacement
   * that was given up ends the roll with the reason it was given up for; one that serves ends its slot, with who
   * replaced whom, how long it took to be ready and the other to stop, and whether that
   * was killed; one that exited meanwhile ends the roll. Then the next slot is due.
   */
  lemma StopConcludes(s: State, e: Event)
    requires Inv(s) && Enabled(s, e) && EndsStop(s, e)
    ensures Concludes(s, Step(s, e))
  {
    hide Concludes, AfterStopWait;
    if e.RollTimer? {
      AfterStopConcludes(s);
      assert Step(s, e) == AfterStopWait(s, s.roll.roll, s.roll.after, !s.roll.killed);
    } else {
      var u := OnExit(s, e.worker);
      IdleExit(s, e.worker);
      AfterStopConcludes(u);
      assert Step(s, e) == AfterStopWait(u, u.roll.roll, u.roll.after, !u.roll.killed);
      ConcludesAlike(s, u, Step(s, e));
    }
  }

  /** Nothing else moves the roll or answers. */
  lemma OthersLeaveRollAlone(s: State, e: Event)
    requires Inv(s) && Enabled(s, e) && !e.RollRequest? && !e.RollTimer?
    requires e.WorkerReady? || e.WorkerExit? ==> e.worker !in RollWorkers(s.roll)
    ensures Step(s, e).roll == s.roll && Step(s, e).replies == s.replies
  {
    match e
    case ShutdownRequest(offline) => TellAllOnlyTells(s.(slots := WithoutTimers(s.slots)), 0, offline);
    case WorkerReady(w, _) => assert Step(s, e) == OnReady(s.(reported := s.reported + {w}), w);
    case WorkerExit(w, _) => assert Step(s, e) == OnExit(s, w);
    case _ =>
  }
}
