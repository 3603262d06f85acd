/** A replay that does not fail leaves only what missed Redis since it started (src/config/cache.ts). */
module InvalidationReplay {
  import opened InvalidationModel
  import opened InvalidationGate

  /** What is pending is newer than the replay's start `start`, or waits for this replay. */
  ghost predicate ReplayCovers(s: State, start: nat) {
    s.replay.Some? &&
    forall k :: k in s.pending ==>
      || s.pending[k] >= start
      || Entry(k, s.pending[k]) in s.replay.value.remaining
      || exists c :: c in s.replay.value.waiting && c.entry == Entry(k, s.pending[k])
  }

  /** A replay starts with everything that is pending. */
  lemma ReplayStartsWithAll(s: State, batch: set<Entry>)
    requires Inv(s) && Enabled(s, GateAsked(batch)) && s.pending != map[] && ReplayDue(s)
    ensures ReplayCovers(AskGate(s, batch), s.clock)
  {
    var t := AskGate(s, batch);
    assert Entries(s.pending) != {} by {
      var k :| k in s.pending;
      assert Entry(k, s.pending[k]) in Entries(s.pending);
    }
    forall k | k in t.pending
      ensures Entry(k, t.pending[k]) in t.replay.value.remaining
              || exists c :: c in t.replay.value.waiting && c.entry == Entry(k, t.pending[k])
    {
      var entry := Entry(k, t.pending[k]);
      assert entry in Entries(s.pending);
      if entry in batch { assert Command(entry, s.clock) in t.replay.value.waiting; }
    }
  }

  /**
   * Each success of the replay keeps the promise, and the success that ends
   * it leaves nothing pending but bumps that missed Redis since it started.
   */
  lemma ReplaySuccessProgresses(s: State, c: Command, next: set<Entry>, start: nat)
    requires Inv(s) && Enabled(s, ReplayAnswered(c, true, next))
    requires ReplayCovers(s, start) && c in s.replay.value.waiting
    requires start <= s.clock
    ensures var t := AnswerReplay(s, c, true, next);
      if t.replay.Some? then ReplayCovers(t, start) else forall k :: k in t.pending ==> t.pending[k] >= start
  {
    var t := AnswerReplay(s, c, true, next);
    var r := s.replay.value;
    forall k | k in t.pending && t.pending[k] < start
      ensures t.replay.Some? &&
        (|| Entry(k, t.pending[k]) in t.replay.value.remaining
         || exists d :: d in t.replay.value.waiting && d.entry == Entry(k, t.pending[k]))
    {
      var entry := Entry(k, t.pending[k]);
      assert k in s.pending && s.pending[k] == t.pending[k] && entry != c.entry;
      if entry in r.remaining {
        if r.waiting == {c} && entry in next { assert Command(entry, s.clock) in t.replay.value.waiting; }
      } else {
        var d :| d in r.waiting && d.entry == entry;
        assert d in r.waiting - {c};
      }
    }
  }

  /** Bumps that miss Redis meanwhile do not disturb it. */
  lemma MissKeepsReplay(s: State, key: nat, start: nat)
    requires Inv(s) && ReplayCovers(s, start) && start <= s.clock
    ensures ReplayCovers(Remember(s, key), start)
  {
    var t := Remember(s, key);
    forall k | k in t.pending && t.pending[k] < start
      ensures Entry(k, t.pending[k]) in t.replay.value.remaining
              || exists c :: c in t.replay.value.waiting && c.entry == Entry(k, t.pending[k])
    {
      assert k in s.pending && s.pending[k] == t.pending[k];
    }
  }

  // ── From its start to its end ──

  /** A miss after `start` that was not dropped is pending, or a newer one of its key is. */
  ghost predicate NewStayPending(s: State, start: nat) {
    forall m :: m in s.misses && m !in s.lost && m.token >= start ==> Remembered(s, m)
  }

  /** What is pending was not dropped. */
  ghost predicate PendingNotLost(s: State) {
    forall k :: k in s.pending ==> Entry(k, s.pending[k]) !in s.lost
  }

  /** Whatever this replay or an aborted one still has on its way stands for older entries. */
  ghost predicate OldOnTheWay(s: State, start: nat) {
    && start <= s.clock
    && (forall c :: c in s.outstanding ==> c.entry.token < start)
    && (s.replay.Some? ==> forall entry :: entry in s.replay.value.remaining ==> entry.token < start)
  }

  ghost predicate SinceStart(s: State, start: nat) {
    NewStayPending(s, start) && PendingNotLost(s) && OldOnTheWay(s, start)
  }

  ghost predicate Since(s: State, start: nat) {
    Inv(s) && SinceStart(s, start)
  }

  /** An INCR of the replay in progress fails. */
  predicate Fails(s: State, e: Event) {
    e.ReplayAnswered? && !e.ok && s.replay.Some? && e.command in s.replay.value.waiting
  }

  lemma RememberKeepsSince(s: State, key: nat, start: nat)
    requires Since(s, start)
    ensures Since(Remember(s, key), start)
  {
    RememberKeeps(s, key);
    var t := Remember(s, key);
    forall m | m in t.misses && m !in t.lost && m.token >= start ensures Remembered(t, m) {
      if m in s.misses { assert m in s.lost || Remembered(s, m); }
    }
  }

  /** The answered INCR stood for an older entry, so a newer one of its key stays. */
  lemma AnsweredKeepsSince(s: State, t: State, c: Command, start: nat)
    requires SinceStart(s, start) && c in s.outstanding
    requires t == s.(outstanding := s.outstanding - {c}, successes := t.successes, pending := t.pending)
    requires t.pending == s.pending
      || (c.entry.key in s.pending && s.pending[c.entry.key] == c.entry.token && t.pending == s.pending - {c.entry.key})
    ensures SinceStart(t, start)
  {
    forall m | m in t.misses && m !in t.lost && m.token >= start ensures Remembered(t, m) { assert Remembered(s, m); }
  }

  lemma ReplayMovesSince(s: State, t: State, start: nat)
    requires SinceStart(s, start) && t == s.(replay := t.replay)
    requires t.replay.Some? ==> s.replay.Some? && t.replay.value.remaining <= s.replay.value.remaining
    ensures SinceStart(t, start)
  {
    forall m | m in t.misses && m !in t.lost && m.token >= start ensures Remembered(t, m) { assert Remembered(s, m); }
  }

  lemma SendBatchKeepsSince(s: State, remaining: set<Entry>, batch: set<Entry>, start: nat)
    requires SinceStart(s, start) && batch <= remaining && forall entry :: entry in remaining ==> entry.token < start
    ensures SinceStart(SendBatch(s, remaining, batch), start)
  {
    var t := SendBatch(s, remaining, batch);
    forall m | m in t.misses && m !in t.lost && m.token >= start ensures Remembered(t, m) { assert Remembered(s, m); }
  }

  lemma AnswerKeepsSince(s: State, c: Command, ok: bool, next: set<Entry>, start: nat)
    requires Since(s, start) && Enabled(s, ReplayAnswered(c, ok, next))
    ensures Since(AnswerReplay(s, c, ok, next), start)
  {
    AnswerReplayKeeps(s, c, ok, next);
    var t := s.(outstanding := s.outstanding - {c});
    var inBatch := s.replay.Some? && c in s.replay.value.waiting;
    if !ok {
      AnsweredKeepsSince(s, t, c, start);
      ReplayMovesSince(t, AnswerReplay(s, c, ok, next), start);
    } else {
      var k := c.entry.key;
      var u := t.(successes := t.successes + {Success(k, c.issued)},
                  pending := if k in t.pending && t.pending[k] == c.entry.token then t.pending - {k} else t.pending);
      AnsweredKeepsSince(s, u, c, start);
      if inBatch && s.replay.value.waiting == {c} {
        SendBatchKeepsSince(u, s.replay.value.remaining, next, start);
      } else if inBatch {
        ReplayMovesSince(u, AnswerReplay(s, c, ok, next), start);
      }
    }
  }

  lemma StepKeepsSince(s: State, e: Event, start: nat)
    requires Since(s, start) && s.replay.Some? && Enabled(s, e)
    ensures Since(Step(s, e), start)
  {
    StepKeepsInv(s, e);
    match e
    case BumpWithoutClient(key) => RememberKeepsSince(s, key, start);
    case BumpAnswered(bump, ok) =>
      var t := s.(bumps := s.bumps - {bump});
      MoreSuccessesKeep(s, t);
      assert Since(t, start);
      if !ok { RememberKeepsSince(t, bump.key, start); }
    case ReplayAnswered(c, ok, next) => AnswerKeepsSince(s, c, ok, next, start);
    case _ =>
      var t := Step(s, e);
      forall m | m in t.misses && m !in t.lost && m.token >= start ensures Remembered(t, m) { assert Remembered(s, m); }
  }

  lemma StepKeepsCovers(s: State, e: Event, start: nat)
    requires Since(s, start) && ReplayCovers(s, start) && Enabled(s, e) && !Fails(s, e)
    ensures var t := Step(s, e);
      if t.replay.Some? then ReplayCovers(t, start) else forall k :: k in t.pending ==> t.pending[k] >= start
  {
    match e
    case BumpWithoutClient(key) => MissKeepsReplay(s, key, start);
    case BumpAnswered(bump, ok) =>
      var t := s.(bumps := s.bumps - {bump});
      MoreSuccessesKeep(s, t);
      if !ok { MissKeepsReplay(t, bump.key, start); }
    case ReplayAnswered(c, ok, next) =>
      if ok && c in s.replay.value.waiting { ReplaySuccessProgresses(s, c, next, start); }
    case _ =>
  }

  /** The replay that runs in `s` ends with the last of the events, and none of its INCRs fails. */
  ghost predicate Succeeds(s: State, events: seq<Event>)
    decreases |events|
  {
    s.replay.Some? && events != [] &&
    if !Enabled(s, events[0]) then Succeeds(s, events[1..])
    else
      !Fails(s, events[0]) &&
      var t := Step(s, events[0]);
      if t.replay.None? then events[1..] == [] else Succeeds(t, events[1..])
  }

  lemma {:induction false} RunToTheEnd(s: State, events: seq<Event>, start: nat)
    requires Since(s, start) && ReplayCovers(s, start) && Succeeds(s, events)
    ensures var u := Run(s, events); Since(u, start) && forall k :: k in u.pending ==> u.pending[k] >= start
    decreases |events|
  {
    if !Enabled(s, events[0]) {
      RunToTheEnd(s, events[1..], start);
    } else {
      var t := Step(s, events[0]);
      StepKeepsSince(s, events[0], start);
      StepKeepsCovers(s, events[0], start);
      if t.replay.Some? { RunToTheEnd(t, events[1..], start); }
    }
  }

  lemma {:induction false} RunKeepsPendingNotLost(events: seq<Event>, s: State)
    requires Inv(s) && PendingNotLost(s)
    ensures PendingNotLost(Run(s, events))
    decreases |events|
  {
    if events != [] {
      if Enabled(s, events[0]) {
        StepKeepsInv(s, events[0]);
        StepKeepsPendingNotLost(s, events[0]);
      }
      RunKeepsPendingNotLost(events[1..], if Enabled(s, events[0]) then Step(s, events[0]) else s);
    }
  }

  lemma StepKeepsPendingNotLost(s: State, e: Event)
    requires Inv(s) && PendingNotLost(s) && Enabled(s, e)
    ensures PendingNotLost(Step(s, e))
  {
  }

  /** The bump missed Redis after `start`, and was not dropped. */
  predicate MissedSince(s: State, key: nat, start: nat) {
    exists m :: m in s.misses && m !in s.lost && m.key == key && m.token >= start
  }

  /**
   * A replay none of whose INCRs fails ends, whatever else happens meanwhile,
   * with exactly those keys pending that missed Redis since it started and were
   * not dropped on overflow.
   */
  lemma ReplayLeavesWhatMissedSince(before: seq<Event>, batch: set<Entry>, events: seq<Event>, key: nat)
    requires var s := Run(INITIAL, before); Enabled(s, GateAsked(batch)) && s.replay.None?
    requires Succeeds(Step(Run(INITIAL, before), GateAsked(batch)), events)
    ensures var s := Run(INITIAL, before);
      var u := Run(Step(s, GateAsked(batch)), events);
      key in u.pending <==> MissedSince(u, key, s.clock)
  {
    var s := Run(INITIAL, before);
    RunKeepsInv(INITIAL, before);
    RunKeepsPendingNotLost(before, INITIAL);
    var t := Step(s, GateAsked(batch));
    StartOfReplay(s, batch);
    RunToTheEnd(t, events, s.clock);
    var u := Run(t, events);
    if key in u.pending { assert Entry(key, u.pending[key]) in u.misses && Entry(key, u.pending[key]) !in u.lost; }
  }

  lemma StartOfReplay(s: State, batch: set<Entry>)
    requires Inv(s) && PendingNotLost(s) && s.replay.None? && Enabled(s, GateAsked(batch))
    requires Step(s, GateAsked(batch)).replay.Some?
    ensures var t := Step(s, GateAsked(batch)); Since(t, s.clock) && ReplayCovers(t, s.clock)
  {
    AskGateKeeps(s, batch);
    ReplayStartsWithAll(s, batch);
    var t := AskGate(s, batch);
    forall m | m in t.misses ensures m.token < s.clock { assert m in s.misses; }
  }

  // ── When reads come back ──

  /** Without a drop there is no pause, and with one it is no longer than the longest lifetime sent. */
  ghost predicate PauseIsBounded(s: State) {
    && (s.lost == {} ==> !s.dropped && s.pausedUntil == 0)
    && s.pausedUntil <= s.now + s.longestTtlSeconds * 1000
  }

  lemma StepKeepsPause(s: State, e: Event)
    requires Inv(s) && PauseIsBounded(s) && Enabled(s, e)
    ensures PauseIsBounded(Step(s, e))
  {
    if e.BumpWithoutClient? { assert Entry(e.key, s.clock) in Remember(s, e.key).misses; }
    if e.BumpAnswered? && !e.ok {
      var t := s.(bumps := s.bumps - {e.bump});
      assert Entry(e.bump.key, s.clock) in Remember(t, e.bump.key).misses;
    }
  }

  lemma {:induction false} RunKeepsPause(s: State, events: seq<Event>)
    requires Inv(s) && PauseIsBounded(s)
    ensures PauseIsBounded(Run(s, events)) && Inv(Run(s, events))
    decreases |events|
  {
    if |events| > 0 {
      if Enabled(s, events[0]) {
        StepKeepsInv(s, events[0]);
        StepKeepsPause(s, events[0]);
      }
      RunKeepsPause(if Enabled(s, events[0]) then Step(s, events[0]) else s, events[1..]);
    }
  }

  /** As long as no invalidation has missed Redis, cached reads are allowed. */
  lemma AllowedWhileNothingMissed(events: seq<Event>)
    ensures Run(INITIAL, events).misses == {} ==> ReadsAllowed(Run(INITIAL, events))
  {
    RunKeepsPause(INITIAL, events);
    var s := Run(INITIAL, events);
    if s.misses == {} {
      assert forall k :: k in s.pending ==> Entry(k, s.pending[k]) in s.misses;
    }
  }

  /**
   * Without drops the gate says yes exactly when nothing is pending. After a drop, asking turns it into a
   * pause, and nothing being pending the gate says yes the longest lifetime later.
   */
  lemma AllowedOnceMadeGood(events: seq<Event>, batch: set<Entry>, ms: nat)
    requires Enabled(Run(INITIAL, events), GateAsked(batch))
    ensures var s := Run(INITIAL, events);
      var asked := Step(s, GateAsked(batch));
      && (s.lost == {} ==> (ReadsAllowed(s) <==> s.pending == map[]))
      && !asked.dropped && asked.pending == s.pending
      && (s.pending == map[] && ms >= s.longestTtlSeconds * 1_000 ==> ReadsAllowed(Step(asked, Tick(ms))))
  {
    RunKeepsPause(INITIAL, events);
  }

  /**
   * A replay none of whose INCRs fails brings cached reads back as soon as it ends, unless
   * a bump has missed Redis since it started or some were dropped.
   */
  lemma ReplayBringsReadsBack(before: seq<Event>, batch: set<Entry>, events: seq<Event>)
    requires var s := Run(INITIAL, before); Enabled(s, GateAsked(batch)) && s.replay.None?
    requires Succeeds(Step(Run(INITIAL, before), GateAsked(batch)), events)
    ensures var s := Run(INITIAL, before);
      var u := Run(Step(s, GateAsked(batch)), events);
      u.lost == {} && (forall m :: m in u.misses ==> m.token < s.clock) ==> ReadsAllowed(u)
  {
    var s := Run(INITIAL, before);
    var t := Step(s, GateAsked(batch));
    var u := Run(t, events);
    RunKeepsPause(INITIAL, before);
    StepKeepsInv(s, GateAsked(batch));
    StepKeepsPause(s, GateAsked(batch));
    RunKeepsPause(t, events);
    forall key | key in u.pending ensures MissedSince(u, key, s.clock) {
      ReplayLeavesWhatMissedSince(before, batch, events, key);
    }
  }
}
