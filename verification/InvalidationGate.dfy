/** Why the gate of cached reads loses no invalidation (src/config/cache.ts). */
module InvalidationGate {
  import opened Common
  import opened InvalidationModel

  // ── The invariant ──

  /** A later INCR of the key of `miss` succeeded. */
  ghost predicate Repaired(s: State, miss: Entry) {
    exists ok :: ok in s.successes && ok.key == miss.key && ok.issued > miss.token
  }

  ghost predicate Remembered(s: State, miss: Entry) {
    miss.key in s.pending && s.pending[miss.key] >= miss.token
  }

  ghost predicate NumbersSound(s: State) {
    && (forall m :: m in s.misses ==> m.token < s.clock)
    && (forall k :: k in s.pending ==> Entry(k, s.pending[k]) in s.misses)
    && (forall c :: c in s.outstanding ==> c.entry.token < c.issued < s.clock)
    && (s.replay.Some? ==> forall entry :: entry in s.replay.value.remaining ==> entry.token < s.clock)
    && s.lost <= s.misses
  }

  ghost predicate NothingForgotten(s: State) {
    forall m :: m in s.misses ==> m in s.lost || Repaired(s, m) || Remembered(s, m)
  }

  /** Every stored value expires within the longest lifetime sent. */
  ghost predicate LifetimesSound(s: State) {
    && (forall ttl :: ttl in s.sets ==> ttl <= s.longestTtlSeconds)
    && (forall v :: v in s.written ==> v.no < s.clock && v.expiresAt <= s.now + s.longestTtlSeconds * 1000)
  }

  /** Values stored before a lost miss expire before reads come back. */
  ghost predicate PauseSound(s: State) {
    !s.dropped ==>
      forall m, v :: m in s.lost && v in s.written && v.no < m.token ==> v.expiresAt <= s.pausedUntil
  }

  ghost predicate Inv(s: State) {
    NumbersSound(s) && NothingForgotten(s) && LifetimesSound(s) && PauseSound(s)
  }

  // ── Every step keeps it ──

  lemma RememberKeeps(s: State, key: nat)
    requires Inv(s)
    ensures Inv(Remember(s, key))
  {
    var t := Remember(s, key);
    forall m | m in t.misses ensures m in t.lost || Repaired(t, m) || Remembered(t, m) {
      if m in s.misses {
        assert m in s.lost || Repaired(s, m) || Remembered(s, m);
        if Repaired(s, m) {
          var ok :| ok in s.successes && ok.key == m.key && ok.issued > m.token;
          assert ok in t.successes;
        }
      }
    }
  }

  lemma SendBatchKeeps(s: State, remaining: set<Entry>, batch: set<Entry>)
    requires Inv(s) && batch <= remaining && forall entry :: entry in remaining ==> entry.token < s.clock
    ensures Inv(SendBatch(s, remaining, batch))
  {
    var t := SendBatch(s, remaining, batch);
    forall m | m in t.misses ensures m in t.lost || Repaired(t, m) || Remembered(t, m) {
      assert m in s.lost || Repaired(s, m) || Remembered(s, m);
      if Repaired(s, m) {
        var ok :| ok in s.successes && ok.key == m.key && ok.issued > m.token;
        assert ok in t.successes;
      }
    }
  }

  lemma PauseKeeps(s: State)
    requires Inv(s)
    ensures Inv(PauseIfDropped(s))
  {
    var t := PauseIfDropped(s);
    forall m | m in t.misses ensures m in t.lost || Repaired(t, m) || Remembered(t, m) {
      assert m in s.lost || Repaired(s, m) || Remembered(s, m);
      if Repaired(s, m) {
        var ok :| ok in s.successes && ok.key == m.key && ok.issued > m.token;
        assert ok in t.successes;
      }
    }
  }

  lemma AskGateKeeps(s: State, batch: set<Entry>)
    requires Inv(s) && Enabled(s, GateAsked(batch))
    ensures Inv(AskGate(s, batch))
  {
    PauseKeeps(s);
    var t := PauseIfDropped(s);
    if !(t.pending == map[] || !ReplayDue(t)) {
      var u := t.(lastReplayAt := t.now);
      MoreSuccessesKeep(t, u);
      SendBatchKeeps(u, Entries(t.pending), batch);
    }
  }

  /** A step that adds successes and touches nothing else the invariant reads. */
  lemma MoreSuccessesKeep(s: State, t: State)
    requires Inv(s) && t == s.(successes := t.successes, outstanding := t.outstanding, bumps := t.bumps,
                               replay := t.replay, lastReplayAt := t.lastReplayAt)
    requires s.successes <= t.successes && t.outstanding <= s.outstanding
    requires t.replay.Some? ==> s.replay.Some? && t.replay.value.remaining == s.replay.value.remaining
    ensures Inv(t)
  {
    forall m | m in t.misses ensures m in t.lost || Repaired(t, m) || Remembered(t, m) {
      assert m in s.lost || Repaired(s, m) || Remembered(s, m);
      if Repaired(s, m) {
        var ok :| ok in s.successes && ok.key == m.key && ok.issued > m.token;
        assert ok in t.successes;
      }
    }
  }

  /** The entry of a successful replay goes: what it stood for is repaired by that very INCR. */
  lemma ReplayedEntryKeeps(s: State, c: Command)
    requires Inv(s) && Success(c.entry.key, c.issued) in s.successes && c.entry.token < c.issued
    requires c.entry.key in s.pending && s.pending[c.entry.key] == c.entry.token
    ensures Inv(s.(pending := s.pending - {c.entry.key}))
  {
    var t := s.(pending := s.pending - {c.entry.key});
    assert Success(c.entry.key, c.issued) in t.successes;
    forall m | m in t.misses ensures m in t.lost || Repaired(t, m) || Remembered(t, m) {
      assert m in s.lost || Repaired(s, m) || Remembered(s, m);
      if Repaired(s, m) {
        var ok :| ok in s.successes && ok.key == m.key && ok.issued > m.token;
        assert ok in t.successes;
      }
    }
  }

  lemma AnswerReplayKeeps(s: State, c: Command, ok: bool, next: set<Entry>)
    requires Inv(s) && Enabled(s, ReplayAnswered(c, ok, next))
    ensures Inv(AnswerReplay(s, c, ok, next))
  {
    var inBatch := s.replay.Some? && c in s.replay.value.waiting;
    if !ok {
      MoreSuccessesKeep(s, AnswerReplay(s, c, ok, next));
    } else {
      var k := c.entry.key;
      var t := s.(outstanding := s.outstanding - {c}, successes := s.successes + {Success(k, c.issued)});
      MoreSuccessesKeep(s, t);
      if k in t.pending && t.pending[k] == c.entry.token { ReplayedEntryKeeps(t, c); }
      var u := t.(pending := if k in t.pending && t.pending[k] == c.entry.token then t.pending - {k} else t.pending);
      assert Inv(u);
      if inBatch {
        var r := s.replay.value;
        if r.waiting == {c} {
          SendBatchKeeps(u, r.remaining, next);
          assert AnswerReplay(s, c, ok, next) == SendBatch(u, r.remaining, next);
        } else {
          MoreSuccessesKeep(u, u.(replay := Some(r.(waiting := r.waiting - {c}))));
        }
      }
    }
  }

  lemma QuietStepKeeps(s: State, e: Event)
    requires Inv(s) && Enabled(s, e) && (e.Tick? || e.BumpSent? || e.SetSent? || e.SetApplied?)
    ensures Inv(Step(s, e))
  {
    var t := Step(s, e);
    forall m | m in t.misses ensures m in t.lost || Repaired(t, m) || Remembered(t, m) {
      assert m in s.lost || Repaired(s, m) || Remembered(s, m);
      if Repaired(s, m) {
        var ok :| ok in s.successes && ok.key == m.key && ok.issued > m.token;
        assert ok in t.successes;
      }
    }
    forall v | v in t.written ensures v.no < t.clock && v.expiresAt <= t.now + t.longestTtlSeconds * 1000 {
      if v in s.written { assert v.expiresAt <= s.now + s.longestTtlSeconds * 1000; }
      else { assert e.ttlSeconds <= s.longestTtlSeconds; }
    }
  }

  lemma StepKeepsInv(s: State, e: Event)
    requires Inv(s) && Enabled(s, e)
    ensures Inv(Step(s, e))
  {
    match e
    case BumpWithoutClient(key) => RememberKeeps(s, key);
    case BumpAnswered(bump, ok) =>
      var t := s.(bumps := s.bumps - {bump});
      MoreSuccessesKeep(s, t);
      if ok { MoreSuccessesKeep(t, t.(successes := t.successes + {bump})); } else { RememberKeeps(t, bump.key); }
    case GateAsked(batch) => AskGateKeeps(s, batch);
    case ReplayAnswered(c, ok, next) => AnswerReplayKeeps(s, c, ok, next);
    case _ => QuietStepKeeps(s, e);
  }

  lemma {:induction false} RunKeepsInv(s: State, events: seq<Event>)
    requires Inv(s)
    ensures Inv(Run(s, events))
    decreases |events|
  {
    if events != [] {
      if Enabled(s, events[0]) { StepKeepsInv(s, events[0]); }
      RunKeepsInv(if Enabled(s, events[0]) then Step(s, events[0]) else s, events[1..]);
    }
  }

  // ── No invalidation is lost ──

  /**
   * Whenever cachedReadsAllowed answers true, every earlier bump of this
   * process that missed Redis is made good: a later INCR of its key
   * succeeded, or the bump was dropped on overflow and every value Redis had
   * stored for this process up to that miss has expired. A key may fail again
   * while its replay is in flight; answers of an aborted replay may come late.
   */
  lemma NoInvalidationIsLost(events: seq<Event>)
    ensures var s := Run(INITIAL, events);
      ReadsAllowed(s) ==> forall m :: m in s.misses ==>
        Repaired(s, m) || (m in s.lost && forall v :: v in s.written && v.no < m.token ==> v.expiresAt <= s.now)
  {
    var s := Run(INITIAL, events);
    RunKeepsInv(INITIAL, events);
    PauseKeeps(s);
    var t := PauseIfDropped(s);
    if ReadsAllowed(s) {
      forall m | m in s.misses
        ensures Repaired(s, m) || (m in s.lost && forall v :: v in s.written && v.no < m.token ==> v.expiresAt <= s.now)
      {
        assert m in t.lost || Repaired(t, m) || Remembered(t, m);
        if Repaired(t, m) {
          var ok :| ok in t.successes && ok.key == m.key && ok.issued > m.token;
          assert ok in s.successes;
        }
      }
    }
  }

  /**
   * Nothing is dropped before the limit is reached: a miss is lost only once 10 000
   * other keys were waiting, or after that.
   */
  lemma LostOnlyOnOverflow(s: State, key: nat)
    requires Inv(s) && s.lost == {} && !s.dropped
    ensures Remember(s, key).lost != {} <==> key !in s.pending && |s.pending| >= PENDING_INVALIDATION_LIMIT
    ensures !(key !in s.pending && |s.pending| >= PENDING_INVALIDATION_LIMIT)
            ==> Remembered(Remember(s, key), Entry(key, s.clock))
  {
    assert Entry(key, s.clock) in Remember(s, key).misses;
  }

  /** A key that fails again while its replay is in flight stays pending when the replay succeeds. */
  lemma FailedAgainStaysPending(s: State, c: Command, next: set<Entry>)
    requires Inv(s) && Enabled(s, ReplayAnswered(c, true, next))
    requires c.entry.key in s.pending && s.pending[c.entry.key] != c.entry.token
    ensures var t := AnswerReplay(s, c, true, next);
      c.entry.key in t.pending && t.pending[c.entry.key] == s.pending[c.entry.key] && !ReadsAllowed(t)
  {
  }
}
