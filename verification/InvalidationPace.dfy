/** How often and in what portions missed invalidations are replayed (src/config/cache.ts). */
module InvalidationPace {
  import opened Common
  import opened InvalidationModel

  /** The event starts a replay. */
  predicate Starts(s: State, e: Event) {
    e.GateAsked? && Enabled(s, e) && s.replay.None? && Step(s, e).replay.Some?
  }

  /** Each replay of the run starts at least a second after the one before, the first after `last`. */
  predicate Spaced(s: State, events: seq<Event>, last: int)
    decreases |events|
  {
    |events| == 0 ||
    if !Enabled(s, events[0]) then Spaced(s, events[1..], last)
    else if Starts(s, events[0]) then s.now - last >= 1_000 && Spaced(Step(s, events[0]), events[1..], s.now)
    else Spaced(Step(s, events[0]), events[1..], last)
  }

  lemma StepKeepsLast(s: State, e: Event)
    requires Enabled(s, e) && s.lastReplayAt <= s.now
    ensures var t := Step(s, e);
      && s.now <= t.now
      && t.lastReplayAt == (if Starts(s, e) then s.now else s.lastReplayAt)
      && (Starts(s, e) ==> s.now - s.lastReplayAt >= 1_000)
  {
    if e.GateAsked? && s.pending != map[] {
      var k :| k in s.pending;
      assert Entry(k, s.pending[k]) in Entries(s.pending);
    }
  }

  lemma {:induction false} RunIsSpaced(s: State, events: seq<Event>)
    requires s.lastReplayAt <= s.now
    ensures Spaced(s, events, s.lastReplayAt)
    decreases |events|
  {
    if |events| > 0 {
      if Enabled(s, events[0]) {
        StepKeepsLast(s, events[0]);
        RunIsSpaced(Step(s, events[0]), events[1..]);
      } else {
        RunIsSpaced(s, events[1..]);
      }
    }
  }

  /** In every run, however often cached reads are asked for, replays start at least a second apart. */
  lemma ReplaysAreASecondApart(events: seq<Event>)
    ensures Spaced(INITIAL, events, 0)
  {
    RunIsSpaced(INITIAL, events);
  }

  /** And once a second has passed, asking starts one whenever something is pending and none runs. */
  lemma AskingStartsReplay(s: State, batch: set<Entry>)
    requires Enabled(s, GateAsked(batch)) && s.pending != map[] && s.replay.None? && s.now - s.lastReplayAt >= 1_000
    ensures Starts(s, GateAsked(batch)) && !ReadsAllowed(s)
  {
    var k :| k in s.pending;
    assert Entry(k, s.pending[k]) in Entries(s.pending);
  }

  // ── Batches ──

  lemma CommandsAreFew(batch: set<Entry>, issued: nat)
    ensures |Commands(batch, issued)| <= |batch|
  {
    if batch == {} {
      assert Commands(batch, issued) == {};
    } else {
      var entry :| entry in batch;
      CommandsAreFew(batch - {entry}, issued);
      assert Commands(batch, issued) == Commands(batch - {entry}, issued) + {Command(entry, issued)};
    }
  }

  /** A replay waits for at most 50 INCRs at a time. */
  ghost predicate SmallBatch(s: State) {
    s.replay.Some? ==> |s.replay.value.waiting| <= 50
  }

  lemma SendBatchIsSmall(s: State, remaining: set<Entry>, batch: set<Entry>)
    requires IsBatch(remaining, batch)
    ensures SmallBatch(SendBatch(s, remaining, batch))
  {
    CommandsAreFew(batch, s.clock);
  }

  lemma StepKeepsSmall(s: State, e: Event)
    requires Enabled(s, e) && SmallBatch(s)
    ensures SmallBatch(Step(s, e))
  {
    match e
    case GateAsked(batch) =>
      var t := PauseIfDropped(s);
      SendBatchIsSmall(t.(lastReplayAt := t.now), Entries(t.pending), batch);
    case ReplayAnswered(c, ok, next) => AnswerKeepsSmall(s, c, ok, next);
    case _ =>
  }

  lemma AnswerKeepsSmall(s: State, c: Command, ok: bool, next: set<Entry>)
    requires Enabled(s, ReplayAnswered(c, ok, next)) && SmallBatch(s)
    ensures SmallBatch(AnswerReplay(s, c, ok, next))
  {
    if s.replay.Some? && ok {
      var r, t := s.replay.value, s.(outstanding := s.outstanding - {c});
      var k := c.entry.key;
      var u := t.(successes := t.successes + {Success(k, c.issued)},
                  pending := if k in t.pending && t.pending[k] == c.entry.token then t.pending - {k} else t.pending);
      SendBatchIsSmall(u, r.remaining, next);
      SubsetSize(r.waiting - {c}, r.waiting);
    }
  }

  /** In every run no replay has more than 50 INCRs on their way at once. */
  lemma {:induction false} BatchesAreSmall(s: State, events: seq<Event>)
    requires SmallBatch(s)
    ensures SmallBatch(Run(s, events))
    decreases |events|
  {
    if |events| > 0 {
      if Enabled(s, events[0]) { StepKeepsSmall(s, events[0]); }
      BatchesAreSmall(if Enabled(s, events[0]) then Step(s, events[0]) else s, events[1..]);
    }
  }
}
