/**
 * What the gate of cached reads goes by, told by the events alone: which bumps missed
 * Redis, which INCRs succeeded and which values were stored (src/config/cache.ts).
 */
module InvalidationHistory {
  import opened InvalidationModel
  import opened InvalidationGate

  /** The bump of this event missed Redis: there was no client, or its INCR failed. */
  function Missed(s: State, e: Event): set<Entry>
    requires Enabled(s, e)
  {
    match e
    case BumpWithoutClient(key) => {Entry(key, s.clock)}
    case BumpAnswered(bump, ok) => if ok then {} else {Entry(bump.key, s.clock)}
    case _ => {}
  }

  /** The INCR whose success this event reports: a direct one, or one of a replay. */
  function Succeeded(s: State, e: Event): set<Success>
    requires Enabled(s, e)
  {
    match e
    case BumpAnswered(bump, ok) => if ok then {bump} else {}
    case ReplayAnswered(c, ok, _) => if ok then {Success(c.entry.key, c.issued)} else {}
    case _ => {}
  }

  /** The value Redis stores with this event. */
  function Stored(s: State, e: Event): set<Written>
    requires Enabled(s, e)
  {
    match e
    case SetApplied(ttl) => {Written(s.clock, s.now + ttl * 1_000)}
    case _ => {}
  }

  /** What a whole run did of these. */
  datatype Deeds = Deeds(missed: set<Entry>, succeeded: set<Success>, stored: set<Written>)

  function Done(s: State, events: seq<Event>): Deeds
    decreases |events|
  {
    if |events| == 0 then Deeds({}, {}, {})
    else if !Enabled(s, events[0]) then Done(s, events[1..])
    else
      var later := Done(Step(s, events[0]), events[1..]);
      Deeds(Missed(s, events[0]) + later.missed, Succeeded(s, events[0]) + later.succeeded,
            Stored(s, events[0]) + later.stored)
  }

  /** From `s` to `t` just this was done. */
  ghost predicate Does(s: State, t: State, missed: set<Entry>, succeeded: set<Success>, stored: set<Written>) {
    && t.misses == s.misses + missed
    && t.successes == s.successes + succeeded
    && t.written == s.written + stored
  }

  lemma AnswerDoes(s: State, c: Command, ok: bool, next: set<Entry>)
    requires Enabled(s, ReplayAnswered(c, ok, next))
    ensures Does(s, AnswerReplay(s, c, ok, next), {}, if ok then {Success(c.entry.key, c.issued)} else {}, {})
  {
    assert s.successes + {} == s.successes;
  }

  lemma AskDoes(s: State, batch: set<Entry>)
    ensures Does(s, AskGate(s, batch), {}, {}, {})
  {
  }

  lemma RememberDoes(s: State, key: nat)
    ensures Does(s, Remember(s, key), {Entry(key, s.clock)}, {}, {})
  {
  }

  lemma StepDoes(s: State, e: Event)
    requires Enabled(s, e)
    ensures Does(s, Step(s, e), Missed(s, e), Succeeded(s, e), Stored(s, e))
  {
    match e
    case BumpWithoutClient(key) => RememberDoes(s, key);
    case BumpAnswered(bump, ok) => if !ok { RememberDoes(s.(bumps := s.bumps - {bump}), bump.key); }
    case GateAsked(batch) => AskDoes(s, batch);
    case ReplayAnswered(c, ok, next) => AnswerDoes(s, c, ok, next);
    case Tick(_) =>
    case BumpSent(_) =>
    case SetSent(_) =>
    case SetApplied(_) =>
  }

  lemma {:induction false} RunDoes(s: State, events: seq<Event>)
    ensures var t, done := Run(s, events), Done(s, events);
      && t.misses == s.misses + done.missed
      && t.successes == s.successes + done.succeeded
      && t.written == s.written + done.stored
    decreases |events|
  {
    if |events| > 0 {
      if Enabled(s, events[0]) {
        StepDoes(s, events[0]);
        RunDoes(Step(s, events[0]), events[1..]);
      } else {
        RunDoes(s, events[1..]);
      }
    }
  }

  /** A later INCR of the key succeeded. */
  ghost predicate MadeGood(done: Deeds, miss: Entry) {
    exists ok :: ok in done.succeeded && ok.key == miss.key && ok.issued > miss.token
  }

  /**
   * Said of what happened alone: whenever the gate says yes, every bump that missed Redis, because there was
   * no client or its INCR failed, has had its key's INCR succeed later, or every value
   * stored before that miss has expired.
   */
  lemma EveryMissIsMadeGood(events: seq<Event>, miss: Entry)
    requires ReadsAllowed(Run(INITIAL, events)) && miss in Done(INITIAL, events).missed
    ensures var done := Done(INITIAL, events);
      MadeGood(done, miss)
      || forall v :: v in done.stored && v.no < miss.token ==> v.expiresAt <= Run(INITIAL, events).now
  {
    RunDoes(INITIAL, events);
    NoInvalidationIsLost(events);
    var s := Run(INITIAL, events);
    assert miss in s.misses;
    if Repaired(s, miss) {
      var ok :| ok in s.successes && ok.key == miss.key && ok.issued > miss.token;
      assert ok in Done(INITIAL, events).succeeded;
    }
  }

  /**
   * An INCR of the replay in progress that fails ends the replay and leaves its entry
   * pending, to be replayed when reads are asked for again.
   */
  lemma FailedReplayEnds(s: State, c: Command, next: set<Entry>)
    requires Enabled(s, ReplayAnswered(c, false, next)) && s.replay.Some? && c in s.replay.value.waiting
    ensures var t := Step(s, ReplayAnswered(c, false, next));
      t.replay.None? && t.pending == s.pending && t.successes == s.successes
  {
  }
}
