/**
 * Which cached answers are used, and how long: the expiry checks of
 * src/middleware/authorize.ts and src/middleware/tenant-context.ts against what
 * happened before.
 */
module BusAnswers {
  import opened Common
  import opened BusCaches
  import B = BusModel

  /**
   * Storing and looking up: an answer stored at `at` for `ttlMs` is used exactly before
   * at + ttlMs; the answer that there is nothing is never used, and takes away
   * what was there; other keys answer as before.
   */
  lemma StoredAnswerIsUsed(cache: Cache, key: string, answer: Option<bool>, at: nat, ttlMs: nat, epoch: nat, query: nat,
                           other: string, now: nat)
    ensures var stored := Store(cache, key, answer, at + ttlMs, epoch, query);
      && Lookup(stored, key, now) == (if now < at + ttlMs then answer else None)
      && (other != key ==> Lookup(stored, other, now) == Lookup(cache, other, now))
  {
  }

  // ── What a run did to a key ──

  /** The state before event `i`. */
  function At(s: State, events: seq<Event>, i: nat): State
    requires i <= |events|
  {
    Run(s, events[..i])
  }

  /** The event stores an answer for the key. */
  predicate Sets(s: State, e: Event, table: Table, key: string) {
    && e.Answered? && Enabled(s, e)
    && s.running[e.query].table == table && s.running[e.query].key == key && s.running[e.query].answer.Some?
  }

  /** The event forgets the key: an invalidation, a reset, or the answer that there is nothing. */
  predicate Drops(s: State, e: Event, table: Table, key: string) {
    Enabled(s, e) &&
    match e
    case Forgotten(about, id) => about == table && Concerns(table, id, key)
    case BusEvent(event) => B.Step(s.bus, event).resets != s.bus.resets
    case Answered(q) => s.running[q].table == table && s.running[q].key == key && s.running[q].answer.None?
    case _ => false
  }

  /** The i-th event was the last one to store an answer for the key, and none has forgotten it since. */
  ghost predicate LastSet(s: State, events: seq<Event>, i: nat, table: Table, key: string) {
    && i < |events| && Sets(At(s, events, i), events[i], table, key)
    && forall j: nat :: i < j < |events| ==> Untouched(s, events, j, table, key)
  }

  predicate Untouched(s: State, events: seq<Event>, j: nat, table: Table, key: string)
    requires j < |events|
  {
    !Sets(At(s, events, j), events[j], table, key) && !Drops(At(s, events, j), events[j], table, key)
  }

  /** What the event stores. */
  function SetEntry(s: State, e: Event): Entry
    requires e.Answered? && Enabled(s, e) && s.running[e.query].answer.Some?
  {
    var query := s.running[e.query];
    Entry(query.answer.value, s.now + s.TtlMs(query.table), s.epoch, e.query)
  }

  lemma StepEntry(s: State, e: Event, table: Table, key: string)
    requires Enabled(s, e)
    ensures var before, after := s.Cached(table), Step(s, e).Cached(table);
      if Sets(s, e, table, key) then key in after && after[key] == SetEntry(s, e)
      else if Drops(s, e, table, key) then key !in after
      else (key in after <==> key in before) && (key in after ==> after[key] == before[key])
  {
  }

  lemma {:induction false} RunLast(s: State, events: seq<Event>, e: Event)
    ensures var t := Run(s, events); Run(s, events + [e]) == if Enabled(t, e) then Step(t, e) else t
    decreases |events|
  {
    if events == [] {
      assert [] + [e] == [e] && [e][1..] == [];
    } else {
      assert (events + [e])[1..] == events[1..] + [e];
      RunLast(if Enabled(s, events[0]) then Step(s, events[0]) else s, events[1..], e);
    }
  }

  /** The last event of a run. */
  lemma RunEnd(s: State, events: seq<Event>)
    requires |events| > 0
    ensures var n := |events| - 1;
      Run(s, events) == if Enabled(At(s, events, n), events[n]) then Step(At(s, events, n), events[n])
                        else At(s, events, n)
  {
    var n := |events| - 1;
    assert events[..n] + [events[n]] == events;
    RunLast(s, events[..n], events[n]);
  }

  lemma AtPrefix(s: State, events: seq<Event>, n: nat, j: nat)
    requires j <= n <= |events|
    ensures At(s, events[..n], j) == At(s, events, j)
  {
    assert events[..n][..j] == events[..j];
  }

  lemma LastSetGrows(s: State, events: seq<Event>, i: nat, table: Table, key: string)
    requires |events| > 0
    ensures var n := |events| - 1;
      LastSet(s, events, i, table, key) <==>
        (if i == n then Sets(At(s, events, n), events[n], table, key)
         else LastSet(s, events[..n], i, table, key) && Untouched(s, events, n, table, key))
  {
    hide Run, Sets, Drops;
    var n := |events| - 1;
    forall j: nat | j < n
      ensures At(s, events[..n], j) == At(s, events, j)
      ensures Untouched(s, events[..n], j, table, key) == Untouched(s, events, j, table, key)
    {
      AtPrefix(s, events, n, j);
    }
  }

  /** The step of the last event, for one key. */
  lemma LastStep(s: State, events: seq<Event>, table: Table, key: string)
    requires |events| > 0
    ensures var n := |events| - 1;
      var before, after := At(s, events, n), Run(s, events).Cached(table);
      if Sets(before, events[n], table, key) then key in after && after[key] == SetEntry(before, events[n])
      else if Untouched(s, events, n, table, key) then
        (key in after <==> key in before.Cached(table)) && (key in after ==> after[key] == before.Cached(table)[key])
      else key !in after
  {
    RunEnd(s, events);
    var n := |events| - 1;
    var before := At(s, events, n);
    if Enabled(before, events[n]) { StepEntry(before, events[n], table, key); }
  }

  /** Every cached answer was stored by the last event that touched its key. */
  lemma {:induction false} CachedWasSet(s: State, events: seq<Event>, table: Table, key: string) returns (i: nat)
    requires s.Cached(table) == map[] && key in Run(s, events).Cached(table)
    ensures LastSet(s, events, i, table, key)
    ensures Run(s, events).Cached(table)[key] == SetEntry(At(s, events, i), events[i])
  {
    var n := |events| - 1;
    LastStep(s, events, table, key);
    if Sets(At(s, events, n), events[n], table, key) {
      i := n;
    } else {
      i := CachedWasSet(s, events[..n], table, key);
      AtPrefix(s, events, n, i);
    }
    LastSetGrows(s, events, i, table, key);
  }

  lemma {:induction false} SetIsCached(s: State, events: seq<Event>, i: nat, table: Table, key: string)
    requires LastSet(s, events, i, table, key)
    ensures key in Run(s, events).Cached(table)
    ensures Run(s, events).Cached(table)[key] == SetEntry(At(s, events, i), events[i])
  {
    var n := |events| - 1;
    LastStep(s, events, table, key);
    LastSetGrows(s, events, i, table, key);
    if i < n {
      SetIsCached(s, events[..n], i, table, key);
      AtPrefix(s, events, n, i);
    }
  }

  // ── Which answers are used ──

  /** How long an answer set in this state is used. */
  function LifetimeMs(s: State, table: Table): nat {
    if s.bus.IsHealthy() then NormalTtlMs(table) else 5_000
  }

  /** The answer the middleware uses now instead of asking. */
  function Used(s: State, table: Table, key: string): Option<bool> {
    Lookup(s.Cached(table), key, s.now)
  }

  /** Event `i` gave this answer, nothing has touched the key since, and its lifetime has not passed. */
  ghost predicate StillGood(s: State, events: seq<Event>, i: nat, table: Table, key: string, value: bool) {
    && LastSet(s, events, i, table, key)
    && At(s, events, i).running[events[i].query].answer == Some(value)
    && Run(s, events).now < At(s, events, i).now + LifetimeMs(At(s, events, i), table)
  }

  /**
   * In every run an answer is used exactly when the last event that touched its key
   * stored that answer, and its lifetime since then has not passed: five
   * minutes for a permission and one for a tenant's status when the bus was healthy as it
   * was stored, 5 s when it was not.
   */
  lemma UsedExactlyWhileGood(enabled: bool, events: seq<Event>, table: Table, key: string, value: bool)
    ensures Used(Run(Init(enabled), events), table, key) == Some(value)
      <==> exists i: nat :: StillGood(Init(enabled), events, i, table, key, value)
  {
    var s := Init(enabled);
    if Used(Run(s, events), table, key) == Some(value) {
      var i := CachedWasSet(s, events, table, key);
      assert StillGood(s, events, i, table, key, value);
    }
    if i: nat :| StillGood(s, events, i, table, key, value) {
      SetIsCached(s, events, i, table, key);
    }
  }

  /**
   * Once a key is forgotten and queries take at most `d`, an answer the database
   * gave before is not used from `d` and the normal lifetime on: every answer used
   * then was asked for after the key was forgotten.
   */
  lemma ForgottenAnswersGoOutOfUse(s: State, table: Table, key: string, later: seq<Event>, d: nat)
    requires Inv(s) && key !in s.Cached(table) && OnTime(s, later, d)
    ensures var u := Run(s, later);
      u.now >= s.now + d + NormalTtlMs(table) && Used(u, table, key).Some? ==>
        u.Cached(table)[key].query >= s.asked
  {
    OldAnswersExpire(s, table, key, later, d);
  }
}
