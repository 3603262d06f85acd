/** Which load a reader that misses waits for, and when it is answered (cacheJson of src/config/cache.ts). */
module CacheLoads {
  import opened Common
  import opened CacheModel

  // ── Nobody waits for a load that is gone ──

  /** Whoever waits, waits for a load that is in flight in its process. */
  ghost predicate WaitsForLoads(w: World) {
    forall id :: id in w.readers && w.readers[id].joined.Some? && w.readers[id].outcome.Waiting? ==>
      (w.readers[id].process, w.readers[id].joined.value) in w.loads
  }

  lemma StepKeepsWaiting(w: World, e: Event)
    requires WaitsForLoads(w) && Enabled(w, e)
    ensures WaitsForLoads(Step(w, e))
  {
  }

  lemma {:induction false} RunKeepsWaiting(w: World, events: seq<Event>)
    requires WaitsForLoads(w)
    ensures WaitsForLoads(Run(w, events))
    decreases |events|
  {
    if |events| > 0 {
      if Enabled(w, events[0]) { StepKeepsWaiting(w, events[0]); }
      RunKeepsWaiting(if Enabled(w, events[0]) then Step(w, events[0]) else w, events[1..]);
    }
  }

  /**
   * In every run a reader that missed either has its answer or waits for a load that is
   * still in flight in its process, and the end of that load answers it, with the value
   * loaded or with the failure.
   */
  lemma NobodyWaitsInVain(events: seq<Event>, reader: nat, ok: bool)
    requires reader in Run(EMPTY, events).readers && Run(EMPTY, events).readers[reader].joined.Some?
    ensures var w := Run(EMPTY, events);
      var r := w.readers[reader];
      var slot := (r.process, r.joined.value);
      r.outcome.Waiting? ==>
        && slot in w.loads
        && (Enabled(w, FinishLoad(slot.0, slot.1, ok)) ==>
              var v := Step(w, FinishLoad(slot.0, slot.1, ok));
              reader in v.readers
              && v.readers[reader].outcome == if ok then Returned(w.loads[slot].stamp.value) else LoadFailed)
  {
    RunKeepsWaiting(EMPTY, events);
  }

  // ── A finished load is not joined ──

  /** The reader has not missed on this key in this process. */
  predicate NotYet(w: World, reader: nat, process: nat, key: Key) {
    reader in w.readers ==> w.readers[reader].process != process || w.readers[reader].joined != Some(key)
  }

  /** Since `commits`, what is loaded under the key in this process, and what the reader got from it, is newer. */
  ghost predicate LoadsSince(w: World, commits: nat, process: nat, key: Key, reader: nat) {
    && commits <= w.commits
    && ((process, key) in w.loads && w.loads[(process, key)].stamp.Some? ==>
          commits <= w.loads[(process, key)].stamp.value)
    && (!NotYet(w, reader, process, key) && w.readers[reader].outcome.Returned? ==>
          commits <= w.readers[reader].outcome.stamp)
  }

  lemma StepKeepsLoadsSince(w: World, e: Event, commits: nat, process: nat, key: Key, reader: nat)
    requires Enabled(w, e) && LoadsSince(w, commits, process, key, reader)
    ensures LoadsSince(Step(w, e), commits, process, key, reader)
  {
  }

  lemma {:induction false} RunKeepsLoadsSince(w: World, events: seq<Event>, commits: nat, process: nat, key: Key,
                                              reader: nat)
    requires LoadsSince(w, commits, process, key, reader)
    ensures LoadsSince(Run(w, events), commits, process, key, reader)
    decreases |events|
  {
    if |events| > 0 {
      if Enabled(w, events[0]) { StepKeepsLoadsSince(w, events[0], commits, process, key, reader); }
      RunKeepsLoadsSince(if Enabled(w, events[0]) then Step(w, events[0]) else w, events[1..],
                         commits, process, key, reader);
    }
  }

  /**
   * A load that has ended is joined by nobody: whoever misses on the key in that process
   * later, whatever else happens, gets a value whose query saw every commit made
   * before the end of that load.
   */
  lemma EndedLoadIsNotJoined(w: World, process: nat, key: Key, ok: bool, later: seq<Event>, reader: nat)
    requires Enabled(w, FinishLoad(process, key, ok)) && NotYet(w, reader, process, key)
    ensures var u := Run(Step(w, FinishLoad(process, key, ok)), later);
      reader in u.readers && u.readers[reader].process == process && u.readers[reader].joined == Some(key)
        && u.readers[reader].outcome.Returned? ==>
          w.commits <= u.readers[reader].outcome.stamp
  {
    RunKeepsLoadsSince(Step(w, FinishLoad(process, key, ok)), later, w.commits, process, key, reader);
  }

  /** Whoever misses while a load of the key is in flight in its process joins it; otherwise it starts one. */
  lemma OneLoadAtATime(w: World, reader: nat)
    requires Asking(w, reader)
    ensures var r := w.readers[reader];
      var slot, v := (r.process, KeyOf(r)), Step(w, MissOrRefused(reader));
      && v.loads.Keys == w.loads.Keys + {slot}
      && (slot in w.loads ==> v.loads == w.loads)
      && v.readers[reader].joined == Some(slot.1)
  {
  }

  // ── What a load leaves in Redis ──

  /**
   * The value of a load is what Redis holds once its SET is applied, however late, until
   * it expires: a reader that asks for the key then gets it without a load.
   */
  lemma LoadedValueIsCached(w: World, process: nat, key: Key, reader: nat)
    requires Enabled(w, SendSet(process, key)) && Asking(w, reader) && KeyOf(w.readers[reader]) == key
    ensures var stamp, sent := w.loads[(process, key)].stamp.value, Step(w, SendSet(process, key));
      && Enabled(sent, ApplySet(key, stamp))
      && var held := Step(sent, ApplySet(key, stamp));
         && Enabled(held, GetHit(reader))
         && Step(held, GetHit(reader)).readers[reader].outcome == Returned(stamp)
         && Step(held, GetHit(reader)).loads == w.loads
         && !Enabled(Step(held, Expire(key)), GetHit(reader))
  {
  }
}
