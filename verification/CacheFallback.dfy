/** When a value is fresh that was read without an answered version (src/config/cache.ts). */
module CacheFallback {
  import opened Common
  import opened CacheModel
  import opened CacheFreshness

  // ── From the miss to the value ──

  /**
   * The reader's load already ran its query, and misses a commit whose INCR had been
   * applied when its version was read.
   */
  predicate JoinsStaleLoad(w: World, reader: nat, ns: nat)
    requires reader in w.readers && ns in w.readers[reader].seen
  {
    var r := w.readers[reader];
    var slot := (r.process, KeyOf(r));
    && slot in w.loads && w.loads[slot].stamp.Some?
    && exists commit :: commit in r.seen[ns] && commit > w.loads[slot].stamp.value
  }

  /** Every commit whose INCR had been applied when the version was read is in the value. */
  ghost predicate IsFresh(r: Reader, ns: nat)
    requires ns in r.seen && r.outcome.Returned?
  {
    forall commit :: commit in r.seen[ns] ==> commit <= r.outcome.stamp
  }

  /** What a load that was found at a miss can end with: its stamp, if it had one, or else one not before the miss. */
  predicate Ends(known: Option<nat>, miss: nat, stamp: nat) {
    if known.Some? then stamp == known.value else stamp >= miss
  }

  /** The reader waits for the load it found at its miss, or has that load's value. */
  ghost predicate Follows(w: World, reader: nat, slot: (nat, Key), seen: map<nat, seq<nat>>, known: Option<nat>,
                          miss: nat) {
    && w.commits >= miss && reader in w.readers
    && var r := w.readers[reader];
       && r.process == slot.0 && r.joined == Some(slot.1) && r.seen == seen
       && (r.outcome.Waiting? ==> slot in w.loads && Loading(w.loads[slot], known, miss))
       && (r.outcome.Returned? ==> Ends(known, miss, r.outcome.stamp))
  }

  ghost predicate Loading(load: Load, known: Option<nat>, miss: nat) {
    if load.stamp.Some? then Ends(known, miss, load.stamp.value) else known.None?
  }

  lemma FinishFollows(w: World, process: nat, key: Key, ok: bool, reader: nat, slot: (nat, Key),
                      seen: map<nat, seq<nat>>,
                      known: Option<nat>, miss: nat)
    requires Follows(w, reader, slot, seen, known, miss) && Enabled(w, FinishLoad(process, key, ok))
    ensures Follows(FinishLoadStep(w, process, key, ok), reader, slot, seen, known, miss)
  {
  }

  lemma StepFollows(w: World, e: Event, reader: nat, slot: (nat, Key), seen: map<nat, seq<nat>>, known: Option<nat>,
                    miss: nat)
    requires Follows(w, reader, slot, seen, known, miss) && Enabled(w, e)
    ensures Follows(Step(w, e), reader, slot, seen, known, miss)
  {
    match e
    case FinishLoad(process, key, ok) => FinishFollows(w, process, key, ok, reader, slot, seen, known, miss);
    case _ =>
  }

  lemma {:induction false} RunFollows(w: World, events: seq<Event>, reader: nat, slot: (nat, Key),
                                      seen: map<nat, seq<nat>>,
                                      known: Option<nat>, miss: nat)
    requires Follows(w, reader, slot, seen, known, miss)
    ensures Follows(Run(w, events), reader, slot, seen, known, miss)
    decreases |events|
  {
    if events != [] {
      if Enabled(w, events[0]) { StepFollows(w, events[0], reader, slot, seen, known, miss); }
      RunFollows(if Enabled(w, events[0]) then Step(w, events[0]) else w, events[1..], reader, slot, seen, known, miss);
    }
  }

  /** No INCR is sent for a commit that has not happened. */
  lemma SeenIsCommitted(w: World, reader: nat, ns: nat)
    requires Inv(w) && reader in w.readers && ns in w.readers[reader].got
    ensures ns in w.readers[reader].seen
    ensures forall commit :: commit in w.readers[reader].seen[ns] ==> commit <= w.commits
  {
    var r := w.readers[reader];
    assert ReaderSound(w, r);
    forall commit | commit in r.seen[ns] ensures commit <= w.commits {
      var j :| 0 <= j < |r.seen[ns]| && r.seen[ns][j] == commit;
      assert w.Counter(ns)[j] == commit;
    }
  }

  lemma MissFollows(w: World, reader: nat)
    requires Asking(w, reader)
    ensures var r := w.readers[reader];
      var slot := (r.process, KeyOf(r));
      var known := if slot in w.loads then w.loads[slot].stamp else None;
      Follows(JoinOrLoad(w, reader), reader, slot, r.seen, known, w.commits)
  {
  }

  /**
   * A reader that finds no value in Redis, whether or not Redis answered its
   * versions, returns a value that holds every commit applied at its version
   * read, unless at that moment it joins a load whose query has run without one
   * of them; then it never does. So a reader on the fallback 0 is fresh when it
   * starts its own load or joins one whose query is still to run.
   */
  lemma FreshUnlessItJoinsAStaleLoad(before: seq<Event>, reader: nat, ns: nat, later: seq<Event>)
    requires var w := Run(EMPTY, before); Asking(w, reader) && ns in w.readers[reader].got
    ensures var w := Run(EMPTY, before);
      var u := Run(Step(w, MissOrRefused(reader)), later);
      && ns in w.readers[reader].seen && reader in u.readers
      && u.readers[reader].seen == w.readers[reader].seen
      && (u.readers[reader].outcome.Returned? ==>
            (IsFresh(u.readers[reader], ns) <==> !JoinsStaleLoad(w, reader, ns)))
  {
    var w := Run(EMPTY, before);
    RunKeepsInv(EMPTY, before);
    SeenIsCommitted(w, reader, ns);
    var r := w.readers[reader];
    var slot := (r.process, KeyOf(r));
    var known := if slot in w.loads then w.loads[slot].stamp else None;
    MissFollows(w, reader);
    RunFollows(Step(w, MissOrRefused(reader)), later, reader, slot, r.seen, known, w.commits);
  }

  // ── Why the version has to be answered ──

  const FALLBACK_KEY := Key(7, map[0 := 0])

  /** Two readers that could not read the version, and a write with its INCR between them. */
  const STALE_RUN: seq<Event> := [
    StartReader(1, 0, 7), ReadVersion(1, 0, false), MissOrRefused(1), RunLoader(0, FALLBACK_KEY), Commit,
    Incr(0, 1), StartReader(2, 0, 7), ReadVersion(2, 0, false), MissOrRefused(2), FinishLoad(0, FALLBACK_KEY, true)]

  const AFTER_COMMIT := World(1, map[], map[], {}, map[(0, FALLBACK_KEY) := Load(Some(0))],
    map[1 := Reader(0, 7, map[0 := VersionRead(0, false)], map[0 := []], Some(FALLBACK_KEY), Waiting)])

  lemma RunOne(w: World, e: Event, rest: seq<Event>)
    requires Enabled(w, e)
    ensures Run(w, [e] + rest) == Run(Step(w, e), rest)
  {
    assert ([e] + rest)[1..] == rest;
  }

  lemma StaleRunUpToCommit(rest: seq<Event>)
    ensures Run(EMPTY, STALE_RUN[..5] + rest) == Run(AFTER_COMMIT, rest)
  {
    var e4 := [Commit] + rest;
    var e3 := [RunLoader(0, FALLBACK_KEY)] + e4;
    var e2 := [MissOrRefused(1)] + e3;
    var e1 := [ReadVersion(1, 0, false)] + e2;
    assert STALE_RUN[..5] + rest == [StartReader(1, 0, 7)] + e1;
    var w1 := Step(EMPTY, StartReader(1, 0, 7));
    RunOne(EMPTY, StartReader(1, 0, 7), e1);
    var w2 := Step(w1, ReadVersion(1, 0, false));
    RunOne(w1, ReadVersion(1, 0, false), e2);
    assert KeyOf(w2.readers[1]) == FALLBACK_KEY;
    var w3 := Step(w2, MissOrRefused(1));
    RunOne(w2, MissOrRefused(1), e3);
    var w4 := Step(w3, RunLoader(0, FALLBACK_KEY));
    RunOne(w3, RunLoader(0, FALLBACK_KEY), e4);
    RunOne(w4, Commit, rest);
    assert Step(w4, Commit) == AFTER_COMMIT;
  }

  const AFTER_INCR := AFTER_COMMIT.(counters := map[0 := [1]],
    readers := AFTER_COMMIT.readers[2 := Reader(0, 7, map[0 := VersionRead(0, false)], map[0 := [1]], None, Waiting)])

  lemma StaleRunUpToFallback(rest: seq<Event>)
    ensures Run(AFTER_COMMIT, STALE_RUN[5..8] + rest) == Run(AFTER_INCR, rest)
  {
    var e2 := [ReadVersion(2, 0, false)] + rest;
    var e1 := [StartReader(2, 0, 7)] + e2;
    assert STALE_RUN[5..8] + rest == [Incr(0, 1)] + e1;
    var w1 := Step(AFTER_COMMIT, Incr(0, 1));
    RunOne(AFTER_COMMIT, Incr(0, 1), e1);
    assert w1.Counter(0) == [1];
    var w2 := Step(w1, StartReader(2, 0, 7));
    RunOne(w1, StartReader(2, 0, 7), e2);
    var w3 := Step(w2, ReadVersion(2, 0, false));
    RunOne(w2, ReadVersion(2, 0, false), rest);
    assert w3.readers[2] == AFTER_INCR.readers[2];
    assert w3.readers == AFTER_INCR.readers && w3.counters == AFTER_INCR.counters;
    assert w3 == AFTER_INCR;
  }

  lemma StaleRunJoins()
    ensures var w := Run(AFTER_INCR, STALE_RUN[8..]);
      2 in w.readers && w.readers[2] == AFTER_INCR.readers[2].(joined := Some(FALLBACK_KEY), outcome := Returned(0))
  {
    var last := FinishLoad(0, FALLBACK_KEY, true);
    assert KeyOf(AFTER_INCR.readers[2]) == FALLBACK_KEY;
    assert STALE_RUN[8..] == [MissOrRefused(2)] + ([last] + []);
    var w1 := Step(AFTER_INCR, MissOrRefused(2));
    RunOne(AFTER_INCR, MissOrRefused(2), [last] + []);
    RunOne(w1, last, []);
  }

  /**
   * A reader whose version read failed and that joins a load started under
   * the same fallback 0 can return a value loaded before commit 1 although
   * the INCR of commit 1 had been applied when its version was read.
   */
  lemma FallbackVersionMayBeStale()
    ensures var w := Run(EMPTY, STALE_RUN);
      && 2 in w.readers && w.readers[2].outcome == Returned(0)
      && w.readers[2].seen == map[0 := [1]] && w.readers[2].got == map[0 := VersionRead(0, false)]
  {
    StaleRunUpToCommit(STALE_RUN[5..]);
    assert STALE_RUN == STALE_RUN[..5] + STALE_RUN[5..];
    StaleRunUpToFallback(STALE_RUN[8..]);
    assert STALE_RUN[5..] == STALE_RUN[5..8] + STALE_RUN[8..];
    StaleRunJoins();
  }
}
