/**
 * Cache invalidations that missed Redis, and the gate that keeps cached reads
 * off until they are made good (src/config/cache.ts). Redis is configured;
 * the clock does not run backwards.
 *
 * Misses, commands and applied values are numbered in the order they happen
 * (`clock`), which is how "later" is meant below.
 */
module InvalidationModel {
  import opened Common

  const PENDING_INVALIDATION_LIMIT := 10_000
  const REPLAY_BATCH_SIZE := 50
  const REPLAY_MIN_INTERVAL_MS := 1_000

  /** A remembered invalidation: its version key and the object made for this failure. */
  datatype Entry = Entry(key: nat, token: nat)

  /** An INCR sent by a replay for an entry. */
  datatype Command = Command(entry: Entry, issued: nat)

  /** A replay in progress: entries not sent yet, and the batch it waits for. */
  datatype Replay = Replay(remaining: set<Entry>, waiting: set<Command>)

  datatype Success = Success(key: nat, issued: nat)

  /** A value Redis stored for this process. */
  datatype Written = Written(no: nat, expiresAt: nat)

  datatype State = State(
    now: nat,
    clock: nat,
    pending: map<nat, nat>,        // pendingInvalidations: key to token
    dropped: bool,
    pausedUntil: nat,
    longestTtlSeconds: nat,
    replay: Option<Replay>,
    lastReplayAt: nat,
    outstanding: set<Command>,     // replayed INCRs whose answer is awaited
    bumps: set<Success>,           // direct INCRs whose answer is awaited
    sets: set<nat>,                // lifetimes of the SETs sent
    misses: set<Entry>,            // history: bumps that missed Redis
    lost: set<Entry>,              // history: misses dropped on overflow
    successes: set<Success>,       // history: INCRs that succeeded
    written: set<Written>)         // history: values stored in Redis

  const INITIAL := State(0, 1, map[], false, 0, 0, None, 0, {}, {}, {}, {}, {}, {}, {})

  datatype Event =
    | Tick(ms: nat)
    | BumpWithoutClient(key: nat)
    | BumpSent(key: nat)
    | BumpAnswered(bump: Success, ok: bool)
    | GateAsked(batch: set<Entry>)
    | ReplayAnswered(command: Command, ok: bool, next: set<Entry>)
    | SetSent(ttlSeconds: nat)
    | SetApplied(ttlSeconds: nat)

  /** rememberPendingInvalidation of a bump that just missed Redis. */
  function Remember(s: State, key: nat): State {
    var miss := Entry(key, s.clock);
    var t := s.(clock := s.clock + 1, misses := s.misses + {miss});
    if s.dropped then t.(lost := t.lost + {miss})
    else if key !in s.pending && |s.pending| >= PENDING_INVALIDATION_LIMIT then
      t.(pending := map[], dropped := true, lost := t.misses)
    else t.(pending := s.pending[key := miss.token])
  }

  function Entries(pending: map<nat, nat>): set<Entry> {
    set key | key in pending :: Entry(key, pending[key])
  }

  /** The INCRs of one batch. */
  function Commands(batch: set<Entry>, issued: nat): set<Command> {
    set entry | entry in batch :: Command(entry, issued)
  }

  /** The next batch of a replay, if anything remains; otherwise the replay is over. */
  function SendBatch(s: State, remaining: set<Entry>, batch: set<Entry>): State {
    if remaining == {} then s.(replay := None)
    else
      var commands := Commands(batch, s.clock);
      s.(clock := s.clock + 1, outstanding := s.outstanding + commands,
         replay := Some(Replay(remaining - batch, commands)))
  }

  /** A batch takes up to REPLAY_BATCH_SIZE of the remaining entries. */
  predicate IsBatch(remaining: set<Entry>, batch: set<Entry>) {
    batch <= remaining && |batch| == Min(|remaining|, REPLAY_BATCH_SIZE)
  }

  function PauseIfDropped(s: State): State {
    if s.dropped then s.(dropped := false, pausedUntil := s.now + s.longestTtlSeconds * 1000) else s
  }

  predicate ReplayDue(s: State) {
    s.replay.None? && (s.now < s.lastReplayAt || s.now - s.lastReplayAt >= REPLAY_MIN_INTERVAL_MS)
  }

  /** What cachedReadsAllowed answers. */
  predicate ReadsAllowed(s: State) {
    var t := PauseIfDropped(s);
    t.pending == map[] && t.now >= t.pausedUntil
  }

  /** What cachedReadsAllowed changes: it turns a drop into a pause and starts a due replay. */
  function AskGate(s: State, batch: set<Entry>): State {
    var t := PauseIfDropped(s);
    if t.pending == map[] || !ReplayDue(t) then t
    else SendBatch(t.(lastReplayAt := t.now), Entries(t.pending), batch)
  }

  /** A replayed INCR is answered: the entry goes only if it is still the one replayed. */
  function AnswerReplay(s: State, c: Command, ok: bool, next: set<Entry>): State {
    var t := s.(outstanding := s.outstanding - {c});
    var inBatch := s.replay.Some? && c in s.replay.value.waiting;
    if !ok then (if inBatch then t.(replay := None) else t)
    else
      var k := c.entry.key;
      var u := t.(successes := t.successes + {Success(k, c.issued)},
                  pending := if k in t.pending && t.pending[k] == c.entry.token then t.pending - {k} else t.pending);
      if !inBatch then u
      else
        var r := s.replay.value;
        if r.waiting == {c} then SendBatch(u, r.remaining, next)
        else u.(replay := Some(r.(waiting := r.waiting - {c})))
  }

  predicate Enabled(s: State, e: Event) {
    match e
    case BumpAnswered(bump, _) => bump in s.bumps
    case GateAsked(batch) => IsBatch(Entries(s.pending), batch)
    case ReplayAnswered(c, _, next) =>
      c in s.outstanding && (s.replay.Some? ==> IsBatch(s.replay.value.remaining, next))
    case SetApplied(ttl) => ttl in s.sets
    case _ => true
  }

  function Step(s: State, e: Event): State
    requires Enabled(s, e)
  {
    match e
    case Tick(ms) => s.(now := s.now + ms)
    case BumpWithoutClient(key) => Remember(s, key)
    case BumpSent(key) => s.(clock := s.clock + 1, bumps := s.bumps + {Success(key, s.clock)})
    case BumpAnswered(bump, ok) =>
      var t := s.(bumps := s.bumps - {bump});
      if ok then t.(successes := t.successes + {bump}) else Remember(t, bump.key)
    case GateAsked(batch) => AskGate(s, batch)
    case ReplayAnswered(c, ok, next) => AnswerReplay(s, c, ok, next)
    case SetSent(ttl) => s.(sets := s.sets + {ttl}, longestTtlSeconds := Max(s.longestTtlSeconds, ttl))
    case SetApplied(ttl) => s.(clock := s.clock + 1, written := s.written + {Written(s.clock, s.now + ttl * 1000)})
  }

  function Run(s: State, events: seq<Event>): State
    decreases |events|
  {
    if events == [] then s else Run(if Enabled(s, events[0]) then Step(s, events[0]) else s, events[1..])
  }
}
