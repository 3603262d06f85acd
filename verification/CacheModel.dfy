/**
 * The versioned cache of src/config/cache.ts, with every process, Redis and
 * the database in one state machine.
 *
 * Database commits are numbered; a value is known by the number of commits
 * its loader saw. A version counter is the list of the commits its INCRs were
 * sent for, so its value is the length of that list: INCRs repeated by a
 * replay or a relay, and INCRs that Redis applies after the sender gave up,
 * are further entries.
 */
module CacheModel {
  import opened Common

  /** A cache key: the resource and the version of each namespace it depends on. */
  datatype Key = Key(resource: nat, versions: map<nat, nat>)

  /** An in-flight load of one process; `stamp` is set once its query has run. */
  datatype Load = Load(stamp: Option<nat>)

  /** A version read: the version used, and whether Redis answered it (otherwise it is the fallback 0). */
  datatype VersionRead = VersionRead(version: nat, answered: bool)

  datatype Outcome = Waiting | Returned(stamp: nat) | LoadFailed

  datatype Reader = Reader(
    process: nat,
    resource: nat,
    got: map<nat, VersionRead>,
    seen: map<nat, seq<nat>>,   // history: the INCRs applied when each version was read
    joined: Option<Key>,        // the load this reader waits for
    outcome: Outcome)

  datatype World = World(
    commits: nat,
    counters: map<nat, seq<nat>>,
    data: map<Key, nat>,               // Redis values
    wire: set<(Key, nat)>,             // SET commands Redis may apply, once or late
    loads: map<(nat, Key), Load>,      // inFlightCacheLoads of every process
    readers: map<nat, Reader>)
  {
    function Counter(ns: nat): seq<nat> { if ns in counters then counters[ns] else [] }
  }

  datatype Event =
    | Commit
    | Incr(ns: nat, commit: nat)
    | StartReader(reader: nat, process: nat, resource: nat)
    | ReadVersion(reader: nat, ns: nat, delivered: bool)
    | GetHit(reader: nat)
    | MissOrRefused(reader: nat)
    | RunLoader(process: nat, key: Key)
    | SendSet(process: nat, key: Key)
    | FinishLoad(process: nat, key: Key, ok: bool)
    | ApplySet(key: Key, stamp: nat)
    | Expire(key: Key)

  const EMPTY := World(0, map[], map[], {}, map[], map[])

  function KeyOf(r: Reader): Key {
    Key(r.resource, map ns | ns in r.got :: r.got[ns].version)
  }

  /** The reader has read its versions and has neither a value nor a load to wait for. */
  predicate Asking(w: World, reader: nat) {
    reader in w.readers && w.readers[reader].joined.None? && w.readers[reader].outcome.Waiting?
  }

  predicate Enabled(w: World, e: Event) {
    match e
    case Commit => true
    case Incr(_, commit) => commit <= w.commits
    case StartReader(reader, _, _) => reader !in w.readers
    case ReadVersion(reader, ns, _) => Asking(w, reader) && ns !in w.readers[reader].got
    case GetHit(reader) => Asking(w, reader) && KeyOf(w.readers[reader]) in w.data
    case MissOrRefused(reader) => Asking(w, reader)
    case RunLoader(process, key) => (process, key) in w.loads && w.loads[(process, key)].stamp.None?
    case SendSet(process, key) => (process, key) in w.loads && w.loads[(process, key)].stamp.Some?
    case FinishLoad(process, key, ok) => (process, key) in w.loads && (ok ==> w.loads[(process, key)].stamp.Some?)
    case ApplySet(key, stamp) => (key, stamp) in w.wire
    case Expire(_) => true
  }

  /** getCacheVersion: the counter when Redis answers, the fallback 0 when it does not. */
  function ReadVersionStep(w: World, reader: nat, ns: nat, delivered: bool): World
    requires reader in w.readers
  {
    var r := w.readers[reader];
    var read := if delivered then VersionRead(|w.Counter(ns)|, true) else VersionRead(0, false);
    w.(readers := w.readers[reader := r.(got := r.got[ns := read], seen := r.seen[ns := w.Counter(ns)])])
  }

  /** cacheJson after a miss: join the load of the key in this process, or start it. */
  function JoinOrLoad(w: World, reader: nat): World
    requires reader in w.readers
  {
    var r := w.readers[reader];
    var slot := (r.process, KeyOf(r));
    w.(readers := w.readers[reader := r.(joined := Some(KeyOf(r)))],
       loads := if slot in w.loads then w.loads else w.loads[slot := Load(None)])
  }

  /** The load settles: everyone who waits for it gets its value, and the map forgets it. */
  function FinishLoadStep(w: World, process: nat, key: Key, ok: bool): World
    requires (process, key) in w.loads && (ok ==> w.loads[(process, key)].stamp.Some?)
  {
    var outcome := if ok then Returned(w.loads[(process, key)].stamp.value) else LoadFailed;
    w.(loads := w.loads - {(process, key)},
       readers := map id | id in w.readers ::
         if w.readers[id].process == process && w.readers[id].joined == Some(key) && w.readers[id].outcome.Waiting?
         then w.readers[id].(outcome := outcome) else w.readers[id])
  }

  function Step(w: World, e: Event): World
    requires Enabled(w, e)
  {
    match e
    case Commit => w.(commits := w.commits + 1)
    case Incr(ns, commit) => w.(counters := w.counters[ns := w.Counter(ns) + [commit]])
    case StartReader(reader, process, resource) =>
      w.(readers := w.readers[reader := Reader(process, resource, map[], map[], None, Waiting)])
    case ReadVersion(reader, ns, delivered) => ReadVersionStep(w, reader, ns, delivered)
    case GetHit(reader) =>
      var r := w.readers[reader];
      w.(readers := w.readers[reader := r.(outcome := Returned(w.data[KeyOf(r)]))])
    case MissOrRefused(reader) => JoinOrLoad(w, reader)
    case RunLoader(process, key) => w.(loads := w.loads[(process, key) := Load(Some(w.commits))])
    case SendSet(process, key) => w.(wire := w.wire + {(key, w.loads[(process, key)].stamp.value)})
    case FinishLoad(process, key, ok) => FinishLoadStep(w, process, key, ok)
    case ApplySet(key, stamp) => w.(data := w.data[key := stamp])
    case Expire(key) => w.(data := w.data - {key})
  }

  function Run(w: World, events: seq<Event>): World
    decreases |events|
  {
    if events == [] then w else Run(if Enabled(w, events[0]) then Step(w, events[0]) else w, events[1..])
  }
}
