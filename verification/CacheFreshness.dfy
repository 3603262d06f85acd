/** What a reader of the versioned cache may rely on, and where that ends (src/config/cache.ts). */
module CacheFreshness {
  import opened Common
  import opened CacheModel

  // ── The invariant ──

  /** The key's versions have been reached, and a value loaded at `stamp` saw every commit they stand for. */
  ghost predicate Covers(w: World, key: Key, stamp: nat) {
    forall ns :: ns in key.versions ==>
      key.versions[ns] <= |w.Counter(ns)| &&
      forall j :: 0 <= j < key.versions[ns] ==> w.Counter(ns)[j] <= stamp
  }

  ghost predicate CountersSound(w: World) {
    forall ns, j :: 0 <= j < |w.Counter(ns)| ==> w.Counter(ns)[j] <= w.commits
  }

  ghost predicate ValuesSound(w: World) {
    && (forall key :: key in w.data ==> Covers(w, key, w.data[key]))
    && (forall p :: p in w.wire ==> Covers(w, p.0, p.1))
    && (forall l :: l in w.loads ==>
          Covers(w, l.1, if w.loads[l].stamp.Some? then w.loads[l].stamp.value else w.commits))
  }

  /** What a reader knows: its versions are prefixes of the counters, and its value covers its key. */
  ghost predicate ReaderSound(w: World, r: Reader) {
    && r.seen.Keys == r.got.Keys
    && (forall ns :: ns in r.got ==>
          && r.seen[ns] <= w.Counter(ns)
          && r.got[ns].version == if r.got[ns].answered then |r.seen[ns]| else 0)
    && (r.joined.Some? ==> r.joined.value == KeyOf(r))
    && (r.outcome.Returned? ==> Covers(w, KeyOf(r), r.outcome.stamp))
  }

  ghost predicate ReadersSound(w: World) {
    forall id :: id in w.readers ==> ReaderSound(w, w.readers[id])
  }

  ghost predicate Inv(w: World) {
    CountersSound(w) && ValuesSound(w) && ReadersSound(w)
  }

  // ── Every step keeps it ──

  lemma CoversGrows(w: World, v: World, key: Key, stamp: nat, stamp': nat)
    requires Covers(w, key, stamp) && stamp <= stamp'
    requires forall ns :: w.Counter(ns) <= v.Counter(ns)
    ensures Covers(v, key, stamp')
  {
    forall ns | ns in key.versions
      ensures key.versions[ns] <= |v.Counter(ns)|
      ensures forall j :: 0 <= j < key.versions[ns] ==> v.Counter(ns)[j] <= stamp'
    {
      assert w.Counter(ns) <= v.Counter(ns);
    }
  }

  /** Commits and INCRs only add: what covered keeps covering. */
  lemma GrowthKeeps(w: World, v: World)
    requires ValuesSound(w) && ReadersSound(w)
    requires v == w.(commits := v.commits, counters := v.counters) && w.commits <= v.commits
    requires forall ns :: w.Counter(ns) <= v.Counter(ns)
    ensures ValuesSound(v) && ReadersSound(v)
  {
    forall key | key in v.data ensures Covers(v, key, v.data[key]) { CoversGrows(w, v, key, w.data[key], v.data[key]); }
    forall p | p in v.wire ensures Covers(v, p.0, p.1) { CoversGrows(w, v, p.0, p.1, p.1); }
    forall l | l in v.loads
      ensures Covers(v, l.1, if v.loads[l].stamp.Some? then v.loads[l].stamp.value else v.commits)
    {
      CoversGrows(w, v, l.1, if w.loads[l].stamp.Some? then w.loads[l].stamp.value else w.commits,
                  if v.loads[l].stamp.Some? then v.loads[l].stamp.value else v.commits);
    }
    forall id | id in v.readers ensures ReaderSound(v, v.readers[id]) {
      var r := w.readers[id];
      assert ReaderSound(w, r);
      forall ns | ns in r.got ensures r.seen[ns] <= v.Counter(ns) { assert w.Counter(ns) <= v.Counter(ns); }
      if r.outcome.Returned? { CoversGrows(w, v, KeyOf(r), r.outcome.stamp, r.outcome.stamp); }
    }
  }

  /** A key built from versions already reached is covered by anything loaded from now on. */
  lemma ReaderKeyCovered(w: World, r: Reader)
    requires CountersSound(w) && ReaderSound(w, r)
    ensures Covers(w, KeyOf(r), w.commits)
  {
    forall ns | ns in KeyOf(r).versions
      ensures KeyOf(r).versions[ns] <= |w.Counter(ns)|
      ensures forall j :: 0 <= j < KeyOf(r).versions[ns] ==> w.Counter(ns)[j] <= w.commits
    {
      assert r.seen[ns] <= w.Counter(ns);
    }
  }

  /** Whatever leaves the counters alone leaves a reader sound. */
  lemma SameCounters(w: World, v: World, r: Reader)
    requires v.counters == w.counters && ReaderSound(w, r)
    ensures ReaderSound(v, r)
  {
    forall ns ensures v.Counter(ns) == w.Counter(ns) {}
    if r.outcome.Returned? { CoversGrows(w, v, KeyOf(r), r.outcome.stamp, r.outcome.stamp); }
  }

  lemma SameValues(w: World, v: World)
    requires ValuesSound(w) && v == w.(readers := v.readers)
    ensures ValuesSound(v)
  {
    forall ns ensures v.Counter(ns) == w.Counter(ns) {}
    forall key | key in v.data ensures Covers(v, key, v.data[key]) { CoversGrows(w, v, key, w.data[key], w.data[key]); }
    forall p | p in v.wire ensures Covers(v, p.0, p.1) { CoversGrows(w, v, p.0, p.1, p.1); }
    forall l | l in v.loads
      ensures Covers(v, l.1, if v.loads[l].stamp.Some? then v.loads[l].stamp.value else v.commits)
    {
      var stamp := if w.loads[l].stamp.Some? then w.loads[l].stamp.value else w.commits;
      CoversGrows(w, v, l.1, stamp, stamp);
    }
  }

  /** A step that changes one reader and neither counters nor commits. */
  lemma OneReaderChanged(w: World, v: World, reader: nat)
    requires Inv(w) && v == w.(readers := v.readers) && reader in v.readers
    requires v.readers == w.readers[reader := v.readers[reader]]
    requires ReaderSound(v, v.readers[reader])
    ensures Inv(v)
  {
    SameValues(w, v);
    assert CountersSound(v) by {
      forall ns ensures v.Counter(ns) == w.Counter(ns) {}
    }
    forall id | id in v.readers ensures ReaderSound(v, v.readers[id]) {
      if id != reader { SameCounters(w, v, w.readers[id]); }
    }
  }

  lemma JoinKeeps(w: World, reader: nat)
    requires Inv(w) && Asking(w, reader)
    ensures Inv(JoinOrLoad(w, reader))
  {
    var r := w.readers[reader];
    assert ReaderSound(w, r);
    ReaderKeyCovered(w, r);
    var slot := (r.process, KeyOf(r));
    var u := w.(loads := if slot in w.loads then w.loads else w.loads[slot := Load(None)]);
    LoadsChanged(w, u);
    var v := JoinOrLoad(w, reader);
    assert KeyOf(v.readers[reader]) == KeyOf(r);
    SameCounters(w, v, r);
    OneReaderChanged(u, v, reader);
  }

  /** A step that changes only the loads, to loads that cover their keys. */
  lemma LoadsChanged(w: World, v: World)
    requires Inv(w) && v == w.(loads := v.loads)
    requires forall l :: l in v.loads ==> l in w.loads || Covers(w, l.1, w.commits)
    requires forall l :: l in v.loads && l in w.loads ==>
               v.loads[l] == w.loads[l] || v.loads[l] == Load(Some(w.commits))
    requires forall l :: l in v.loads && l !in w.loads ==> v.loads[l] == Load(None)
    ensures Inv(v)
  {
    forall ns ensures v.Counter(ns) == w.Counter(ns) {}
    forall l | l in v.loads
      ensures Covers(v, l.1, if v.loads[l].stamp.Some? then v.loads[l].stamp.value else v.commits)
    {
      if l in w.loads {
        var stamp := if w.loads[l].stamp.Some? then w.loads[l].stamp.value else w.commits;
        if v.loads[l] == w.loads[l] { CoversGrows(w, v, l.1, stamp, stamp); }
        else { CoversGrows(w, v, l.1, Min(stamp, w.commits), w.commits); }
      } else {
        CoversGrows(w, v, l.1, w.commits, w.commits);
      }
    }
    forall id | id in v.readers ensures ReaderSound(v, v.readers[id]) { SameCounters(w, v, w.readers[id]); }
  }

  lemma FinishLoadKeeps(w: World, process: nat, key: Key, ok: bool)
    requires Inv(w) && Enabled(w, FinishLoad(process, key, ok))
    ensures Inv(FinishLoadStep(w, process, key, ok))
  {
    var v := FinishLoadStep(w, process, key, ok);
    forall ns ensures v.Counter(ns) == w.Counter(ns) {}
    forall id | id in v.readers ensures ReaderSound(v, v.readers[id]) {
      var r := w.readers[id];
      assert ReaderSound(w, r);
      if v.readers[id] == r { SameCounters(w, v, r); }
      else { FinishedReaderSound(w, v, process, key, ok, r); }
    }
    assert ValuesSound(v) by {
      forall l | l in v.loads
        ensures Covers(v, l.1, if v.loads[l].stamp.Some? then v.loads[l].stamp.value else v.commits)
      {
        assert l in w.loads;
      }
    }
  }

  lemma FinishedReaderSound(w: World, v: World, process: nat, key: Key, ok: bool, r: Reader)
    requires Inv(w) && Enabled(w, FinishLoad(process, key, ok)) && v.counters == w.counters
    requires ReaderSound(w, r) && r.joined == Some(key) && r.outcome.Waiting?
    ensures ReaderSound(v, r.(outcome := if ok then Returned(w.loads[(process, key)].stamp.value) else LoadFailed))
  {
    var after := r.(outcome := if ok then Returned(w.loads[(process, key)].stamp.value) else LoadFailed);
    assert KeyOf(after) == KeyOf(r) == key;
    if ok {
      assert Covers(w, (process, key).1, w.loads[(process, key)].stamp.value);
      CoversGrows(w, v, key, w.loads[(process, key)].stamp.value, w.loads[(process, key)].stamp.value);
    }
  }

  lemma ReadVersionKeeps(w: World, reader: nat, ns: nat, delivered: bool)
    requires Inv(w) && Enabled(w, ReadVersion(reader, ns, delivered))
    ensures Inv(ReadVersionStep(w, reader, ns, delivered))
  {
    var v := ReadVersionStep(w, reader, ns, delivered);
    assert ReaderSound(w, w.readers[reader]);
    forall m ensures v.Counter(m) == w.Counter(m) {}
    assert ReaderSound(v, v.readers[reader]);
    OneReaderChanged(w, v, reader);
  }

  lemma GetHitKeeps(w: World, reader: nat)
    requires Inv(w) && Enabled(w, GetHit(reader))
    ensures Inv(Step(w, GetHit(reader)))
  {
    var v := Step(w, GetHit(reader));
    var r := w.readers[reader];
    assert ReaderSound(w, r);
    SameCounters(w, v, r);
    assert KeyOf(v.readers[reader]) == KeyOf(r);
    CoversGrows(w, v, KeyOf(r), w.data[KeyOf(r)], w.data[KeyOf(r)]);
    OneReaderChanged(w, v, reader);
  }

  /** SETs sent, applied or expired: the values stay sound and the readers are untouched. */
  lemma ValuesMoved(w: World, v: World)
    requires Inv(w) && v == w.(data := v.data, wire := v.wire)
    requires forall key :: key in v.data ==>
               (key in w.data && v.data[key] == w.data[key]) || (key, v.data[key]) in w.wire
    requires forall p :: p in v.wire ==>
               p in w.wire || exists l :: l in w.loads && l.1 == p.0 && w.loads[l].stamp == Some(p.1)
    ensures Inv(v)
  {
    forall ns ensures v.Counter(ns) == w.Counter(ns) {}
    forall key | key in v.data ensures Covers(v, key, v.data[key]) {
      if !(key in w.data && v.data[key] == w.data[key]) {
        assert Covers(w, (key, v.data[key]).0, (key, v.data[key]).1);
      }
      CoversGrows(w, v, key, v.data[key], v.data[key]);
    }
    forall p | p in v.wire ensures Covers(v, p.0, p.1) { CoversGrows(w, v, p.0, p.1, p.1); }
    forall id | id in v.readers ensures ReaderSound(v, v.readers[id]) { SameCounters(w, v, w.readers[id]); }
  }

  lemma StepKeepsInv(w: World, e: Event)
    requires Inv(w) && Enabled(w, e)
    ensures Inv(Step(w, e))
  {
    var v := Step(w, e);
    match e
    case Commit => GrowthKeeps(w, v);
    case Incr(ns, commit) => GrowthKeeps(w, v);
    case StartReader(reader, process, resource) => OneReaderChanged(w, v, reader);
    case ReadVersion(reader, ns, delivered) => ReadVersionKeeps(w, reader, ns, delivered);
    case GetHit(reader) => GetHitKeeps(w, reader);
    case MissOrRefused(reader) => JoinKeeps(w, reader);
    case RunLoader(process, key) => LoadsChanged(w, v);
    case FinishLoad(process, key, ok) => FinishLoadKeeps(w, process, key, ok);
    case SendSet(process, key) => assert (process, key) in w.loads; ValuesMoved(w, v);
    case ApplySet(key, stamp) => ValuesMoved(w, v);
    case Expire(key) => ValuesMoved(w, v);
  }

  lemma {:induction false} RunKeepsInv(w: World, events: seq<Event>)
    requires Inv(w)
    ensures Inv(Run(w, events))
    decreases |events|
  {
    if events != [] {
      if Enabled(w, events[0]) { StepKeepsInv(w, events[0]); }
      RunKeepsInv(if Enabled(w, events[0]) then Step(w, events[0]) else w, events[1..]);
    }
  }

  // ── Freshness ──

  /**
   * However readers, writers, late SETs, late INCRs, replays and expiries
   * interleave, in any number of processes: a reader that returns a value,
   * from Redis, from a load it joined or from its own, under a version that
   * Redis itself answered, returns one loaded after every write whose INCR
   * Redis had applied when that version was read. Readers that used the
   * fallback 0 in the same run do not spoil it.
   */
  lemma ReturnedValueIsFresh(events: seq<Event>, reader: nat, ns: nat)
    ensures var w := Run(EMPTY, events);
      reader in w.readers && w.readers[reader].outcome.Returned?
        && ns in w.readers[reader].got && w.readers[reader].got[ns].answered ==>
      && ns in w.readers[reader].seen
      && forall commit :: commit in w.readers[reader].seen[ns] ==> commit <= w.readers[reader].outcome.stamp
  {
    var w := Run(EMPTY, events);
    RunKeepsInv(EMPTY, events);
    if reader in w.readers && w.readers[reader].outcome.Returned?
       && ns in w.readers[reader].got && w.readers[reader].got[ns].answered {
      var r := w.readers[reader];
      assert ReaderSound(w, r);
      assert KeyOf(r).versions[ns] == |r.seen[ns]|;
      assert r.seen[ns] <= w.Counter(ns);
    }
  }

  /** What `seen` records: the INCRs applied at the moment of the read, and nothing later changes it. */
  lemma SeenIsTheCounterAtTheRead(w: World, reader: nat, ns: nat, delivered: bool, later: seq<Event>)
    requires Inv(w) && Enabled(w, ReadVersion(reader, ns, delivered))
    ensures var v := Run(Step(w, ReadVersion(reader, ns, delivered)), later);
      reader in v.readers && ns in v.readers[reader].seen && v.readers[reader].seen[ns] == w.Counter(ns)
      && ns in v.readers[reader].got && v.readers[reader].got[ns].answered == delivered
  {
    SeenNeverChanges(Step(w, ReadVersion(reader, ns, delivered)), reader, ns, later);
  }

  lemma {:induction false} SeenNeverChanges(w: World, reader: nat, ns: nat, events: seq<Event>)
    requires reader in w.readers && ns in w.readers[reader].seen && ns in w.readers[reader].got
    ensures var v := Run(w, events);
      && reader in v.readers && ns in v.readers[reader].seen && v.readers[reader].seen[ns] == w.readers[reader].seen[ns]
      && ns in v.readers[reader].got && v.readers[reader].got[ns] == w.readers[reader].got[ns]
    decreases |events|
  {
    if events != [] {
      SeenNeverChanges(if Enabled(w, events[0]) then Step(w, events[0]) else w, reader, ns, events[1..]);
    }
  }
}
