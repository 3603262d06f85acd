/** The state of the versioned cache (src/config/cache.ts), updated in place by its operations. */
module VersionedCache {
  import opened Common
  import F = CacheModel

  /** Redis, the database's commit count and every process's in-flight loads and readers. */
  class VersionedCache {
    var commits: nat
    var counters: map<nat, seq<nat>>
    var data: map<F.Key, nat>
    var wire: set<(F.Key, nat)>
    var inFlightCacheLoads: map<(nat, F.Key), F.Load>
    var readers: map<nat, F.Reader>

    ghost function World(): F.World
      reads this
    {
      F.World(commits, counters, data, wire, inFlightCacheLoads, readers)
    }

    constructor ()
      ensures World() == F.EMPTY
    {
      commits, counters, data, wire, inFlightCacheLoads, readers := 0, map[], map[], {}, map[], map[];
    }

    /** getCacheVersion: one reader asks for the version of one namespace. */
    method GetCacheVersion(reader: nat, ns: nat, delivered: bool) returns (version: nat)
      requires F.Enabled(World(), F.ReadVersion(reader, ns, delivered))
      modifies this
      ensures World() == F.Step(old(World()), F.ReadVersion(reader, ns, delivered))
      ensures version == readers[reader].got[ns].version
    {
      var counter := if ns in counters then counters[ns] else [];
      version := if delivered then |counter| else 0;
      var r := readers[reader];
      var read := F.VersionRead(version, delivered);
      readers := readers[reader := r.(got := r.got[ns := read], seen := r.seen[ns := counter])];
    }

    /**
     * cacheJson up to its await: the value in Redis when reads are allowed
     * and Redis answers (`usable`), else the load of this process for the
     * key, started when there is none.
     */
    method CacheJson(reader: nat, usable: bool) returns (hit: Option<nat>)
      requires F.Asking(World(), reader)
      modifies this
      ensures hit.Some? <==> usable && F.KeyOf(old(readers[reader])) in old(data)
      ensures hit.Some? ==> hit.value == old(data)[F.KeyOf(old(readers[reader]))]
      ensures hit.Some? ==> World() == F.Step(old(World()), F.GetHit(reader))
      ensures hit.None? ==> World() == F.Step(old(World()), F.MissOrRefused(reader))
    {
      var r := readers[reader];
      var key := F.KeyOf(r);
      if usable && key in data {
        readers := readers[reader := r.(outcome := F.Returned(data[key]))];
        return Some(data[key]);
      }
      readers := readers[reader := r.(joined := Some(key))];
      if (r.process, key) !in inFlightCacheLoads {
        inFlightCacheLoads := inFlightCacheLoads[(r.process, key) := F.Load(None)];
      }
      hit := None;
    }

    /** The loader's query runs. */
    method RunLoader(process: nat, key: F.Key)
      requires F.Enabled(World(), F.RunLoader(process, key))
      modifies this
      ensures World() == F.Step(old(World()), F.RunLoader(process, key))
    {
      inFlightCacheLoads := inFlightCacheLoads[(process, key) := F.Load(Some(commits))];
    }

    /** setCacheJson of a load: the SET is on its way. */
    method SetCacheJson(process: nat, key: F.Key)
      requires F.Enabled(World(), F.SendSet(process, key))
      modifies this
      ensures World() == F.Step(old(World()), F.SendSet(process, key))
    {
      wire := wire + {(key, inFlightCacheLoads[(process, key)].stamp.value)};
    }

    /** The load settles: its value goes to everyone who waits for it, and the in-flight map forgets it. */
    method FinishLoad(process: nat, key: F.Key, ok: bool)
      requires F.Enabled(World(), F.FinishLoad(process, key, ok))
      modifies this
      ensures World() == F.Step(old(World()), F.FinishLoad(process, key, ok))
    {
      var outcome := if ok then F.Returned(inFlightCacheLoads[(process, key)].stamp.value) else F.LoadFailed;
      var waiting := set id | id in readers && readers[id].process == process
                              && readers[id].joined == Some(key) && readers[id].outcome.Waiting?;
      readers := map id | id in readers :: if id in waiting then readers[id].(outcome := outcome) else readers[id];
      inFlightCacheLoads := inFlightCacheLoads - {(process, key)};
    }

    /** A write commits; its INCR, a replay of it or a relayed one reaches Redis. */
    method Commit()
      modifies this
      ensures World() == F.Step(old(World()), F.Commit)
    {
      commits := commits + 1;
    }

    method Incr(ns: nat, commit: nat)
      requires commit <= commits
      modifies this
      ensures World() == F.Step(old(World()), F.Incr(ns, commit))
    {
      counters := counters[ns := (if ns in counters then counters[ns] else []) + [commit]];
    }

    /** Redis applies a SET it received, perhaps long ago; Redis expires a value. */
    method ApplySet(key: F.Key, stamp: nat)
      requires (key, stamp) in wire
      modifies this
      ensures World() == F.Step(old(World()), F.ApplySet(key, stamp))
    {
      data := data[key := stamp];
    }

    method Expire(key: F.Key)
      modifies this
      ensures World() == F.Step(old(World()), F.Expire(key))
    {
      data := data - {key};
    }
  }
}
