/** The invalidation state of src/config/cache.ts, updated in place. */
module CacheInvalidations {
  import opened Common
  import G = InvalidationModel

  class CacheInvalidations {
    var now: nat
    var clock: nat
    var pendingInvalidations: map<nat, nat>
    var invalidationsDropped: bool
    var readsPausedUntil: nat
    var longestTtlSeconds: nat
    var replayInFlight: Option<G.Replay>
    var lastReplayAt: nat
    var outstanding: set<G.Command>
    var bumps: set<G.Success>
    var sets: set<nat>
    ghost var misses: set<G.Entry>
    ghost var lost: set<G.Entry>
    ghost var successes: set<G.Success>
    ghost var written: set<G.Written>

    ghost function State(): G.State
      reads this
    {
      G.State(now, clock, pendingInvalidations, invalidationsDropped, readsPausedUntil, longestTtlSeconds,
        replayInFlight, lastReplayAt, outstanding, bumps, sets, misses, lost, successes, written)
    }

    constructor ()
      ensures State() == G.INITIAL
    {
      now, clock, pendingInvalidations, invalidationsDropped := 0, 1, map[], false;
      readsPausedUntil, longestTtlSeconds, replayInFlight, lastReplayAt := 0, 0, None, 0;
      outstanding, bumps, sets, misses, lost, successes, written := {}, {}, {}, {}, {}, {}, {};
    }

    method RememberPendingInvalidation(key: nat)
      modifies this
      ensures State() == G.Remember(old(State()), key)
    {
      var token := clock;
      clock := clock + 1;
      misses := misses + {G.Entry(key, token)};
      if invalidationsDropped {
        lost := lost + {G.Entry(key, token)};
        return;
      }
      if key !in pendingInvalidations && |pendingInvalidations| >= G.PENDING_INVALIDATION_LIMIT {
        pendingInvalidations := map[];
        invalidationsDropped := true;
        lost := misses;
        return;
      }
      pendingInvalidations := pendingInvalidations[key := token];
    }

    /** The answer tells the caller; the state moves as the model's AskGate says. */
    method CachedReadsAllowed(batch: set<G.Entry>) returns (allowed: bool)
      requires G.Enabled(State(), G.GateAsked(batch))
      modifies this
      ensures allowed == G.ReadsAllowed(old(State()))
      ensures State() == G.AskGate(old(State()), batch)
    {
      if invalidationsDropped {
        invalidationsDropped := false;
        readsPausedUntil := now + longestTtlSeconds * 1000;
      }
      if pendingInvalidations == map[] { return now >= readsPausedUntil; }
      if replayInFlight.None? && (now < lastReplayAt || now - lastReplayAt >= G.REPLAY_MIN_INTERVAL_MS) {
        lastReplayAt := now;
        var entries := set key | key in pendingInvalidations :: G.Entry(key, pendingInvalidations[key]);
        SendBatch(entries, batch);
      }
      allowed := false;
    }

    method SendBatch(remaining: set<G.Entry>, batch: set<G.Entry>)
      modifies this
      ensures State() == G.SendBatch(old(State()), remaining, batch)
    {
      if remaining == {} {
        replayInFlight := None;
        return;
      }
      var commands := set entry | entry in batch :: G.Command(entry, clock);
      outstanding := outstanding + commands;
      clock := clock + 1;
      replayInFlight := Some(G.Replay(remaining - batch, commands));
    }

    method ReplayAnswered(c: G.Command, ok: bool, next: set<G.Entry>)
      requires G.Enabled(State(), G.ReplayAnswered(c, ok, next))
      modifies this
      ensures State() == G.AnswerReplay(old(State()), c, ok, next)
    {
      outstanding := outstanding - {c};
      var inBatch := replayInFlight.Some? && c in replayInFlight.value.waiting;
      if !ok {
        if inBatch { replayInFlight := None; }
        return;
      }
      var key := c.entry.key;
      successes := successes + {G.Success(key, c.issued)};
      if key in pendingInvalidations && pendingInvalidations[key] == c.entry.token {
        pendingInvalidations := pendingInvalidations - {key};
      }
      if inBatch {
        var replay := replayInFlight.value;
        if replay.waiting == {c} {
          SendBatch(replay.remaining, next);
        } else {
          replayInFlight := Some(replay.(waiting := replay.waiting - {c}));
        }
      }
    }

    /** bumpVersion: without a client the bump is remembered at once, otherwise its INCR is sent. */
    method BumpVersion(key: nat, hasClient: bool)
      modifies this
      ensures State() == G.Step(old(State()), if hasClient then G.BumpSent(key) else G.BumpWithoutClient(key))
    {
      if !hasClient {
        RememberPendingInvalidation(key);
        return;
      }
      bumps := bumps + {G.Success(key, clock)};
      clock := clock + 1;
    }

    method BumpAnswered(bump: G.Success, ok: bool)
      requires bump in bumps
      modifies this
      ensures State() == G.Step(old(State()), G.BumpAnswered(bump, ok))
    {
      bumps := bumps - {bump};
      if ok { successes := successes + {bump}; } else { RememberPendingInvalidation(bump.key); }
    }

    /** setCacheJson: a SET with a jittered lifetime is sent; Redis stores the value when it gets there. */
    method SetCacheJson(ttlSeconds: nat)
      modifies this
      ensures State() == G.Step(old(State()), G.SetSent(ttlSeconds))
    {
      longestTtlSeconds := Max(longestTtlSeconds, ttlSeconds);
      sets := sets + {ttlSeconds};
    }

    method SetApplied(ttlSeconds: nat)
      requires ttlSeconds in sets
      modifies this
      ensures State() == G.Step(old(State()), G.SetApplied(ttlSeconds))
    {
      written := written + {G.Written(clock, now + ttlSeconds * 1000)};
      clock := clock + 1;
    }
  }
}
