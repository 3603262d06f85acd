/** The listener of src/config/cluster-bus.ts: its closure variables, updated in place by its callbacks. */
module ClusterBus {
  import opened Common
  import M = BusModel

  class ClusterBus {
    const enabled: bool
    var started: bool
    var stopped: bool
    var connection: Option<nat>
    var connecting: Option<M.Attempt>
    var healthy: bool
    var failures: nat
    var retryTimer: bool
    var probeTimer: Option<nat>
    var acquired: nat
    var released: seq<nat>
    ghost var resets: nat
    var stops: nat
    var waitingStops: seq<nat>
    var unlistening: map<nat, nat>
    ghost var resolvedStops: set<nat>

    ghost function State(): M.State
      reads this
    {
      M.State(enabled, started, stopped, connection, connecting, healthy, failures, retryTimer, probeTimer,
        acquired, released, resets, stops, waitingStops, unlistening, resolvedStops)
    }

    constructor (enabled: bool)
      ensures State() == M.Init(enabled)
    {
      this.enabled := enabled;
      started, stopped, connection, connecting, healthy, failures := false, false, None, None, false, 0;
      retryTimer, probeTimer, acquired, released, resets := false, None, 0, [], 0;
      stops, waitingStops, unlistening, resolvedStops := 0, [], map[], {};
    }

    method Release(client: nat)
      modifies this`released
      ensures State() == M.Release(old(State()), client)
    {
      if client in released { return; }
      released := released + [client];
    }

    method RunResetHandlers()
      modifies this`resets
      ensures State() == old(State()).(resets := old(resets) + 1)
    {
      resets := resets + 1;
    }

    method ScheduleConnect()
      modifies this`retryTimer
      ensures State() == M.ScheduleConnect(old(State()))
    {
      if stopped || retryTimer { return; }
      retryTimer := true;
    }

    method TurnUnhealthy()
      modifies this`healthy, this`resets
      ensures State() == old(State()).(healthy := false,
                                       resets := if old(healthy) then old(resets) + 1 else old(resets))
    {
      if healthy {
        healthy := false;
        RunResetHandlers();
      }
    }

    method Lose()
      modifies this`connection, this`probeTimer, this`failures, this`healthy, this`resets, this`retryTimer
      ensures State() == M.Lose(old(State()))
    {
      connection := None;
      probeTimer := None;
      failures := failures + 1;
      TurnUnhealthy();
      ScheduleConnect();
    }

    method Connect()
      modifies this
      ensures State() == M.Connect(old(State()))
    {
      if stopped || connection.Some? { return; }
      if connecting.Some? { return; }
      connecting := Some(M.Attempt(None));
    }

    method Start()
      modifies this
      ensures State() == M.Step(old(State()), M.Start)
    {
      if !enabled || started { return; }
      started := true;
      stopped := false;
      Connect();
    }

    /** connect() after acquire(). */
    method Acquired(ok: bool)
      requires M.Enabled(State(), M.Acquired(ok))
      modifies this
      ensures State() == M.Step(old(State()), M.Acquired(ok))
    {
      if !ok {
        Lose();
        EndAttempt();
        return;
      }
      connecting := Some(M.Attempt(Some(acquired)));
      acquired := acquired + 1;
    }

    /** connect() after LISTEN. */
    method ListenAnswered(listening: bool)
      requires M.Enabled(State(), M.ListenAnswered(listening))
      modifies this
      ensures State() == M.Step(old(State()), M.ListenAnswered(listening))
    {
      var client := connecting.value.client.value;
      if !listening {
        Release(client);
        Lose();
      } else if stopped {
        Release(client);
      } else if client in released {
        Lose();
      } else {
        Listening(client);
      }
      EndAttempt();
    }

    method Listening(client: nat)
      modifies this`connection, this`failures, this`healthy, this`probeTimer, this`resets
      ensures State() == M.Listening(old(State()), client)
    {
      connection := Some(client);
      failures := 0;
      healthy := true;
      probeTimer := Some(client);
      RunResetHandlers();
    }

    method EndAttempt()
      modifies this
      ensures State() == M.EndAttempt(old(State()))
    {
      connecting := None;
      ResumeStops();
    }

    /** The stop() calls that awaited connect() go on. */
    method ResumeStops()
      modifies this`waitingStops, this`connection, this`healthy, this`unlistening, this`resolvedStops
      ensures State() == M.ResumeStops(old(State()))
    {
      ghost var ended := State();
      while waitingStops != []
        modifies this`waitingStops, this`connection, this`healthy, this`unlistening, this`resolvedStops
        invariant M.ResumeStops(State()) == M.ResumeStops(ended)
        decreases |waitingStops|
      {
        var stop := waitingStops[0];
        waitingStops := waitingStops[1..];
        FinishStop(stop);
      }
    }

    /** The 'error' event of a client, and a failed probe. */
    method ClientError(client: nat)
      modifies this
      ensures State() == M.ClientGone(old(State()), client)
    {
      var current := connection == Some(client);
      Release(client);
      if current { Lose(); }
    }

    method ProbeFailed(client: nat)
      requires client < acquired
      modifies this
      ensures State() == M.Step(old(State()), M.ProbeFailed(client))
    {
      if connection != Some(client) { return; }
      Release(client);
      Lose();
    }

    method RetryFired()
      requires retryTimer
      modifies this
      ensures State() == M.Step(old(State()), M.RetryFired)
    {
      retryTimer := false;
      Connect();
    }

    method ClearTimers()
      modifies this`retryTimer, this`probeTimer
      ensures State() == old(State()).(retryTimer := false, probe := None)
    {
      retryTimer := false;
      probeTimer := None;
    }

    method Stop()
      modifies this
      ensures State() == M.StopStep(old(State()))
    {
      var stop := stops;
      stops := stops + 1;
      stopped := true;
      ClearTimers();
      AwaitConnecting(stop);
    }

    /** The rest of stop(): after the connect() in progress, or at once when there is none. */
    method AwaitConnecting(stop: nat)
      modifies this`waitingStops, this`connection, this`healthy, this`unlistening, this`resolvedStops
      ensures State() == M.AwaitConnecting(old(State()), stop)
    {
      if connecting.Some? {
        waitingStops := waitingStops + [stop];
      } else {
        FinishStop(stop);
      }
    }

    method FinishStop(stop: nat)
      modifies this`connection, this`healthy, this`unlistening, this`resolvedStops
      ensures State() == M.FinishStop(old(State()), stop)
    {
      var current := connection;
      connection := None;
      healthy := false;
      if current.None? {
        resolvedStops := resolvedStops + {stop};
        return;
      }
      unlistening := unlistening[stop := current.value];
    }

    method Unlistened(stop: nat)
      requires stop in unlistening
      modifies this
      ensures State() == M.Step(old(State()), M.Unlistened(stop))
    {
      Release(unlistening[stop]);
      unlistening := unlistening - {stop};
      resolvedStops := resolvedStops + {stop};
    }

    /**
     * Never longer than the caller asked for; the full lifetime while nothing can be
     * missed, at most five seconds otherwise.
     */
    method CacheTtlMs(normalTtlMs: nat) returns (ttlMs: nat)
      ensures ttlMs <= normalTtlMs
      ensures State().IsHealthy() ==> ttlMs == normalTtlMs
      ensures !State().IsHealthy() ==> ttlMs <= 5_000 && (ttlMs == normalTtlMs || ttlMs == 5_000)
    {
      ttlMs := if !enabled || healthy then normalTtlMs else Min(normalTtlMs, M.CLUSTER_BUS_DEGRADED_CACHE_TTL_MS);
    }
  }
}
