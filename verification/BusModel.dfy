/**
 * The listener of the cluster bus as a state machine (src/config/cluster-bus.ts).
 *
 * A client is named by its acquisition, so no two acquisitions share a name.
 * A step is one event-loop turn, with the continuations it makes runnable.
 */
module BusModel {
  import opened Common

  const CLUSTER_BUS_DEGRADED_CACHE_TTL_MS := 5_000

  /** A connect() in progress: before acquire() answers there is no client, then LISTEN runs on it. */
  datatype Attempt = Attempt(client: Option<nat>)

  datatype State = State(
    enabled: bool,
    started: bool,
    stopped: bool,
    connection: Option<nat>,
    connecting: Option<Attempt>,
    healthy: bool,
    failures: nat,
    retryTimer: bool,
    probe: Option<nat>,             // the client the probe timer was started for
    acquired: nat,                  // clients acquired so far, numbered from 0
    released: seq<nat>,             // history: calls of a client's release()
    resets: nat,                    // history: runs of the reset handlers
    stops: nat,                     // calls of stop() so far
    waitingStops: seq<nat>,         // stop() calls that await connect()
    unlistening: map<nat, nat>,     // stop() calls that await UNLISTEN, with their client
    resolvedStops: set<nat>)
  {
    predicate Unreleased(c: nat) { c < acquired && c !in released }

    predicate IsHealthy() { !enabled || healthy }

    function CacheTtlMs(normalTtlMs: nat): nat {
      if !enabled || healthy then normalTtlMs else Min(normalTtlMs, CLUSTER_BUS_DEGRADED_CACHE_TTL_MS)
    }
  }

  datatype Event =
    | Start
    | Acquired(acquiredOk: bool)
    | ListenAnswered(listening: bool)
    | ClientError(client: nat)
    | ProbeFailed(probed: nat)
    | RetryFired
    | StopCalled
    | Unlistened(stop: nat)

  function Init(enabled: bool): State {
    State(enabled, false, false, None, None, false, 0, false, None, 0, [], 0, 0, [], map[], {})
  }

  /** The guarded release of a client: the first call only. */
  function Release(s: State, c: nat): State {
    if c in s.released then s else s.(released := s.released + [c])
  }

  function ScheduleConnect(s: State): State {
    if s.stopped || s.retryTimer then s else s.(retryTimer := true)
  }

  function Lose(s: State): State {
    ScheduleConnect(s.(connection := None, probe := None, failures := s.failures + 1, healthy := false,
                       resets := if s.healthy then s.resets + 1 else s.resets))
  }

  function Connect(s: State): State {
    if s.stopped || s.connection.Some? || s.connecting.Some? then s else s.(connecting := Some(Attempt(None)))
  }

  /** stop() after its wait for connect(). */
  function FinishStop(s: State, k: nat): State {
    var t := s.(connection := None, healthy := false);
    if s.connection.None? then t.(resolvedStops := s.resolvedStops + {k})
    else t.(unlistening := s.unlistening[k := s.connection.value])
  }

  function ResumeStops(s: State): State
    decreases |s.waitingStops|
  {
    if s.waitingStops == [] then s
    else ResumeStops(FinishStop(s.(waitingStops := s.waitingStops[1..]), s.waitingStops[0]))
  }

  /** The attempt is over; stop() calls that waited for it go on. */
  function EndAttempt(s: State): State {
    ResumeStops(s.(connecting := None))
  }

  function Listening(s: State, c: nat): State {
    s.(connection := Some(c), failures := 0, healthy := true, probe := Some(c), resets := s.resets + 1)
  }

  function ListenStep(s: State, c: nat, listening: bool): State {
    EndAttempt(
      if !listening then Lose(Release(s, c))
      else if s.stopped then Release(s, c)
      else if c in s.released then Lose(s)
      else Listening(s, c))
  }

  /** The client is closed or half-open; only the current connection is lost with it. */
  function ClientGone(s: State, c: nat): State {
    if s.connection == Some(c) then Lose(Release(s, c)) else Release(s, c)
  }

  /** stop() waits for a connect() in progress. */
  function AwaitConnecting(s: State, k: nat): State {
    if s.connecting.Some? then s.(waitingStops := s.waitingStops + [k]) else FinishStop(s, k)
  }

  function StopStep(s: State): State {
    AwaitConnecting(s.(stopped := true, retryTimer := false, probe := None, stops := s.stops + 1), s.stops)
  }

  predicate Enabled(s: State, e: Event) {
    match e
    case Start => true
    case Acquired(_) => s.connecting.Some? && s.connecting.value.client.None?
    case ListenAnswered(_) => s.connecting.Some? && s.connecting.value.client.Some?
    case ClientError(c) => c < s.acquired
    case ProbeFailed(c) => c < s.acquired
    case RetryFired => s.retryTimer
    case StopCalled => true
    case Unlistened(k) => k in s.unlistening
  }

  function Step(s: State, e: Event): State
    requires Enabled(s, e)
  {
    match e
    case Start => if !s.enabled || s.started then s else Connect(s.(started := true, stopped := false))
    case Acquired(ok) =>
      if ok then s.(acquired := s.acquired + 1, connecting := Some(Attempt(Some(s.acquired)))) else EndAttempt(Lose(s))
    case ListenAnswered(listening) => ListenStep(s, s.connecting.value.client.value, listening)
    case ClientError(c) => ClientGone(s, c)
    case ProbeFailed(c) => if s.connection != Some(c) then s else ClientGone(s, c)
    case RetryFired => Connect(s.(retryTimer := false))
    case StopCalled => StopStep(s)
    case Unlistened(k) =>
      Release(s, s.unlistening[k]).(unlistening := s.unlistening - {k}, resolvedStops := s.resolvedStops + {k})
  }

  function Run(s: State, events: seq<Event>): State
    decreases |events|
  {
    if events == [] then s else Run(if Enabled(s, events[0]) then Step(s, events[0]) else s, events[1..])
  }
}
