/** The pure rules of the in-app cluster (src/config/inapp-cluster.logic.ts). */
module InAppCluster {
  import opened Common

  const WORKER_RESTART_INITIAL_DELAY_MS := 1_000
  const WORKER_RESTART_MAX_DELAY_MS := 15_000
  const WORKER_STABLE_UPTIME_MS := 30_000
  const KILL_SETTLE_MS := 1_000

  /** `Math.round(previous * 1.5)` for a whole number of milliseconds: halves round up. */
  function TimesOneAndAHalf(previous: nat): nat {
    (3 * previous + 1) / 2
  }

  /**
   * How long a slot stays empty: a worker that lasted is replaced after the initial
   * delay, crashes in a row wait longer.
   */
  function NextWorkerRestartDelayMs(previousDelayMs: Option<nat>, uptimeMs: int): (delay: nat)
    ensures previousDelayMs.None? || uptimeMs >= WORKER_STABLE_UPTIME_MS ==> delay == WORKER_RESTART_INITIAL_DELAY_MS
    ensures delay <= WORKER_RESTART_MAX_DELAY_MS
  {
    if previousDelayMs.None? || uptimeMs >= WORKER_STABLE_UPTIME_MS then WORKER_RESTART_INITIAL_DELAY_MS
    else Min(WORKER_RESTART_MAX_DELAY_MS, TimesOneAndAHalf(previousDelayMs.value))
  }

  function RollingRestartTimeoutMs(workers: nat, readyTimeoutMs: nat, stopTimeoutMs: nat): nat {
    workers * (readyTimeoutMs + stopTimeoutMs)
  }

  /** The wait after `crashes` + 1 crashes in a row, none of them after a stable uptime. */
  function BackoffAfter(crashes: nat): nat {
    if crashes == 0 then NextWorkerRestartDelayMs(None, 0)
    else NextWorkerRestartDelayMs(Some(BackoffAfter(crashes - 1)), 0)
  }

  /**
   * A worker that keeps crashing waits at least a second, never less than before, and at
   * most 15 s; 15 s from its eighth crash on.
   */
  lemma {:induction false} BackoffGrowsToItsCap(crashes: nat)
    ensures WORKER_RESTART_INITIAL_DELAY_MS <= BackoffAfter(crashes) <= WORKER_RESTART_MAX_DELAY_MS
    ensures BackoffAfter(crashes) <= BackoffAfter(crashes + 1)
    ensures BackoffAfter(crashes) == WORKER_RESTART_MAX_DELAY_MS <==> crashes >= 7
  {
    if crashes == 0 {
      assert BackoffAfter(1) == 1_500;
    } else if crashes <= 7 {
      BackoffGrowsToItsCap(crashes - 1);
      assert BackoffAfter(0) == 1_000;
      assert BackoffAfter(1) == 1_500;
      assert BackoffAfter(2) == 2_250;
      assert BackoffAfter(3) == 3_375;
      assert BackoffAfter(4) == 5_063;
      assert BackoffAfter(5) == 7_595;
      assert BackoffAfter(6) == 11_393;
      assert BackoffAfter(7) == 15_000;
      assert BackoffAfter(8) == 15_000;
    } else {
      BackoffGrowsToItsCap(crashes - 1);
    }
  }

  /** The instance number of a worker: the parent's number times the workers, plus the slot. */
  function WorkerInstanceLabel(base: nat, workers: nat, slot: nat): nat {
    base * workers + slot
  }

  /** Primaries with the same number of workers never give two workers the same number. */
  lemma WorkerLabelsDoNotOverlap(workers: nat, base: nat, slot: nat, base': nat, slot': nat)
    requires slot < workers && slot' < workers
    ensures WorkerInstanceLabel(base, workers, slot) == WorkerInstanceLabel(base', workers, slot')
            <==> base == base' && slot == slot'
  {
    if base < base' {
      assert base' * workers >= (base + 1) * workers == base * workers + workers;
    } else if base' < base {
      assert base * workers >= (base' + 1) * workers == base' * workers + workers;
    }
  }
}
