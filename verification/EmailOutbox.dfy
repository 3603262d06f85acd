/**
 * The delivery of claimed jobs, updating counters, circuits and statuses in place
 * (src/modules/assignments/email-outbox-delivery.service.ts); each method does what
 * module OutboxModel says.
 */
module EmailOutbox {
  import opened Common
  import M = OutboxModel
  import B = SmtpBatchModel
  import SmtpClient

  class EmailOutbox {
    const config: M.Config
    var stats: M.Stats
    var tenantSmtpCircuits: map<string, M.Circuit>
    /** The status writes, in order. */
    var writes: seq<M.Write>

    constructor (config: M.Config)
      ensures State() == M.Start && this.config == config
    {
      this.config := config;
      stats, tenantSmtpCircuits, writes := M.Stats(0, 0, 0, 0, 0), map[], [];
    }

    function State(): M.State
      reads this
    {
      M.State(writes, stats, tenantSmtpCircuits)
    }

    method MarkJobSent(job: M.Job)
      modifies this`writes, this`stats
      ensures State() == M.MarkSent(old(State()), job)
    {
      writes := writes + [M.Write(job.id, M.Sent)];
      stats := stats.(sent := stats.sent + 1);
    }

    method MarkJobRetry(job: M.Job)
      modifies this`writes, this`stats
      ensures State() == M.MarkRetry(old(State()), job)
    {
      var nextAttempts := job.attempts + 1;
      if nextAttempts >= job.maxAttempts {
        writes := writes + [M.Write(job.id, M.GiveUp(nextAttempts))];
        stats := stats.(failed := stats.failed + 1);
      } else {
        writes := writes + [M.Write(job.id, M.Retry(nextAttempts))];
        stats := stats.(retried := stats.retried + 1);
      }
    }

    method ReleaseJobs(jobs: seq<M.Job>, until: int)
      modifies this`writes, this`stats
      ensures State() == M.ReleaseAll(old(State()), jobs, until)
    {
      for i := 0 to |jobs|
        invariant State() == M.ReleaseAll(old(State()), jobs[..i], until)
      {
        writes := writes + [M.Write(jobs[i].id, M.Release(until))];
        stats := stats.(cooldownSkipped := stats.cooldownSkipped + 1);
        assert jobs[..i + 1][..i] == jobs[..i];
      }
      assert jobs[..|jobs|] == jobs;
    }

    method RetryJobs(jobs: seq<M.Job>)
      modifies this`writes, this`stats
      ensures State() == M.RetryAll(old(State()), jobs)
    {
      for i := 0 to |jobs|
        invariant State() == M.RetryAll(old(State()), jobs[..i])
      {
        MarkJobRetry(jobs[i]);
        assert jobs[..i + 1][..i] == jobs[..i];
      }
      assert jobs[..|jobs|] == jobs;
    }

    /** filterDeliverableOutboxJobs: keeps the deliverable jobs, in order, and deletes the others. */
    method FilterDeliverable(jobs: seq<M.Job>, deliverable: set<string>) returns (kept: seq<M.Job>)
      modifies this`writes
      ensures kept == M.Deliverable(jobs, deliverable)
      ensures State() == M.DeleteAll(old(State()), M.Cancelled(jobs, deliverable))
    {
      kept := [];
      for i := 0 to |jobs|
        invariant kept == M.Deliverable(jobs[..i], deliverable)
        invariant State() == M.DeleteAll(old(State()), M.Cancelled(jobs[..i], deliverable))
      {
        M.FilterOneMore(old(State()), jobs, i, deliverable);
        if jobs[i].id in deliverable {
          kept := kept + [jobs[i]];
        } else {
          writes := writes + [M.Write(jobs[i].id, M.Delete)];
        }
      }
      assert jobs[..|jobs|] == jobs;
    }

    method MarkTenantSmtpSuccess(tenant: string)
      modifies this`tenantSmtpCircuits
      ensures State() == M.Recovered(old(State()), tenant)
    {
      tenantSmtpCircuits := tenantSmtpCircuits - {tenant};
    }

    method MarkTenantSmtpFailure(tenant: string, infrastructure: bool, now: int)
      modifies this`tenantSmtpCircuits, this`stats
      ensures State() == M.Failure(old(State()), tenant, infrastructure, now, config)
    {
      if !infrastructure {
        return;
      }
      var failures, previousCooldownMs, cooling := 1, config.cooldownMs, false;
      if tenant in tenantSmtpCircuits {
        var current := tenantSmtpCircuits[tenant];
        failures := current.failures + 1;
        if current.cooldownMs != 0 {
          previousCooldownMs := current.cooldownMs;
        }
        cooling := current.cooldownUntil > now;
      }
      var shouldOpen := failures >= config.threshold;
      var cooldownMs := previousCooldownMs;
      if shouldOpen {
        cooldownMs := Min(if cooling then previousCooldownMs * 2 else previousCooldownMs, config.maxCooldownMs);
      }
      var cooldownUntil := if shouldOpen then now + cooldownMs else 0;
      tenantSmtpCircuits := tenantSmtpCircuits[tenant := M.Circuit(failures, cooldownUntil, cooldownMs)];
      if shouldOpen {
        stats := stats.(circuitOpened := stats.circuitOpened + 1);
      }
    }

    /** markResult for every result of the batch, in order, then the retry of the jobs without one. */
    method MarkSlice(jobs: seq<M.Job>, slice: seq<M.Job>, call: B.Call, infrastructure: nat -> bool)
      returns (successes: nat, error: Option<bool>)
      modifies this`writes, this`stats
      ensures var m := M.MarkResults(M.Marks(old(State()), {}, 0, None), jobs, call.results, infrastructure);
        State() == M.MarkUnseen(m, slice) && successes == m.successes && error == m.error
    {
      var seen: set<string> := {};
      successes, error := 0, None;
      ghost var start := M.Marks(State(), {}, 0, None);
      for i := 0 to |call.results|
        invariant M.Marks(State(), seen, successes, error)
               == M.MarkResults(start, jobs, call.results[..i], infrastructure)
      {
        var r := call.results[i];
        var job := M.FindJob(jobs, r.id);
        if r.id !in seen && job.Some? {
          if r.error == None {
            MarkJobSent(job.value);
            successes := successes + 1;
          } else {
            if infrastructure(i) {
              error := Some(true);
            }
            MarkJobRetry(job.value);
          }
          seen := seen + {r.id};
        }
        assert call.results[..i + 1][..i] == call.results[..i];
      }
      assert call.results[..|call.results|] == call.results;
      ghost var m := M.Marks(State(), seen, successes, error);
      for i := 0 to |slice|
        invariant State() == M.MarkUnseen(m, slice[..i])
      {
        if slice[i].id !in seen {
          MarkJobRetry(slice[i]);
        }
        assert slice[..i + 1][..i] == slice[..i];
      }
      assert slice[..|slice|] == slice;
    }

    method SendSlice(tenant: string, jobs: seq<M.Job>, claimed: seq<M.Job>, w: M.SliceWorld)
      modifies this
      ensures State() == M.SendSlice(old(State()), tenant, jobs, claimed, w, config)
    {
      var slice := FilterDeliverable(claimed, w.deliverable);
      if |slice| == 0 {
        return;
      }
      var call := SmtpClient.SendSmtpMailBatch(
        B.World(w.server, w.connects, w.script, []), M.Mails(slice), config.sessionMax);
      var successes, error := MarkSlice(jobs, slice, call, w.infrastructure);
      if !call.returned {
        error := Some(w.thrownInfrastructure);
      }
      if successes > 0 {
        MarkTenantSmtpSuccess(tenant);
      } else if error.Some? {
        MarkTenantSmtpFailure(tenant, error.value, w.now);
      }
    }

    method SendSliceAt(tenant: string, jobs: seq<M.Job>, start: nat, w: M.GroupWorld)
      requires config.sessionMax >= 1
      modifies this
      ensures State() == M.SendSliceAt(tenant, jobs, w, config)(old(State()), start)
    {
      SendSlice(tenant, jobs, M.SliceAt(jobs, start, config.sessionMax), w.slices(start));
    }

    /** The loop over the slices of a group. */
    method SendSlices(tenant: string, jobs: seq<M.Job>, w: M.GroupWorld)
      requires config.sessionMax >= 1
      modifies this
      ensures State() == M.SendSlices(old(State()), jobs, 0, config.sessionMax, M.SendSliceAt(tenant, jobs, w, config))
    {
      ghost var send := M.SendSliceAt(tenant, jobs, w, config);
      var start := 0;
      while start < |jobs|
        invariant 0 <= start
        invariant M.SendSlices(old(State()), jobs, 0, config.sessionMax, send)
          == M.SendSlices(State(), jobs, start, config.sessionMax, send)
      {
        SendSliceAt(tenant, jobs, start, w);
        start := start + config.sessionMax;
      }
    }

    method SendClaimedTenantGroup(tenant: string, jobs: seq<M.Job>, w: M.GroupWorld)
      requires config.sessionMax >= 1
      modifies this
      ensures State() == M.SendGroup(old(State()), tenant, jobs, w, config)
    {
      if |jobs| == 0 {
        return;
      }
      if tenant in tenantSmtpCircuits && tenantSmtpCircuits[tenant].cooldownUntil > w.now {
        ReleaseJobs(jobs, tenantSmtpCircuits[tenant].cooldownUntil);
        return;
      }
      if !w.configOk {
        MarkTenantSmtpFailure(tenant, w.configInfrastructure, w.now);
        RetryJobs(jobs);
        return;
      }
      SendSlices(tenant, jobs, w);
    }
  }
}
