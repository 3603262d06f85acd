/**
 * Delivering the claimed outbox jobs of one tenant (sendClaimedEmailOutboxTenantGroup
 * and what it calls in src/modules/assignments/email-outbox-delivery.service.ts).
 * Status writes succeed, so the result callback of the SMTP batch never throws and
 * may be modelled as running after the batch.
 */
module OutboxModel {
  import opened Common
  import B = SmtpBatchModel

  datatype Job = Job(id: string, recipient: string, attempts: nat, maxAttempts: nat)

  datatype Outcome =
    | Sent
    /** Back to pending, or failed for good, after so many attempts. */
    | Retry(attempts: nat)
    | GiveUp(attempts: nat)
    /** Released unsent until the cooldown of its tenant ends. */
    | Release(until: int)
    /** Not deliverable any more. */
    | Delete

  datatype Write = Write(id: string, outcome: Outcome)

  datatype Stats = Stats(sent: nat, retried: nat, failed: nat, cooldownSkipped: nat, circuitOpened: nat)

  datatype Circuit = Circuit(failures: nat, cooldownUntil: int, cooldownMs: int)

  /** `writes` is the log of status writes. */
  datatype State = State(writes: seq<Write>, stats: Stats, circuits: map<string, Circuit>)

  const Start := State([], Stats(0, 0, 0, 0, 0), map[])

  datatype Config = Config(sessionMax: int, threshold: int, cooldownMs: int, maxCooldownMs: int)

  /** The bounds email-outbox.config.ts puts on the settings. */
  predicate ValidConfig(c: Config) {
    c.sessionMax >= 1 && c.threshold >= 1 && 1_000 <= c.cooldownMs <= c.maxCooldownMs
  }

  // ── One job ──

  function MarkSent(s: State, job: Job): State {
    s.(writes := s.writes + [Write(job.id, Sent)], stats := s.stats.(sent := s.stats.sent + 1))
  }

  function RetryOutcome(job: Job): Outcome {
    if job.attempts + 1 >= job.maxAttempts then GiveUp(job.attempts + 1) else Retry(job.attempts + 1)
  }

  function MarkRetry(s: State, job: Job): State {
    var outcome := RetryOutcome(job);
    s.(writes := s.writes + [Write(job.id, outcome)],
       stats := if outcome.GiveUp? then s.stats.(failed := s.stats.failed + 1)
                else s.stats.(retried := s.stats.retried + 1))
  }

  function MarkRelease(s: State, job: Job, until: int): State {
    s.(writes := s.writes + [Write(job.id, Release(until))],
       stats := s.stats.(cooldownSkipped := s.stats.cooldownSkipped + 1))
  }

  function MarkDelete(s: State, job: Job): State {
    s.(writes := s.writes + [Write(job.id, Delete)])
  }

  function RetryAll(s: State, jobs: seq<Job>): State {
    if jobs == [] then s else MarkRetry(RetryAll(s, jobs[..|jobs| - 1]), jobs[|jobs| - 1])
  }

  function ReleaseAll(s: State, jobs: seq<Job>, until: int): State {
    if jobs == [] then s else MarkRelease(ReleaseAll(s, jobs[..|jobs| - 1], until), jobs[|jobs| - 1], until)
  }

  function DeleteAll(s: State, jobs: seq<Job>): State {
    if jobs == [] then s else MarkDelete(DeleteAll(s, jobs[..|jobs| - 1]), jobs[|jobs| - 1])
  }

  // ── The circuit of a tenant ──

  predicate CoolingDown(s: State, tenant: string, now: int) {
    tenant in s.circuits && s.circuits[tenant].cooldownUntil > now
  }

  function Recovered(s: State, tenant: string): State { s.(circuits := s.circuits - {tenant}) }

  /** A failure of the tenant's SMTP: from the threshold on it opens the circuit, longer if it is still cooling. */
  function NextCircuit(s: State, tenant: string, now: int, c: Config): Circuit {
    var known := tenant in s.circuits;
    var failures := (if known then s.circuits[tenant].failures else 0) + 1;
    var previous := if known && s.circuits[tenant].cooldownMs != 0 then s.circuits[tenant].cooldownMs else c.cooldownMs;
    if failures >= c.threshold then
      var cooldown := Min(if CoolingDown(s, tenant, now) then 2 * previous else previous, c.maxCooldownMs);
      Circuit(failures, now + cooldown, cooldown)
    else
      Circuit(failures, 0, previous)
  }

  /** `infrastructure` says whether the message of the error is one of the infrastructure. */
  function Failure(s: State, tenant: string, infrastructure: bool, now: int, c: Config): State {
    if !infrastructure then s
    else
      var next := NextCircuit(s, tenant, now, c);
      s.(circuits := s.circuits[tenant := next],
         stats := if next.failures >= c.threshold then s.stats.(circuitOpened := s.stats.circuitOpened + 1)
                  else s.stats)
  }

  // ── One slice ──

  /** The state of the result callback. */
  datatype Marks = Marks(state: State, seen: set<string>, successes: nat, error: Option<bool>)

  /** The job of an id; a later one replaces an earlier one. */
  function FindJob(jobs: seq<Job>, id: string): Option<Job> {
    if jobs == [] then None
    else if jobs[|jobs| - 1].id == id then Some(jobs[|jobs| - 1])
    else FindJob(jobs[..|jobs| - 1], id)
  }

  /** markResult: `infrastructure` is about the result's error message. */
  function MarkResult(m: Marks, jobs: seq<Job>, r: B.Result, infrastructure: bool): Marks {
    if r.id in m.seen then m
    else
      match FindJob(jobs, r.id)
      case None => m
      case Some(job) =>
        if r.error.None? then
          Marks(MarkSent(m.state, job), m.seen + {r.id}, m.successes + 1, m.error)
        else
          Marks(MarkRetry(m.state, job), m.seen + {r.id}, m.successes, if infrastructure then Some(true) else m.error)
  }

  function MarkResults(m: Marks, jobs: seq<Job>, results: seq<B.Result>, infrastructure: nat -> bool): Marks {
    if results == [] then m
    else
      var n := |results| - 1;
      MarkResult(MarkResults(m, jobs, results[..n], infrastructure), jobs, results[n], infrastructure(n))
  }

  function MarkUnseen(m: Marks, slice: seq<Job>): State {
    if slice == [] then m.state
    else
      var before := MarkUnseen(m, slice[..|slice| - 1]);
      if slice[|slice| - 1].id in m.seen then before else MarkRetry(before, slice[|slice| - 1])
  }

  /**
   * What a slice depends on: the answer about deliverable ids, the server and the
   * network, which error messages are about infrastructure, and the clock.
   */
  datatype SliceWorld = SliceWorld(
    deliverable: set<string>, server: B.Server, connects: bool, script: seq<B.Answer>,
    infrastructure: nat -> bool, thrownInfrastructure: bool, now: int)

  function Deliverable(jobs: seq<Job>, ids: set<string>): (kept: seq<Job>)
    ensures |kept| <= |jobs|
  {
    if jobs == [] then []
    else
      var before := Deliverable(jobs[..|jobs| - 1], ids);
      if jobs[|jobs| - 1].id in ids then before + [jobs[|jobs| - 1]] else before
  }

  function Cancelled(jobs: seq<Job>, ids: set<string>): seq<Job> {
    if jobs == [] then []
    else
      var before := Cancelled(jobs[..|jobs| - 1], ids);
      if jobs[|jobs| - 1].id in ids then before else before + [jobs[|jobs| - 1]]
  }

  lemma FilterOneMore(s: State, jobs: seq<Job>, i: nat, ids: set<string>)
    requires i < |jobs|
    ensures Deliverable(jobs[..i + 1], ids) == Deliverable(jobs[..i], ids) + if jobs[i].id in ids then [jobs[i]] else []
    ensures DeleteAll(s, Cancelled(jobs[..i + 1], ids))
         == if jobs[i].id in ids then DeleteAll(s, Cancelled(jobs[..i], ids))
            else MarkDelete(DeleteAll(s, Cancelled(jobs[..i], ids)), jobs[i])
  {
    var cancelled := Cancelled(jobs[..i], ids);
    assert jobs[..i + 1][..i] == jobs[..i];
    assert (cancelled + [jobs[i]])[..|cancelled|] == cancelled;
  }

  function Mails(jobs: seq<Job>): (mails: seq<B.Mail>)
    ensures |mails| == |jobs| && forall i :: 0 <= i < |jobs| ==> mails[i] == B.Mail(jobs[i].id, jobs[i].recipient)
  {
    seq(|jobs|, i requires 0 <= i < |jobs| => B.Mail(jobs[i].id, jobs[i].recipient))
  }

  /** The call of sendSmtpMailBatch for a slice; the callback does not throw. */
  function BatchCall(slice: seq<Job>, w: SliceWorld, c: Config): B.Call {
    B.SendBatch(B.World(w.server, w.connects, w.script, []), Mails(slice), c.sessionMax)
  }

  /** The end of a slice: the circuit recovers with any success, and otherwise counts the last error. */
  function SettleCircuit(s: State, tenant: string, successes: nat, error: Option<bool>, now: int, c: Config): State {
    if successes > 0 then Recovered(s, tenant)
    else if error.Some? then Failure(s, tenant, error.value, now, c)
    else s
  }

  /** How sending ended for the jobs that reached SMTP. */
  datatype Attempt = Attempt(state: State, successes: nat, error: Option<bool>)

  function SendKept(s: State, jobs: seq<Job>, slice: seq<Job>, w: SliceWorld, c: Config): Attempt {
    var call := BatchCall(slice, w, c);
    var m := MarkResults(Marks(s, {}, 0, None), jobs, call.results, w.infrastructure);
    Attempt(MarkUnseen(m, slice), m.successes, if call.returned then m.error else Some(w.thrownInfrastructure))
  }

  /** Sending a slice's deliverable jobs, if it has any, and the verdict on the tenant's SMTP. */
  function SendDeliverable(s: State, tenant: string, jobs: seq<Job>, slice: seq<Job>, w: SliceWorld, c: Config): State {
    if slice == [] then s
    else
      var a := SendKept(s, jobs, slice, w, c);
      SettleCircuit(a.state, tenant, a.successes, a.error, w.now, c)
  }

  function SendSlice(s: State, tenant: string, jobs: seq<Job>, claimed: seq<Job>, w: SliceWorld, c: Config): State {
    SendDeliverable(DeleteAll(s, Cancelled(claimed, w.deliverable)), tenant, jobs,
                    Deliverable(claimed, w.deliverable), w, c)
  }

  // ── The group ──

  /** `configOk`: the tenant has a usable SMTP configuration. */
  datatype GroupWorld = GroupWorld(now: int, configOk: bool, configInfrastructure: bool, slices: nat -> SliceWorld)

  /** The slice of at most `max` jobs from `start` on. */
  function SliceAt(jobs: seq<Job>, start: nat, max: int): (slice: seq<Job>)
    requires max >= 1
    ensures |slice| <= max
  {
    if start >= |jobs| then [] else jobs[start..Min(start + max, |jobs|)]
  }

  /** The loop over the slices; `send` sends the one that starts at an index. */
  function SendSlices(s: State, jobs: seq<Job>, start: nat, max: int, send: (State, nat) -> State): State
    requires max >= 1
    decreases |jobs| - start
  {
    if start >= |jobs| then s else SendSlices(send(s, start), jobs, start + max, max, send)
  }

  function SendSliceAt(tenant: string, jobs: seq<Job>, w: GroupWorld, c: Config): (State, nat) -> State
    requires c.sessionMax >= 1
  {
    (s: State, start: nat) => SendSlice(s, tenant, jobs, SliceAt(jobs, start, c.sessionMax), w.slices(start), c)
  }

  function SendGroup(s: State, tenant: string, jobs: seq<Job>, w: GroupWorld, c: Config): State
    requires c.sessionMax >= 1
  {
    if jobs == [] then s
    else if CoolingDown(s, tenant, w.now) then ReleaseAll(s, jobs, s.circuits[tenant].cooldownUntil)
    else if !w.configOk then RetryAll(Failure(s, tenant, w.configInfrastructure, w.now, c), jobs)
    else SendSlices(s, jobs, 0, c.sessionMax, SendSliceAt(tenant, jobs, w, c))
  }
}
