/**
 * What is written about each job of the outbox, and what a tenant's failures add up to
 * (src/modules/assignments/email-outbox-delivery.service.ts).
 */
module OutboxOutcomes {
  import opened Common
  import opened OutboxCircuits
  import opened OutboxModel
  import opened OutboxProofs
  import opened OutboxTheorems
  import B = SmtpBatchModel
  import D = SmtpDeliveries
  import P = SmtpBatchProofs

  // ── Attempts ──

  /**
   * A job that was not sent goes back with one attempt more as long as that stays below its
   * maximum, and is given up, with as many, once it does not.
   */
  predicate Fits(w: Write, job: Job) {
    w.id == job.id &&
    match w.outcome
    case Retry(attempts) => attempts == job.attempts + 1 && attempts < job.maxAttempts
    case GiveUp(attempts) => attempts == job.attempts + 1 && attempts >= job.maxAttempts
    case _ => true
  }

  ghost predicate FitsOneOf(w: Write, jobs: seq<Job>) {
    exists job :: job in jobs && Fits(w, job)
  }

  /** What was written from `s` to `t` fits the jobs. */
  ghost predicate AllFit(s: State, t: State, jobs: seq<Job>) {
    s.writes <= t.writes && forall k :: |s.writes| <= k < |t.writes| ==> FitsOneOf(t.writes[k], jobs)
  }

  lemma FitGrows(s: State, t: State, u: State, jobs: seq<Job>, w: Write, job: Job)
    requires AllFit(s, t, jobs) && u.writes == t.writes + [w] && job in jobs && Fits(w, job)
    ensures AllFit(s, u, jobs)
  {
    assert FitsOneOf(w, jobs);
  }

  lemma FitChain(s: State, t: State, u: State, jobs: seq<Job>)
    requires AllFit(s, t, jobs) && AllFit(t, u, jobs)
    ensures AllFit(s, u, jobs)
  {
    assert forall k :: |s.writes| <= k < |t.writes| ==> u.writes[k] == t.writes[k];
  }

  lemma RetryFits(s: State, t: State, jobs: seq<Job>, job: Job)
    requires AllFit(s, t, jobs) && job in jobs
    ensures AllFit(s, MarkRetry(t, job), jobs)
  {
    FitGrows(s, t, MarkRetry(t, job), jobs, Write(job.id, RetryOutcome(job)), job);
  }

  lemma {:induction false} RetryAllFits(s: State, some: seq<Job>, jobs: seq<Job>)
    requires forall job :: job in some ==> job in jobs
    ensures AllFit(s, RetryAll(s, some), jobs)
  {
    if |some| > 0 {
      RetryAllFits(s, some[..|some| - 1], jobs);
      RetryFits(s, RetryAll(s, some[..|some| - 1]), jobs, some[|some| - 1]);
    }
  }

  lemma {:induction false} ReleaseAllFits(s: State, some: seq<Job>, until: int, jobs: seq<Job>)
    requires forall job :: job in some ==> job in jobs
    ensures AllFit(s, ReleaseAll(s, some, until), jobs)
  {
    if |some| > 0 {
      var t, job := ReleaseAll(s, some[..|some| - 1], until), some[|some| - 1];
      ReleaseAllFits(s, some[..|some| - 1], until, jobs);
      FitGrows(s, t, MarkRelease(t, job, until), jobs, Write(job.id, Release(until)), job);
    }
  }

  lemma {:induction false} DeleteAllFits(s: State, some: seq<Job>, jobs: seq<Job>)
    requires forall job :: job in some ==> job in jobs
    ensures AllFit(s, DeleteAll(s, some), jobs)
  {
    if |some| > 0 {
      var t, job := DeleteAll(s, some[..|some| - 1]), some[|some| - 1];
      DeleteAllFits(s, some[..|some| - 1], jobs);
      FitGrows(s, t, MarkDelete(t, job), jobs, Write(job.id, Delete), job);
    }
  }

  lemma {:induction false} FoundIsThere(jobs: seq<Job>, id: string)
    ensures FindJob(jobs, id).Some? ==> FindJob(jobs, id).value in jobs && FindJob(jobs, id).value.id == id
  {
    if |jobs| > 0 { FoundIsThere(jobs[..|jobs| - 1], id); }
  }

  lemma ResultFits(s: State, m: Marks, jobs: seq<Job>, r: B.Result, infrastructure: bool)
    requires AllFit(s, m.state, jobs)
    ensures AllFit(s, MarkResult(m, jobs, r, infrastructure).state, jobs)
  {
    FoundIsThere(jobs, r.id);
    if r.id !in m.seen && FindJob(jobs, r.id).Some? {
      var job := FindJob(jobs, r.id).value;
      if r.error.None? {
        FitGrows(s, m.state, MarkSent(m.state, job), jobs, Write(job.id, Sent), job);
      } else {
        RetryFits(s, m.state, jobs, job);
      }
    }
  }

  lemma {:induction false} ResultsFit(m: Marks, jobs: seq<Job>, results: seq<B.Result>, infrastructure: nat -> bool)
    ensures AllFit(m.state, MarkResults(m, jobs, results, infrastructure).state, jobs)
  {
    if |results| > 0 {
      var n := |results| - 1;
      ResultsFit(m, jobs, results[..n], infrastructure);
      ResultFits(m.state, MarkResults(m, jobs, results[..n], infrastructure), jobs, results[n], infrastructure(n));
    }
  }

  lemma {:induction false} UnseenFit(m: Marks, slice: seq<Job>, jobs: seq<Job>)
    requires forall job :: job in slice ==> job in jobs
    ensures AllFit(m.state, MarkUnseen(m, slice), jobs)
  {
    if |slice| > 0 {
      var n := |slice| - 1;
      UnseenFit(m, slice[..n], jobs);
      RetryFits(m.state, MarkUnseen(m, slice[..n]), jobs, slice[n]);
    }
  }

  lemma {:induction false} PartsOfClaimed(claimed: seq<Job>, ids: set<string>, job: Job)
    ensures job in Deliverable(claimed, ids) || job in Cancelled(claimed, ids) ==> job in claimed
  {
    if |claimed| > 0 { PartsOfClaimed(claimed[..|claimed| - 1], ids, job); }
  }

  lemma KeptFit(s: State, jobs: seq<Job>, slice: seq<Job>, w: SliceWorld, c: Config)
    requires forall job :: job in slice ==> job in jobs
    ensures AllFit(s, SendKept(s, jobs, slice, w, c).state, jobs)
  {
    var m := MarkResults(Marks(s, {}, 0, None), jobs, BatchCall(slice, w, c).results, w.infrastructure);
    ResultsFit(Marks(s, {}, 0, None), jobs, BatchCall(slice, w, c).results, w.infrastructure);
    UnseenFit(m, slice, jobs);
    FitChain(s, m.state, MarkUnseen(m, slice), jobs);
  }

  lemma SliceFits(s: State, tenant: string, jobs: seq<Job>, claimed: seq<Job>, w: SliceWorld, c: Config)
    requires forall job :: job in claimed ==> job in jobs
    ensures AllFit(s, SendSlice(s, tenant, jobs, claimed, w, c), jobs)
  {
    var slice, cancelled := Deliverable(claimed, w.deliverable), Cancelled(claimed, w.deliverable);
    var t := DeleteAll(s, cancelled);
    forall job | job in slice || job in cancelled ensures job in jobs { PartsOfClaimed(claimed, w.deliverable, job); }
    DeleteAllFits(s, cancelled, jobs);
    if |slice| > 0 {
      var a := SendKept(t, jobs, slice, w, c);
      KeptFit(t, jobs, slice, w, c);
      CircuitKeepsAccounts(a.state, tenant, a.successes, a.error, w.now, c);
      FitChain(s, t, SendSlice(s, tenant, jobs, claimed, w, c), jobs);
    }
  }

  /** Sending the slice at an index writes what fits. */
  ghost predicate SendsFitting(send: (State, nat) -> State, jobs: seq<Job>) {
    forall t, k: nat :: AllFit(t, send(t, k), jobs)
  }

  lemma SendingFits(tenant: string, jobs: seq<Job>, w: GroupWorld, c: Config)
    requires c.sessionMax >= 1
    ensures SendsFitting(SendSliceAt(tenant, jobs, w, c), jobs)
  {
    forall t, k: nat ensures AllFit(t, SendSliceAt(tenant, jobs, w, c)(t, k), jobs) {
      SliceFits(t, tenant, jobs, SliceAt(jobs, k, c.sessionMax), w.slices(k), c);
    }
  }

  lemma {:induction false} SlicesFit(s: State, jobs: seq<Job>, start: nat, max: int, send: (State, nat) -> State)
    requires max >= 1 && SendsFitting(send, jobs)
    ensures AllFit(s, SendSlices(s, jobs, start, max, send), jobs)
    decreases |jobs| - start
  {
    if start < |jobs| {
      assert AllFit(s, send(s, start), jobs);
      SlicesFit(send(s, start), jobs, start + max, max, send);
      FitChain(s, send(s, start), SendSlices(s, jobs, start, max, send), jobs);
    }
  }

  lemma GroupFits(s: State, tenant: string, jobs: seq<Job>, w: GroupWorld, c: Config)
    requires c.sessionMax >= 1
    ensures AllFit(s, SendGroup(s, tenant, jobs, w, c), jobs)
  {
    if |jobs| > 0 {
      if CoolingDown(s, tenant, w.now) {
        ReleaseAllFits(s, jobs, s.circuits[tenant].cooldownUntil, jobs);
      } else if !w.configOk {
        RetryAllFits(Failure(s, tenant, w.configInfrastructure, w.now, c), jobs, jobs);
      } else {
        SendingFits(tenant, jobs, w, c);
        SlicesFit(s, jobs, 0, c.sessionMax, SendSliceAt(tenant, jobs, w, c));
      }
    }
  }

  lemma FitMore(s: State, t: State, some: seq<Job>, jobs: seq<Job>)
    requires AllFit(s, t, some) && forall job :: job in some ==> job in jobs
    ensures AllFit(s, t, jobs)
  {
    forall k | |s.writes| <= k < |t.writes| ensures FitsOneOf(t.writes[k], jobs) {
      assert FitsOneOf(t.writes[k], some);
      var job :| job in some && Fits(t.writes[k], job);
    }
  }

  /**
   * Over any groups, every status that is written is about one of their jobs, and fits it: a
   * failure adds one attempt, and a job is given up exactly when that makes as many as its
   * maximum allows.
   */
  lemma {:induction false} OutcomesFitTheirJobs(groups: seq<Group>, c: Config)
    requires c.sessionMax >= 1
    ensures AllFit(Start, SendGroups(groups, c), AllJobs(groups))
  {
    if |groups| > 0 {
      var n := |groups| - 1;
      var g, before := groups[n], SendGroups(groups[..n], c);
      OutcomesFitTheirJobs(groups[..n], c);
      FitMore(Start, before, AllJobs(groups[..n]), AllJobs(groups));
      GroupFits(before, g.tenant, g.jobs, g.world, c);
      FitMore(before, SendGroups(groups, c), g.jobs, AllJobs(groups));
      FitChain(Start, before, SendGroups(groups, c), AllJobs(groups));
    }
  }

  /** A second result for a job changes nothing, whatever it says. */
  lemma SecondResultIsIgnored(m: Marks, jobs: seq<Job>, first: B.Result, second: B.Result, infrastructure: bool,
                              also: bool)
    requires first.id == second.id && FindJob(jobs, first.id).Some?
    ensures var once := MarkResult(m, jobs, first, infrastructure); MarkResult(once, jobs, second, also) == once
  {
  }

  // ── Who gets which mail ──

  lemma {:induction false} DeliverableIds(claimed: seq<Job>, ids: set<string>, job: Job)
    ensures job in Deliverable(claimed, ids) <==> job in claimed && job.id in ids
  {
    if |claimed| > 0 {
      var n := |claimed| - 1;
      DeliverableIds(claimed[..n], ids, job);
      assert claimed == claimed[..n] + [claimed[n]];
    }
  }

  predicate IsTo(recipient: B.Exchange, message: B.Exchange, job: Job) {
    recipient.command == B.RcptTo(job.recipient) && message.command == B.Payload(job.id)
  }

  /** The message at `k` belongs to a claimed job that is still deliverable, and goes to that job's recipient. */
  ghost predicate IsOfJob(trace: seq<B.Exchange>, k: nat, claimed: seq<Job>, ids: set<string>)
    requires k < |trace|
  {
    k >= 2 && exists job :: job in claimed && job.id in ids && IsTo(trace[k - 2], trace[k], job)
  }

  /**
   * Every message a slice writes is of one of its jobs that was still deliverable when SMTP was
   * about to be used, and goes to the recipient of that job: nothing is sent for a job that was cancelled.
   */
  lemma OnlyDeliverableMailsAreSent(claimed: seq<Job>, w: SliceWorld, c: Config, k: nat)
    requires var trace := Trace(Deliverable(claimed, w.deliverable), w, c);
      k < |trace| && trace[k].command.Payload?
    ensures IsOfJob(Trace(Deliverable(claimed, w.deliverable), w, c), k, claimed, w.deliverable)
  {
    var slice := Deliverable(claimed, w.deliverable);
    var mails, trace := Mails(slice), BatchCall(slice, w, c).trace;
    D.MailsGoToTheirRecipients(B.World(w.server, w.connects, w.script, []), mails, c.sessionMax);
    assert D.IsAddressed(trace, k, B.Taken(mails, c.sessionMax));
    var m :| m in B.Taken(mails, c.sessionMax)
      && trace[k].command == B.Payload(m.id) && trace[k - 2].command == B.RcptTo(m.to);
    var i :| 0 <= i < |mails| && mails[i] == m;
    DeliverableIds(claimed, w.deliverable, slice[i]);
    assert IsTo(trace[k - 2], trace[k], slice[i]);
  }

  // ── The verdict of a slice on its tenant ──

  /** Some mail of the slice failed with an error of the infrastructure. */
  ghost predicate AnyInfrastructure(results: seq<B.Result>, infrastructure: nat -> bool) {
    exists k: nat :: k < |results| && results[k].error.Some? && infrastructure(k)
  }

  lemma AnyGrows(results: seq<B.Result>, infrastructure: nat -> bool)
    requires |results| > 0
    ensures var n := |results| - 1;
      (AnyInfrastructure(results, infrastructure)
       <==> AnyInfrastructure(results[..n], infrastructure) || (results[n].error.Some? && infrastructure(n)))
  {
    var n := |results| - 1;
    if k: nat :| k < n && results[..n][k].error.Some? && infrastructure(k) { assert results[k].error.Some?; }
    if k: nat :| k < n && results[k].error.Some? && infrastructure(k) { assert results[..n][k].error.Some?; }
  }

  lemma {:induction false} ErrorOfResults(s: State, jobs: seq<Job>, slice: seq<Job>, results: seq<B.Result>,
                                          infrastructure: nat -> bool)
    requires NoDuplicates(Ids(slice)) && Matches(jobs, slice, results)
    ensures MarkResults(Marks(s, {}, 0, None), jobs, results, infrastructure).error
         == if AnyInfrastructure(results, infrastructure) then Some(true) else None
  {
    if |results| > 0 {
      var n := |results| - 1;
      PrefixUnique(slice, n);
      ErrorOfResults(s, jobs, slice[..n], results[..n], infrastructure);
      MarkResultsMarks(s, jobs, slice[..n], results[..n], infrastructure, "");
      AnyGrows(results, infrastructure);
    }
  }

  /** The error a slice is judged by: that of the call when it threw, else any infrastructure error of its mails. */
  ghost function SliceError(slice: seq<Job>, w: SliceWorld, c: Config): Option<bool> {
    var call := BatchCall(slice, w, c);
    if !call.returned then Some(w.thrownInfrastructure)
    else if AnyInfrastructure(call.results, w.infrastructure) then Some(true)
    else None
  }

  lemma AttemptError(s: State, jobs: seq<Job>, slice: seq<Job>, w: SliceWorld, c: Config)
    requires slice != [] && |slice| <= c.sessionMax && NoDuplicates(Ids(slice)) && FoundIn(jobs, slice)
    ensures SendKept(s, jobs, slice, w, c).error == SliceError(slice, w, c)
  {
    hide AnyInfrastructure, MarkResults, MarkUnseen, BatchCall;
    var call := BatchCall(slice, w, c);
    AllResultsOrNone(slice, w, c);
    if call.returned {
      ResultsMatch(jobs, slice, call.results);
      ErrorOfResults(s, jobs, slice, call.results, w.infrastructure);
    }
  }

  /**
   * A slice that reaches SMTP is judged by what the server accepted and by any error of the infrastructure,
   * whichever mail met it: one accepted mail closes the tenant's circuit, and without any such
   * an error counts as one failure.
   */
  lemma SliceVerdict(s: State, tenant: string, jobs: seq<Job>, slice: seq<Job>, w: SliceWorld, c: Config)
    requires slice != [] && |slice| <= c.sessionMax && NoDuplicates(Ids(slice)) && FoundIn(jobs, slice)
    ensures var accepted := |P.AcceptedMails(BatchCall(slice, w, c).trace)|;
      SendDeliverable(s, tenant, jobs, slice, w, c).circuits
        == SettleCircuit(s, tenant, accepted, SliceError(slice, w, c), w.now, c).circuits
  {
    hide SendKept, SliceError, BatchCall, Handled, SentIds;
    SentSliceIsHandled(s, jobs, slice, w, c, "");
    SentKeepCircuits(s, jobs, slice, w, c);
    AttemptError(s, jobs, slice, w, c);
  }

  // ── Failures of a tenant ──

  /** How a slice ended for its tenant: how many mails were sent, the last error, and when. */
  datatype Verdict = Verdict(successes: nat, error: Option<bool>, now: nat)

  function SettleAll(s: State, tenant: string, verdicts: seq<Verdict>, c: Config): State {
    if |verdicts| == 0 then s
    else
      var v := verdicts[|verdicts| - 1];
      SettleCircuit(SettleAll(s, tenant, verdicts[..|verdicts| - 1], c), tenant, v.successes, v.error, v.now, c)
  }

  /** The failures of the infrastructure since the last success; other errors do not count. */
  function FailuresInARow(verdicts: seq<Verdict>): nat {
    if |verdicts| == 0 then 0
    else
      var before, v := FailuresInARow(verdicts[..|verdicts| - 1]), verdicts[|verdicts| - 1];
      if v.successes > 0 then 0 else if v.error == Some(true) then before + 1 else before
  }

  /** The verdict, after which there are so many failures in a row, opens the circuit. */
  predicate Opens(v: Verdict, failures: nat, c: Config) {
    v.successes == 0 && v.error == Some(true) && failures >= c.threshold
  }

  function Openings(verdicts: seq<Verdict>, c: Config): nat {
    if |verdicts| == 0 then 0
    else
      Openings(verdicts[..|verdicts| - 1], c)
      + if Opens(verdicts[|verdicts| - 1], FailuresInARow(verdicts), c) then 1 else 0
  }

  /** The circuit of a tenant is known exactly since its first failure in a row, and counts them. */
  ghost predicate CountsFailures(s: State, tenant: string, failures: nat, c: Config) {
    && (tenant in s.circuits <==> failures > 0)
    && (tenant in s.circuits ==> s.circuits[tenant].failures == failures && s.circuits[tenant].cooldownMs >= 1_000)
  }

  lemma VerdictCounts(s: State, tenant: string, v: Verdict, failures: nat, c: Config)
    requires ValidConfig(c) && CountsFailures(s, tenant, failures, c)
    ensures var t := SettleCircuit(s, tenant, v.successes, v.error, v.now, c);
      var now := if v.successes > 0 then 0 else if v.error == Some(true) then failures + 1 else failures;
      && CountsFailures(t, tenant, now, c)
      && (v.successes == 0 && v.error == Some(true) ==> (CoolingDown(t, tenant, v.now) <==> now >= c.threshold))
      && (v.successes > 0 ==> !CoolingDown(t, tenant, v.now))
      && t.circuits - {tenant} == s.circuits - {tenant}
      && t.stats.circuitOpened == s.stats.circuitOpened + if Opens(v, now, c) then 1 else 0
  {
  }

  /**
   * A tenant's circuit counts its failures in a row: after each one it is open exactly
   * when they are as many as the threshold, the first success closes and forgets it, and
   * no other tenant's circuit is touched.
   */
  lemma {:induction false} OpensAtTheThreshold(tenant: string, verdicts: seq<Verdict>, c: Config)
    requires ValidConfig(c)
    ensures var s, failures := SettleAll(Start, tenant, verdicts, c), FailuresInARow(verdicts);
      && CountsFailures(s, tenant, failures, c)
      && s.circuits - {tenant} == map[] && s.stats.circuitOpened == Openings(verdicts, c)
      && (|verdicts| > 0 ==>
            var v := verdicts[|verdicts| - 1];
            && (v.successes == 0 && v.error == Some(true) ==>
                  (CoolingDown(s, tenant, v.now) <==> failures >= c.threshold))
            && (v.successes > 0 ==> tenant !in s.circuits))
  {
    if |verdicts| > 0 {
      var n := |verdicts| - 1;
      OpensAtTheThreshold(tenant, verdicts[..n], c);
      VerdictCounts(SettleAll(Start, tenant, verdicts[..n], c), tenant, verdicts[n], FailuresInARow(verdicts[..n]), c);
    }
  }
}
