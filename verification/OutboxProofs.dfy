/** Every job of a group gets one outcome, and the counters add up. */
module OutboxProofs {
  import opened Common
  import opened OutboxModel
  import P = SmtpBatchProofs

  // ── Counting ──

  function Ids(jobs: seq<Job>): (ids: seq<string>)
    ensures |ids| == |jobs| && forall i :: 0 <= i < |jobs| ==> ids[i] == jobs[i].id
  {
    seq(|jobs|, i requires 0 <= i < |jobs| => jobs[i].id)
  }

  /** How often an id occurs among jobs, and how often it was written about. */
  function JobTimes(jobs: seq<Job>, id: string): nat {
    if jobs == [] then 0 else JobTimes(jobs[..|jobs| - 1], id) + if jobs[|jobs| - 1].id == id then 1 else 0
  }

  function WriteTimes(writes: seq<Write>, id: string): nat {
    if writes == [] then 0 else WriteTimes(writes[..|writes| - 1], id) + if writes[|writes| - 1].id == id then 1 else 0
  }

  lemma JobsAppend(jobs: seq<Job>, job: Job, id: string)
    ensures JobTimes(jobs + [job], id) == JobTimes(jobs, id) + if job.id == id then 1 else 0
  {
    assert (jobs + [job])[..|jobs|] == jobs;
  }

  lemma WritesAppend(writes: seq<Write>, w: Write, id: string)
    ensures WriteTimes(writes + [w], id) == WriteTimes(writes, id) + if w.id == id then 1 else 0
  {
    assert (writes + [w])[..|writes|] == writes;
  }

  lemma {:induction false} JobsConcat(a: seq<Job>, b: seq<Job>, id: string)
    ensures JobTimes(a + b, id) == JobTimes(a, id) + JobTimes(b, id)
  {
    if b == [] {
      assert a + b == a;
    } else {
      assert (a + b)[..|a + b| - 1] == a + b[..|b| - 1];
      JobsConcat(a, b[..|b| - 1], id);
    }
  }

  predicate IsSent(o: Outcome) { o.Sent? }
  predicate IsRetry(o: Outcome) { o.Retry? }
  predicate IsGiveUp(o: Outcome) { o.GiveUp? }
  predicate IsRelease(o: Outcome) { o.Release? }
  predicate IsDelete(o: Outcome) { o.Delete? }

  /** The writes with such an outcome. */
  function Tally(writes: seq<Write>, p: Outcome -> bool): nat {
    if writes == [] then 0
    else Tally(writes[..|writes| - 1], p) + if p(writes[|writes| - 1].outcome) then 1 else 0
  }

  lemma TallyAppend(writes: seq<Write>, w: Write, p: Outcome -> bool)
    ensures Tally(writes + [w], p) == Tally(writes, p) + if p(w.outcome) then 1 else 0
  {
    assert (writes + [w])[..|writes|] == writes;
  }

  /** Every counter is the number of writes it is about. */
  ghost predicate Accounted(s: State) {
    && s.stats.sent == Tally(s.writes, IsSent)
    && s.stats.retried == Tally(s.writes, IsRetry)
    && s.stats.failed == Tally(s.writes, IsGiveUp)
    && s.stats.cooldownSkipped == Tally(s.writes, IsRelease)
  }

  lemma {:induction false} EveryWriteCounts(writes: seq<Write>)
    ensures Tally(writes, IsSent) + Tally(writes, IsRetry) + Tally(writes, IsGiveUp)
            + Tally(writes, IsRelease) + Tally(writes, IsDelete) == |writes|
  {
    if writes != [] { EveryWriteCounts(writes[..|writes| - 1]); }
  }

  /** The counters follow one write. */
  predicate Counts(before: Stats, after: Stats, o: Outcome) {
    && after.sent == before.sent + (if o.Sent? then 1 else 0)
    && after.retried == before.retried + (if o.Retry? then 1 else 0)
    && after.failed == before.failed + (if o.GiveUp? then 1 else 0)
    && after.cooldownSkipped == before.cooldownSkipped + (if o.Release? then 1 else 0)
  }

  lemma CountedWriteAccounts(s: State, t: State, w: Write)
    requires Accounted(s) && t.writes == s.writes + [w] && Counts(s.stats, t.stats, w.outcome)
    ensures Accounted(t)
  {
    TallyAppend(s.writes, w, IsSent);
    TallyAppend(s.writes, w, IsRetry);
    TallyAppend(s.writes, w, IsGiveUp);
    TallyAppend(s.writes, w, IsRelease);
  }

  /**
   * From `s` to `t` each of the jobs was written about once, and nothing else was:
   * said for one id, of a job or not. The counters still count.
   */
  ghost predicate Handled(s: State, t: State, jobs: seq<Job>, id: string) {
    && WriteTimes(t.writes, id) == WriteTimes(s.writes, id) + JobTimes(jobs, id)
    && |t.writes| == |s.writes| + |jobs|
    && (Accounted(s) ==> Accounted(t))
  }

  lemma HandledOne(s: State, t: State, u: State, jobs: seq<Job>, job: Job, w: Write, id: string)
    requires Handled(s, t, jobs, id) && w.id == job.id
    requires u.writes == t.writes + [w] && Counts(t.stats, u.stats, w.outcome)
    ensures Handled(s, u, jobs + [job], id)
  {
    WritesAppend(t.writes, w, id);
    JobsAppend(jobs, job, id);
    if Accounted(s) { CountedWriteAccounts(t, u, w); }
  }

  lemma {:induction false} RetryAllHandles(s: State, jobs: seq<Job>, id: string)
    ensures Handled(s, RetryAll(s, jobs), jobs, id)
  {
    if jobs != [] {
      var n := |jobs| - 1;
      var t := RetryAll(s, jobs[..n]);
      RetryAllHandles(s, jobs[..n], id);
      HandledOne(s, t, MarkRetry(t, jobs[n]), jobs[..n], jobs[n], Write(jobs[n].id, RetryOutcome(jobs[n])), id);
      assert jobs[..n] + [jobs[n]] == jobs;
    }
  }

  lemma {:induction false} ReleaseAllHandles(s: State, jobs: seq<Job>, until: int, id: string)
    ensures Handled(s, ReleaseAll(s, jobs, until), jobs, id)
  {
    if jobs != [] {
      var n := |jobs| - 1;
      var t := ReleaseAll(s, jobs[..n], until);
      ReleaseAllHandles(s, jobs[..n], until, id);
      HandledOne(s, t, MarkRelease(t, jobs[n], until), jobs[..n], jobs[n], Write(jobs[n].id, Release(until)), id);
      assert jobs[..n] + [jobs[n]] == jobs;
    }
  }

  lemma {:induction false} DeleteAllHandles(s: State, jobs: seq<Job>, id: string)
    ensures Handled(s, DeleteAll(s, jobs), jobs, id)
  {
    if jobs != [] {
      var n := |jobs| - 1;
      var t := DeleteAll(s, jobs[..n]);
      DeleteAllHandles(s, jobs[..n], id);
      HandledOne(s, t, MarkDelete(t, jobs[n]), jobs[..n], jobs[n], Write(jobs[n].id, Delete), id);
      assert jobs[..n] + [jobs[n]] == jobs;
    }
  }

  // ── The callback ──

  lemma {:induction false} FindsUnique(jobs: seq<Job>, i: nat)
    requires i < |jobs| && NoDuplicates(Ids(jobs))
    ensures FindJob(jobs, jobs[i].id) == Some(jobs[i])
  {
    var n := |jobs| - 1;
    if i < n {
      assert Ids(jobs)[i] != Ids(jobs)[n];
      forall p, q | 0 <= p < q < n
        ensures Ids(jobs[..n])[p] != Ids(jobs[..n])[q]
      {
        assert Ids(jobs)[p] != Ids(jobs)[q];
      }
      FindsUnique(jobs[..n], i);
    }
  }

  /** Every result is for the job of the slice at its place, and that job is found under its id. */
  ghost predicate Matches(jobs: seq<Job>, slice: seq<Job>, results: seq<B.Result>) {
    && |results| == |slice|
    && forall i :: 0 <= i < |slice| ==> results[i].id == slice[i].id && FindJob(jobs, slice[i].id) == Some(slice[i])
  }

  /** The ids of the sent writes. */
  function SentIds(writes: seq<Write>): seq<string> {
    if writes == [] then []
    else
      var w := writes[|writes| - 1];
      SentIds(writes[..|writes| - 1]) + if w.outcome.Sent? then [w.id] else []
  }

  lemma SentIdsAppend(writes: seq<Write>, w: Write)
    ensures SentIds(writes + [w]) == SentIds(writes) + if w.outcome.Sent? then [w.id] else []
  {
    assert (writes + [w])[..|writes|] == writes;
  }

  /** The callback has handled the slice, in order, and marked as sent what the results report as sent. */
  ghost predicate Marked(s: State, m: Marks, slice: seq<Job>, results: seq<B.Result>, id: string) {
    && Handled(s, m.state, slice, id)
    && (forall k :: k in m.seen <==> k in Ids(slice))
    && SentAsReported(s, m, results)
  }

  ghost predicate SentAsReported(s: State, m: Marks, results: seq<B.Result>) {
    && SentIds(m.state.writes) == SentIds(s.writes) + P.SentMails(results)
    && m.successes == |P.SentMails(results)|
  }

  lemma ResultIsReported(s: State, m: Marks, jobs: seq<Job>, results: seq<B.Result>, job: Job, r: B.Result, infra: bool)
    requires SentAsReported(s, m, results) && r.id !in m.seen && r.id == job.id && FindJob(jobs, r.id) == Some(job)
    ensures SentAsReported(s, MarkResult(m, jobs, r, infra), results + [r])
  {
    var w := Write(job.id, if r.error.None? then Sent else RetryOutcome(job));
    var sent := if r.error.None? then [r.id] else [];
    SentIdsAppend(m.state.writes, w);
    P.SentAppend(results, r);
    Associative(SentIds(s.writes), P.SentMails(results), sent);
  }

  lemma MarkResultMarks(s: State, m: Marks, jobs: seq<Job>, slice: seq<Job>, results: seq<B.Result>, job: Job,
                        r: B.Result,
                        infra: bool, id: string)
    requires Marked(s, m, slice, results, id) && job.id !in Ids(slice)
    requires r.id == job.id && FindJob(jobs, job.id) == Some(job)
    ensures Marked(s, MarkResult(m, jobs, r, infra), slice + [job], results + [r], id)
  {
    var w := Write(job.id, if r.error.None? then Sent else RetryOutcome(job));
    HandledOne(s, m.state, MarkResult(m, jobs, r, infra).state, slice, job, w, id);
    ResultIsReported(s, m, jobs, results, job, r, infra);
    assert Ids(slice + [job]) == Ids(slice) + [job.id];
  }

  lemma {:induction false} MarkResultsMarks(s: State, jobs: seq<Job>, slice: seq<Job>, results: seq<B.Result>,
                                            infra: nat -> bool, id: string)
    requires NoDuplicates(Ids(slice)) && Matches(jobs, slice, results)
    ensures Marked(s, MarkResults(Marks(s, {}, 0, None), jobs, results, infra), slice, results, id)
  {
    if results != [] {
      var n := |results| - 1;
      PrefixUnique(slice, n);
      MarkResultsMarks(s, jobs, slice[..n], results[..n], infra, id);
      var m := MarkResults(Marks(s, {}, 0, None), jobs, results[..n], infra);
      MarkResultMarks(s, m, jobs, slice[..n], results[..n], slice[n], results[n], infra(n), id);
      assert slice[..n] + [slice[n]] == slice && results[..n] + [results[n]] == results;
    }
  }

  lemma PrefixUnique(slice: seq<Job>, n: nat)
    requires NoDuplicates(Ids(slice)) && n < |slice|
    ensures NoDuplicates(Ids(slice[..n])) && slice[n].id !in Ids(slice[..n])
  {
    forall p, q | 0 <= p < q < n
      ensures Ids(slice[..n])[p] != Ids(slice[..n])[q]
    {
      assert Ids(slice)[p] != Ids(slice)[q];
    }
    forall p | 0 <= p < n ensures Ids(slice[..n])[p] != slice[n].id { assert Ids(slice)[p] != Ids(slice)[n]; }
  }

  lemma {:induction false} AllSeen(m: Marks, slice: seq<Job>)
    requires forall i :: 0 <= i < |slice| ==> slice[i].id in m.seen
    ensures MarkUnseen(m, slice) == m.state
  {
    if slice != [] { AllSeen(m, slice[..|slice| - 1]); }
  }

  lemma {:induction false} NoneSeen(m: Marks, slice: seq<Job>)
    requires m.seen == {}
    ensures MarkUnseen(m, slice) == RetryAll(m.state, slice)
  {
    if slice != [] { NoneSeen(m, slice[..|slice| - 1]); }
  }
}
