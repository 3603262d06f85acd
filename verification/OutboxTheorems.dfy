/**
 * What sendClaimedEmailOutboxTenantGroup promises
 * (src/modules/assignments/email-outbox-delivery.service.ts): wherever the SMTP
 * session fails, one outcome for each job, and no mail sent for nothing.
 */
module OutboxTheorems {
  import opened Common
  import opened OutboxModel
  import opened OutboxProofs

  // ── One slice ──

  /** The batch gives a result for each mail of the slice, or none at all when connecting or authenticating fails. */
  lemma AllResultsOrNone(slice: seq<Job>, w: SliceWorld, c: Config)
    requires slice != [] && |slice| <= c.sessionMax
    ensures var call := BatchCall(slice, w, c);
      if call.returned then P.Ids(call.results) == Ids(slice) else call.results == []
  {
    var world := B.World(w.server, w.connects, w.script, []);
    var mails := Mails(slice);
    assert B.Taken(mails, c.sessionMax) == mails;
    assert P.MailIds(mails) == Ids(slice);
    if w.connects && B.Authenticated(world).1.None? {
      P.OneResultPerMail(world, mails, c.sessionMax);
    }
  }

  ghost predicate FoundIn(jobs: seq<Job>, claimed: seq<Job>) {
    forall i :: 0 <= i < |claimed| ==> FindJob(jobs, claimed[i].id) == Some(claimed[i])
  }

  lemma {:induction false} DeliverableIsFound(jobs: seq<Job>, claimed: seq<Job>, ids: set<string>)
    requires NoDuplicates(Ids(claimed)) && FoundIn(jobs, claimed)
    ensures var slice := Deliverable(claimed, ids);
      && NoDuplicates(Ids(slice)) && FoundIn(jobs, slice)
      && (forall id :: id in Ids(slice) ==> id in Ids(claimed))
  {
    if claimed != [] {
      var n := |claimed| - 1;
      var before := Deliverable(claimed[..n], ids);
      PrefixUnique(claimed, n);
      DeliverableIsFound(jobs, claimed[..n], ids);
      assert Ids(claimed) == Ids(claimed[..n]) + [claimed[n].id];
      if claimed[n].id in ids {
        assert Ids(before + [claimed[n]]) == Ids(before) + [claimed[n].id];
        AppendKeepsNoDuplicates(Ids(before), claimed[n].id);
      }
    }
  }

  /** Every claimed job is either kept or cancelled, once. */
  lemma {:induction false} KeptOrCancelled(claimed: seq<Job>, ids: set<string>, id: string)
    ensures var kept, cancelled := Deliverable(claimed, ids), Cancelled(claimed, ids);
      && JobTimes(cancelled, id) + JobTimes(kept, id) == JobTimes(claimed, id)
      && |cancelled| + |kept| == |claimed|
  {
    if claimed != [] {
      var n := |claimed| - 1;
      KeptOrCancelled(claimed[..n], ids, id);
      JobsAppend(Deliverable(claimed[..n], ids), claimed[n], id);
      JobsAppend(Cancelled(claimed[..n], ids), claimed[n], id);
    }
  }

  lemma CircuitKeepsAccounts(s: State, tenant: string, successes: nat, error: Option<bool>, now: int, c: Config)
    ensures var t := SettleCircuit(s, tenant, successes, error, now, c);
      t.writes == s.writes && (Accounted(s) ==> Accounted(t))
  {
  }

  lemma ResultsMatch(jobs: seq<Job>, slice: seq<Job>, results: seq<B.Result>)
    requires FoundIn(jobs, slice) && P.Ids(results) == Ids(slice)
    ensures Matches(jobs, slice, results)
  {
    forall i | 0 <= i < |slice| ensures results[i].id == slice[i].id {
      assert P.Ids(results)[i] == Ids(slice)[i];
    }
  }

  /**
   * The jobs of a slice that reach SMTP all get their outcome, sent ones exactly when
   * the server accepted the message.
   */
  lemma SentSliceIsHandled(s: State, jobs: seq<Job>, slice: seq<Job>, w: SliceWorld, c: Config, id: string)
    requires slice != [] && |slice| <= c.sessionMax && NoDuplicates(Ids(slice)) && FoundIn(jobs, slice)
    ensures var call := BatchCall(slice, w, c);
      var a := SendKept(s, jobs, slice, w, c);
      && Handled(s, a.state, slice, id)
      && SentIds(a.state.writes) == SentIds(s.writes) + P.AcceptedMails(call.trace)
      && a.successes == |P.AcceptedMails(call.trace)|
  {
    var call := BatchCall(slice, w, c);
    var m := MarkResults(Marks(s, {}, 0, None), jobs, call.results, w.infrastructure);
    AllResultsOrNone(slice, w, c);
    P.SentMeansAccepted(B.World(w.server, w.connects, w.script, []), Mails(slice), c.sessionMax);
    if call.returned {
      ResultsMatch(jobs, slice, call.results);
      MarkResultsMarks(s, jobs, slice, call.results, w.infrastructure, id);
      forall i | 0 <= i < |slice| ensures slice[i].id in m.seen { assert Ids(slice)[i] == slice[i].id; }
      AllSeen(m, slice);
    } else {
      NoneSeen(m, slice);
      RetryAllHandles(s, slice, id);
      RetriesSendNothing(s, slice);
    }
  }

  lemma {:induction false} RetriesSendNothing(s: State, jobs: seq<Job>)
    ensures SentIds(RetryAll(s, jobs).writes) == SentIds(s.writes)
  {
    if jobs != [] {
      var n := |jobs| - 1;
      RetriesSendNothing(s, jobs[..n]);
      SentIdsAppend(RetryAll(s, jobs[..n]).writes, Write(jobs[n].id, RetryOutcome(jobs[n])));
    }
  }

  lemma {:induction false} DeletesSendNothing(s: State, jobs: seq<Job>)
    ensures SentIds(DeleteAll(s, jobs).writes) == SentIds(s.writes)
  {
    if jobs != [] {
      var n := |jobs| - 1;
      DeletesSendNothing(s, jobs[..n]);
      SentIdsAppend(DeleteAll(s, jobs[..n]).writes, Write(jobs[n].id, Delete));
    }
  }

  /** The exchanges with the server; none when no job is deliverable. */
  function Trace(slice: seq<Job>, w: SliceWorld, c: Config): seq<B.Exchange> {
    if slice == [] then [] else BatchCall(slice, w, c).trace
  }

  /** The verdict on the circuit changes no status. */
  lemma DeliverableIsHandled(s: State, tenant: string, jobs: seq<Job>, slice: seq<Job>, w: SliceWorld, c: Config,
                             id: string)
    requires |slice| <= c.sessionMax && NoDuplicates(Ids(slice)) && FoundIn(jobs, slice)
    ensures var t := SendDeliverable(s, tenant, jobs, slice, w, c);
      Handled(s, t, slice, id) && SentIds(t.writes) == SentIds(s.writes) + P.AcceptedMails(Trace(slice, w, c))
  {
    if slice != [] {
      var a := SendKept(s, jobs, slice, w, c);
      SentSliceIsHandled(s, jobs, slice, w, c, id);
      CircuitKeepsAccounts(a.state, tenant, a.successes, a.error, w.now, c);
    }
  }

  /**
   * A slice deletes its cancelled jobs and handles the others, each once; it marks as
   * sent exactly the mails the server accepted.
   */
  lemma SliceIsHandled(s: State, tenant: string, jobs: seq<Job>, claimed: seq<Job>, w: SliceWorld, c: Config,
                       id: string)
    requires |claimed| <= c.sessionMax && NoDuplicates(Ids(claimed)) && FoundIn(jobs, claimed)
    ensures var t := SendSlice(s, tenant, jobs, claimed, w, c);
      && Handled(s, t, claimed, id)
      && SentIds(t.writes) == SentIds(s.writes) + P.AcceptedMails(Trace(Deliverable(claimed, w.deliverable), w, c))
  {
    var slice, cancelled := Deliverable(claimed, w.deliverable), Cancelled(claimed, w.deliverable);
    DeleteAllHandles(s, cancelled, id);
    DeletesSendNothing(s, cancelled);
    DeliverableIsFound(jobs, claimed, w.deliverable);
    DeliverableIsHandled(DeleteAll(s, cancelled), tenant, jobs, slice, w, c, id);
    KeptOrCancelled(claimed, w.deliverable, id);
  }

  // ── The group ──

  /** How often an id occurs among the jobs from an index on, and how many they are. */
  function LeftTimes(jobs: seq<Job>, start: nat, id: string): nat
    decreases |jobs| - start
  {
    if start >= |jobs| then 0 else (if jobs[start].id == id then 1 else 0) + LeftTimes(jobs, start + 1, id)
  }

  function Left(jobs: seq<Job>, start: nat): nat { if start < |jobs| then |jobs| - start else 0 }

  lemma {:induction false} SliceTakes(jobs: seq<Job>, start: nat, end: nat, id: string)
    requires start <= end <= |jobs|
    ensures JobTimes(jobs[start..end], id) == LeftTimes(jobs, start, id) - LeftTimes(jobs, end, id)
  {
    if start < end {
      SliceTakes(jobs, start, end - 1, id);
      JobsAppend(jobs[start..end - 1], jobs[end - 1], id);
      assert jobs[start..end] == jobs[start..end - 1] + [jobs[end - 1]];
    }
  }

  /** From `s` to `t` there are so many writes about `id`, among so many in all. */
  ghost predicate Added(s: State, t: State, id: string, times: int, writes: int) {
    && WriteTimes(t.writes, id) == WriteTimes(s.writes, id) + times
    && |t.writes| == |s.writes| + writes
    && (Accounted(s) ==> Accounted(t))
  }

  /** Sending the slice at an index adds what it takes from the jobs that are left. */
  ghost predicate SendsSlice(s: State, jobs: seq<Job>, start: nat, max: int, t: State, id: string)
    requires max >= 1
  {
    Added(s, t, id, LeftTimes(jobs, start, id) - LeftTimes(jobs, start + max, id),
          Left(jobs, start) - Left(jobs, start + max))
  }

  lemma SliceTaken(jobs: seq<Job>, start: nat, max: int, id: string)
    requires max >= 1
    ensures JobTimes(SliceAt(jobs, start, max), id) == LeftTimes(jobs, start, id) - LeftTimes(jobs, start + max, id)
    ensures |SliceAt(jobs, start, max)| == Left(jobs, start) - Left(jobs, start + max)
  {
    if start < |jobs| { SliceTakes(jobs, start, Min(start + max, |jobs|), id); }
  }

  lemma SliceAtIsUnique(jobs: seq<Job>, start: nat, max: int)
    requires max >= 1 && NoDuplicates(Ids(jobs))
    ensures NoDuplicates(Ids(SliceAt(jobs, start, max))) && FoundIn(jobs, SliceAt(jobs, start, max))
  {
    var claimed := SliceAt(jobs, start, max);
    forall i | 0 <= i < |claimed|
      ensures FindJob(jobs, claimed[i].id) == Some(claimed[i])
    {
      FindsUnique(jobs, start + i);
    }
    forall p, q | 0 <= p < q < |claimed| ensures Ids(claimed)[p] != Ids(claimed)[q] {
      assert Ids(jobs)[start + p] != Ids(jobs)[start + q];
    }
  }

  lemma HandledSliceIsSent(s: State, t: State, jobs: seq<Job>, start: nat, max: int, id: string)
    requires max >= 1
    ensures Handled(s, t, SliceAt(jobs, start, max), id) ==> SendsSlice(s, jobs, start, max, t, id)
  {
    SliceTaken(jobs, start, max, id);
  }

  lemma SliceAtIsSent(s: State, tenant: string, jobs: seq<Job>, start: nat, w: GroupWorld, c: Config, id: string)
    requires c.sessionMax >= 1 && NoDuplicates(Ids(jobs))
    ensures SendsSlice(s, jobs, start, c.sessionMax, SendSliceAt(tenant, jobs, w, c)(s, start), id)
  {
    var claimed := SliceAt(jobs, start, c.sessionMax);
    SliceAtIsUnique(jobs, start, c.sessionMax);
    SliceIsHandled(s, tenant, jobs, claimed, w.slices(start), c, id);
    HandledSliceIsSent(s, SendSlice(s, tenant, jobs, claimed, w.slices(start), c), jobs, start, c.sessionMax, id);
  }

  /** What each slice adds, the loop adds for all jobs from an index on. */
  lemma {:induction false} SlicesAdd(s: State, jobs: seq<Job>, start: nat, max: int, send: (State, nat) -> State,
                                     id: string)
    requires max >= 1 && forall t, k: nat :: SendsSlice(t, jobs, k, max, send(t, k), id)
    ensures Added(s, SendSlices(s, jobs, start, max, send), id, LeftTimes(jobs, start, id), Left(jobs, start))
    decreases |jobs| - start
  {
    if start < |jobs| {
      var t := send(s, start);
      assert SendsSlice(s, jobs, start, max, t, id);
      SlicesAdd(t, jobs, start + max, max, send, id);
    }
  }

  /** The loop sends every slice, and so every job, once. */
  lemma SlicesAreHandled(s: State, tenant: string, jobs: seq<Job>, w: GroupWorld, c: Config, id: string)
    requires c.sessionMax >= 1 && NoDuplicates(Ids(jobs))
    ensures Handled(s, SendSlices(s, jobs, 0, c.sessionMax, SendSliceAt(tenant, jobs, w, c)), jobs, id)
  {
    var send := SendSliceAt(tenant, jobs, w, c);
    forall t, k: nat ensures SendsSlice(t, jobs, k, c.sessionMax, send(t, k), id) {
      SliceAtIsSent(t, tenant, jobs, k, w, c, id);
    }
    SlicesAdd(s, jobs, 0, c.sessionMax, send, id);
    SliceTakes(jobs, 0, |jobs|, id);
    assert jobs[0..|jobs|] == jobs;
  }

  /**
   * Every claimed job of the group gets exactly one outcome, wherever the SMTP
   * session throws, times out or closes, and whether the tenant is cooling down, has
   * no configuration, or is sent to slice by slice.
   */
  lemma GroupIsHandled(s: State, tenant: string, jobs: seq<Job>, w: GroupWorld, c: Config, id: string)
    requires c.sessionMax >= 1 && NoDuplicates(Ids(jobs))
    ensures Handled(s, SendGroup(s, tenant, jobs, w, c), jobs, id)
  {
    if jobs == [] {
    } else if CoolingDown(s, tenant, w.now) {
      ReleaseAllHandles(s, jobs, s.circuits[tenant].cooldownUntil, id);
    } else if !w.configOk {
      var t := Failure(s, tenant, w.configInfrastructure, w.now, c);
      CircuitKeepsAccounts(s, tenant, 0, Some(w.configInfrastructure), w.now, c);
      RetryAllHandles(t, jobs, id);
    } else {
      SlicesAreHandled(s, tenant, jobs, w, c, id);
    }
  }

  /** Groups one after the other, each with its tenant, jobs and circumstances. */
  datatype Group = Group(tenant: string, jobs: seq<Job>, world: GroupWorld)

  function SendGroups(groups: seq<Group>, c: Config): State
    requires c.sessionMax >= 1
  {
    if groups == [] then Start
    else
      var g := groups[|groups| - 1];
      SendGroup(SendGroups(groups[..|groups| - 1], c), g.tenant, g.jobs, g.world, c)
  }

  function AllJobs(groups: seq<Group>): seq<Job> {
    if groups == [] then [] else AllJobs(groups[..|groups| - 1]) + groups[|groups| - 1].jobs
  }

  lemma {:induction false} GroupsAreHandled(groups: seq<Group>, c: Config, id: string)
    requires c.sessionMax >= 1 && NoDuplicates(Ids(AllJobs(groups)))
    ensures Handled(Start, SendGroups(groups, c), AllJobs(groups), id)
  {
    if groups != [] {
      var n := |groups| - 1;
      var before, jobs := AllJobs(groups[..n]), groups[n].jobs;
      PartsAreUnique(before, jobs);
      GroupsAreHandled(groups[..n], c, id);
      GroupIsHandled(SendGroups(groups[..n], c), groups[n].tenant, jobs, groups[n].world, c, id);
      JobsConcat(before, jobs, id);
    }
  }

  lemma PartsAreUnique(a: seq<Job>, b: seq<Job>)
    requires NoDuplicates(Ids(a + b))
    ensures NoDuplicates(Ids(a)) && NoDuplicates(Ids(b))
  {
    assert Ids(a + b) == Ids(a) + Ids(b);
    forall p, q | 0 <= p < q < |a| ensures Ids(a)[p] != Ids(a)[q] { assert Ids(a + b)[p] != Ids(a + b)[q]; }
    forall p, q | 0 <= p < q < |b| ensures Ids(b)[p] != Ids(b)[q] {
      assert Ids(a + b)[|a| + p] != Ids(a + b)[|a| + q];
    }
  }

  /**
   * Every claimed job of the groups has exactly one outcome, whatever happens to the
   * sessions; and sent, retried, failed, skipped and deleted jobs add up to all of them.
   */
  lemma EveryJobHasOneOutcome(groups: seq<Group>, c: Config, i: nat)
    requires c.sessionMax >= 1 && NoDuplicates(Ids(AllJobs(groups))) && i < |AllJobs(groups)|
    ensures var t := SendGroups(groups, c);
      && WriteTimes(t.writes, AllJobs(groups)[i].id) == 1
      && t.stats.sent + t.stats.retried + t.stats.failed + t.stats.cooldownSkipped + Tally(t.writes, IsDelete)
           == |AllJobs(groups)|
  {
    var t := SendGroups(groups, c);
    GroupsAreHandled(groups, c, AllJobs(groups)[i].id);
    OnceInUnique(AllJobs(groups), i);
    EveryWriteCounts(t.writes);
  }

  lemma {:induction false} OnceInUnique(jobs: seq<Job>, i: nat)
    requires NoDuplicates(Ids(jobs)) && i < |jobs|
    ensures JobTimes(jobs, jobs[i].id) == 1
  {
    var n := |jobs| - 1;
    PrefixUnique(jobs, n);
    if i < n {
      assert Ids(jobs)[i] != Ids(jobs)[n];
      OnceInUnique(jobs[..n], i);
    } else {
      NeverElsewhere(jobs[..n], jobs[n].id);
    }
  }

  lemma {:induction false} NeverElsewhere(jobs: seq<Job>, id: string)
    requires id !in Ids(jobs)
    ensures JobTimes(jobs, id) == 0
  {
    if jobs != [] {
      assert Ids(jobs) == Ids(jobs[..|jobs| - 1]) + [jobs[|jobs| - 1].id];
      NeverElsewhere(jobs[..|jobs| - 1], id);
    }
  }
}
