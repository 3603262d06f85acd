/**
 * What withDatabaseTransaction and afterCommit promise
 * (src/config/database.ts), and where a job registered late escapes it.
 */
module TransactionTheorems {
  import opened Common
  import opened TransactionModel
  import opened TransactionProofs

  predicate HasCommitted(p: Phase) { p.AfterCommit? || p.Done? }

  /**
   * A job registered before its transaction's work settled runs only under that
   * transaction, after its COMMIT: the runs of such jobs, taken from the whole log,
   * are a first part of the list the transaction registered, in order and each
   * once; all of it when the call has returned, and none before the commit or after
   * a rollback.
   */
  lemma InTimeJobsRunOnceInOrder(events: seq<Event>, t: nat)
    requires t < |Run(Start, events).txs|
    ensures var s := Run(Start, events);
      var tx := s.txs[t];
      && OwnRuns(s.log, t) <= tx.own
      && (tx.phase.Done? ==> OwnRuns(s.log, t) == tx.own)
      && (!HasCommitted(tx.phase) ==> OwnRuns(s.log, t) == [])
  {
    RunKeepsInv(events);
    var s := Run(Start, events);
    var tx := s.txs[t];
    assert TxOk(s, t);
    OwnPrefix(tx.taken, tx.ran, t);
    if !HasCommitted(tx.phase) { assert tx.taken[..tx.ran] == []; }
    if tx.phase.Done? { assert tx.taken[..tx.ran] == tx.taken; }
  }

  /** No job is registered twice. */
  lemma JobsAreDistinct(events: seq<Event>, t: nat)
    requires t < |Run(Start, events).txs|
    ensures NoDuplicates(Run(Start, events).txs[t].own)
  {
    RunKeepsInv(events);
    var own := Run(Start, events).txs[t].own;
    forall i, j | 0 <= i < j < |own| ensures own[i] != own[j] { assert own[i].id < own[j].id; }
  }

  lemma {:induction false} OwnPrefix(jobs: seq<Job>, k: nat, t: nat)
    requires k <= |jobs|
    ensures Own(jobs[..k], t) <= Own(jobs, t)
  {
    if k < |jobs| {
      assert jobs[..|jobs| - 1][..k] == jobs[..k];
      OwnPrefix(jobs[..|jobs| - 1], k, t);
    } else {
      assert jobs[..k] == jobs;
    }
  }

  /** The log is only appended to. */
  lemma LogGrows(s: State, e: Event)
    requires Enabled(s, e)
    ensures s.log <= Step(s, e).log && |Step(s, e).log| <= |s.log| + 1
  {
  }

  /** How often an entry occurs. */
  function Count(log: seq<Log>, entry: Log): nat {
    if log == [] then 0
    else Count(log[..|log| - 1], entry) + if log[|log| - 1] == entry then 1 else 0
  }

  lemma CountAppend(log: seq<Log>, entry: Log, x: Log)
    ensures Count(log + [entry], x) == Count(log, x) + if entry == x then 1 else 0
  {
    assert (log + [entry])[..|log|] == log;
  }

  function Commits(s: State, t: nat): nat { if t < |s.txs| && HasCommitted(s.txs[t].phase) then 1 else 0 }
  function Rollbacks(s: State, t: nat): nat { if t < |s.txs| && s.txs[t].phase.Failed? then 1 else 0 }
  function Begins(s: State, t: nat): nat { if t < |s.txs| && s.txs[t].entered then 1 else 0 }

  ghost predicate Logged(s: State, t: nat) {
    && Count(s.log, Committed(t)) == Commits(s, t)
    && Count(s.log, RolledBack(t)) == Rollbacks(s, t)
    && Count(s.log, Began(t)) == Begins(s, t)
  }

  ghost predicate EnteredOk(s: State) {
    forall t :: 0 <= t < |s.txs| ==>
      && (s.txs[t].phase.Beginning? ==> !s.txs[t].entered)
      && (s.txs[t].phase.Working? || s.txs[t].phase.Committing? || HasCommitted(s.txs[t].phase) ==> s.txs[t].entered)
  }

  lemma StepKeepsEntered(s: State, e: Event)
    requires Enabled(s, e) && EnteredOk(s)
    ensures EnteredOk(Step(s, e))
  {
  }

  /** Which transactions have ended changes only by the answer to COMMIT or ROLLBACK. */
  lemma EndsStep(s: State, e: Event, t: nat)
    requires Enabled(s, e) && EnteredOk(s)
    ensures var u := Step(s, e);
      && Commits(u, t) == Commits(s, t) + (if e == CommitOk(t) then 1 else 0)
      && Rollbacks(u, t) == Rollbacks(s, t) + (if e == RollbackEnds(t) then 1 else 0)
      && Begins(u, t) == Begins(s, t) + (if e == BeginOk(t) then 1 else 0)
  {
  }

  /**
   * Only the outermost call commits: a transaction has one COMMIT when it ended
   * well, one ROLLBACK when it failed, and never both; nested calls, which start no
   * transaction, add none.
   */
  lemma {:induction false} CommittedOrRolledBackOnce(events: seq<Event>, t: nat)
    ensures Logged(Run(Start, events), t) && EnteredOk(Run(Start, events))
  {
    if events != [] {
      var before, e := Run(Start, events[..|events| - 1]), events[|events| - 1];
      CommittedOrRolledBackOnce(events[..|events| - 1], t);
      if Enabled(before, e) {
        var u := Step(before, e);
        EndsStep(before, e, t);
        StepKeepsEntered(before, e);
        LogGrows(before, e);
        if |u.log| > |before.log| {
          var entry := u.log[|before.log|];
          assert u.log == before.log + [entry];
          CountAppend(before.log, entry, Committed(t));
          CountAppend(before.log, entry, RolledBack(t));
          CountAppend(before.log, entry, Began(t));
        } else {
          assert u.log == before.log;
        }
      }
    }
  }

  // ── Under which transaction a job runs ──

  /** The work of the transaction has settled. */
  predicate Settled(p: Phase) { p.RollingBack? || p.AfterCommit? || p.Done? || p.Failed? }

  /** A late job waits for, and is taken by, another transaction than its own. */
  ghost predicate LatePendingOk(s: State) {
    forall c, i :: c in s.pending && 0 <= i < |s.pending[c]| && s.pending[c][i].late ==>
      s.pending[c][i].owner < |s.txs| && Settled(s.txs[s.pending[c][i].owner].phase)
  }

  ghost predicate LateTakenOk(s: State) {
    forall t, i :: 0 <= t < |s.txs| && 0 <= i < |s.txs[t].taken| && s.txs[t].taken[i].late ==>
      s.txs[t].taken[i].owner != t
  }

  lemma RegisterKeepsLatePending(s: State, t: nat)
    requires HasContext(s, t) && EnteredOk(s) && LatePendingOk(s)
    ensures LatePendingOk(RegisterIn(s, t))
  {
    var u, client := RegisterIn(s, t), s.txs[t].client;
    forall c, i | c in u.pending && 0 <= i < |u.pending[c]| && u.pending[c][i].late
      ensures u.pending[c][i].owner < |u.txs| && Settled(u.txs[u.pending[c][i].owner].phase)
    {
      if c == client && i == |Pending(s, client)| {
        assert u.pending[c][i].owner == t;
      } else {
        assert c in s.pending && u.pending[c][i] == s.pending[c][i];
      }
    }
  }

  lemma StepKeepsLatePending(s: State, e: Event)
    requires Enabled(s, e) && EnteredOk(s) && LatePendingOk(s)
    ensures LatePendingOk(Step(s, e))
  {
    match e
    case Register(Some(t), _) => RegisterKeepsLatePending(s, t);
    case _ =>
  }

  lemma StepKeepsLateTaken(s: State, e: Event)
    requires Enabled(s, e) && LatePendingOk(s) && LateTakenOk(s)
    ensures LateTakenOk(Step(s, e))
  {
  }

  lemma {:induction false} RunKeepsLate(events: seq<Event>)
    ensures LatePendingOk(Run(Start, events)) && LateTakenOk(Run(Start, events))
  {
    if events != [] {
      RunKeepsLate(events[..|events| - 1]);
      CommittedOrRolledBackOnce(events[..|events| - 1], 0);
      var before, e := Run(Start, events[..|events| - 1]), events[|events| - 1];
      if Enabled(before, e) {
        StepKeepsLatePending(before, e);
        StepKeepsLateTaken(before, e);
      }
    }
  }

  /**
   * A job runs under the transaction it was registered in exactly when it was registered
   * before that transaction's work settled.
   */
  lemma {:induction false} RunsUnderItsOwn(events: seq<Event>, i: nat)
    requires var log := Run(Start, events).log; i < |log| && log[i].Ran?
    ensures var log := Run(Start, events).log; log[i].job.owner == log[i].tx <==> !log[i].job.late
  {
    var before := Run(Start, events[..|events| - 1]);
    var e := events[|events| - 1];
    if i < |before.log| {
      RunsUnderItsOwn(events[..|events| - 1], i);
      if Enabled(before, e) { LogGrows(before, e); }
    } else {
      RunKeepsInv(events[..|events| - 1]);
      RunKeepsLate(events[..|events| - 1]);
    }
  }

  // ── Failing jobs ──

  /** The jobs the call of transaction `t` has run, in order, whoever registered them. */
  function RunsBy(log: seq<Log>, t: nat): seq<Job> {
    if log == [] then []
    else
      var last := log[|log| - 1];
      RunsBy(log[..|log| - 1], t) + if last.Ran? && last.tx == t then [last.job] else []
  }

  lemma RunsByAppend(log: seq<Log>, entry: Log, t: nat)
    ensures RunsBy(log + [entry], t) == RunsBy(log, t) + if entry.Ran? && entry.tx == t then [entry.job] else []
  {
    assert (log + [entry])[..|log|] == log;
  }

  /** The jobs that ran are the first the transaction took. */
  ghost predicate RunsInOrder(s: State, t: nat) {
    if t < |s.txs| then
      && s.txs[t].ran <= |s.txs[t].taken|
      && RunsBy(s.log, t) == s.txs[t].taken[..s.txs[t].ran]
      && (Open(s.txs[t].phase) ==> s.txs[t].ran == 0)
      && (s.txs[t].phase.Done? ==> s.txs[t].ran == |s.txs[t].taken|)
    else
      RunsBy(s.log, t) == []
  }

  predicate Runs(e: Event, t: nat) { e.RunJob? && e.tx == t }

  /** Only the event that runs a job of `t` logs one for it. */
  lemma RunsByStep(s: State, e: Event, t: nat)
    requires Enabled(s, e)
    ensures RunsBy(Step(s, e).log, t)
         == RunsBy(s.log, t) + if Runs(e, t) then [s.txs[t].taken[s.txs[t].ran]] else []
  {
    var u := Step(s, e);
    LogGrows(s, e);
    if |u.log| > |s.log| {
      var entry := u.log[|s.log|];
      assert u.log == s.log + [entry];
      RunsByAppend(s.log, entry, t);
    } else {
      assert u.log == s.log;
    }
  }

  /** What a step does to what a transaction has taken and run. */
  lemma TakenStep(s: State, e: Event, t: nat)
    requires Enabled(s, e) && t < |s.txs|
    ensures var u := Step(s, e);
      && t < |u.txs| && u.txs[t].ran == s.txs[t].ran + (if Runs(e, t) then 1 else 0)
      && (u.txs[t].taken == s.txs[t].taken || (Open(s.txs[t].phase) && e == CommitOk(t)))
      && (Open(u.txs[t].phase) ==> Open(s.txs[t].phase) && !Runs(e, t))
      && (u.txs[t].phase.Done? ==> s.txs[t].phase.Done? || e == Return(t))
      && (HasCommitted(s.txs[t].phase) ==> HasCommitted(u.txs[t].phase) && e != CommitOk(t))
  {
  }

  lemma NewTxIsEmpty(s: State, e: Event, t: nat)
    requires Enabled(s, e) && |s.txs| <= t < |Step(s, e).txs|
    ensures var tx := Step(s, e).txs[t]; tx.phase.Beginning? && tx.taken == [] && tx.ran == 0
  {
  }

  lemma StepKeepsRunsInOrder(s: State, e: Event, t: nat)
    requires Enabled(s, e) && RunsInOrder(s, t)
    ensures RunsInOrder(Step(s, e), t)
  {
    RunsByStep(s, e, t);
    if t < |s.txs| {
      TakenStep(s, e, t);
      if Runs(e, t) {
        var tx := s.txs[t];
        assert tx.taken[..tx.ran + 1] == tx.taken[..tx.ran] + [tx.taken[tx.ran]];
      }
    } else if t < |Step(s, e).txs| {
      NewTxIsEmpty(s, e, t);
    }
  }

  lemma {:induction false} RunKeepsRunsInOrder(s: State, events: seq<Event>, t: nat)
    requires RunsInOrder(s, t)
    ensures RunsInOrder(Run(s, events), t)
  {
    if events != [] {
      RunKeepsRunsInOrder(s, events[..|events| - 1], t);
      var before, e := Run(s, events[..|events| - 1]), events[|events| - 1];
      if Enabled(before, e) { StepKeepsRunsInOrder(before, e, t); }
    }
  }

  lemma {:induction false} TakenStays(s: State, events: seq<Event>, t: nat)
    requires IsIn(s, t, AfterCommit) || IsIn(s, t, Done)
    ensures var u := Run(s, events);
      t < |u.txs| && HasCommitted(u.txs[t].phase) && u.txs[t].taken == s.txs[t].taken
  {
    if events != [] {
      TakenStays(s, events[..|events| - 1], t);
      var before, e := Run(s, events[..|events| - 1]), events[|events| - 1];
      if Enabled(before, e) { TakenStep(before, e, t); }
    }
  }

  /**
   * A failing job stops no other. From COMMIT on, in any interleaving with other
   * transactions and whatever the jobs' outcomes: those that ran are the first of the
   * jobs taken, each once and in order; until all have run the next one can run,
   * and then the call can return; when it has returned all have run.
   */
  lemma FailingJobsStopNothing(before: seq<Event>, events: seq<Event>, t: nat)
    requires IsIn(Run(Start, before), t, AfterCommit)
    ensures var s := Run(Start, before); var u := Run(s, events); var jobs := s.txs[t].taken;
      && t < |u.txs| && u.txs[t].ran <= |jobs|
      && RunsBy(u.log, t) == jobs[..u.txs[t].ran]
      && (u.txs[t].ran < |jobs| ==> Enabled(u, RunJob(t, true)) && Enabled(u, RunJob(t, false)))
      && (u.txs[t].ran == |jobs| ==> Enabled(u, Return(t)) || IsIn(u, t, Done))
      && (IsIn(u, t, Done) ==> RunsBy(u.log, t) == jobs)
  {
    var s := Run(Start, before);
    RunKeepsRunsInOrder(Start, before, t);
    RunKeepsRunsInOrder(s, events, t);
    TakenStays(s, events, t);
    JobsGoOn(Run(s, events), t);
  }

  lemma JobsGoOn(s: State, t: nat)
    requires t < |s.txs| && HasCommitted(s.txs[t].phase) && RunsInOrder(s, t)
    ensures var jobs, ran := s.txs[t].taken, s.txs[t].ran;
      && ran <= |jobs| && RunsBy(s.log, t) == jobs[..ran]
      && (ran < |jobs| ==> Enabled(s, RunJob(t, true)) && Enabled(s, RunJob(t, false)))
      && (ran == |jobs| ==> Enabled(s, Return(t)) || IsIn(s, t, Done))
      && (IsIn(s, t, Done) ==> RunsBy(s.log, t) == jobs)
  {
    if IsIn(s, t, Done) { assert s.txs[t].taken[..s.txs[t].ran] == s.txs[t].taken; }
  }

  /** When nothing is open, every client is back in the pool, and only late jobs are left waiting. */
  lemma ClientsComeBack(events: seq<Event>)
    requires forall t :: 0 <= t < |Run(Start, events).txs| ==> !Open(Run(Start, events).txs[t].phase)
    ensures var s := Run(Start, events);
      s.busy == {} && forall c, i :: c in s.pending && 0 <= i < |s.pending[c]| ==> s.pending[c][i].late
  {
    RunKeepsInv(events);
    var s := Run(Start, events);
    assert forall t: nat, c :: !Holds(s, t, c);
  }

  lemma OneCommits() returns (events: seq<Event>, s: State)
    ensures s == Run(Start, events)
    ensures s == State([Tx(7, AfterCommit, true, [], [], 0)], map[], {}, [Began(0), Committed(0)], 0)
  {
    events, s := Next([], Start, Call(None, 7));
    events, s := Next(events, s, BeginOk(0));
    events, s := Next(events, s, WorkResolves(0));
    events, s := Next(events, s, CommitOk(0));
    assert s.txs == [Tx(7, AfterCommit, true, [], [], 0)] && s.busy == {} && s.pending == map[];
  }

  lemma LateJobWaits() returns (events: seq<Event>, s: State)
    ensures s == Run(Start, events)
    ensures s == State([Tx(7, Done, true, [], [], 0)], map[7 := [Job(0, 0, true)]], {}, [Began(0), Committed(0)], 1)
  {
    events, s := OneCommits();
    events, s := Next(events, s, Return(0));
    assert Pending(s, 7) + [Job(0, 0, true)] == [Job(0, 0, true)];
    events, s := Next(events, s, Register(Some(0), true));
    assert s.txs == [Tx(7, Done, true, [], [], 0)] && s.pending == map[7 := [Job(0, 0, true)]];
  }

  /**
   * A job registered after its transaction settled is not covered: it waits on the
   * client, and runs under whichever transaction commits there next.
   */
  lemma LateJobRunsUnderALaterTransaction() returns (events: seq<Event>, s: State)
    ensures s == Run(Start, events)
    ensures s.txs == [Tx(7, Done, true, [], [], 0), Tx(7, AfterCommit, true, [], [Job(0, 0, true)], 1)]
    ensures s.log == [Began(0), Committed(0), Began(1), Committed(1), Ran(1, Job(0, 0, true), true)]
  {
    events, s := LateJobWaits();
    events, s := Next(events, s, Call(None, 7));
    events, s := Next(events, s, BeginOk(1));
    events, s := Next(events, s, WorkResolves(1));
    events, s := Next(events, s, CommitOk(1));
    assert s.txs == [Tx(7, Done, true, [], [], 0), Tx(7, AfterCommit, true, [], [Job(0, 0, true)], 0)];
    events, s := Next(events, s, RunJob(1, true));
  }

  lemma Next(events: seq<Event>, s: State, e: Event) returns (more: seq<Event>, u: State)
    requires s == Run(Start, events) && Enabled(s, e)
    ensures more == events + [e] && u == Run(Start, more) && u == Step(s, e)
  {
    more, u := events + [e], Step(s, e);
    RunLast(Start, events, e);
  }
}
