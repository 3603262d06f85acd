/**
 * Transactions over a pool of reused clients, and the work put off until after
 * their commit (withDatabaseTransaction, afterCommit and runCommittedWork of
 * src/config/database.ts). An event is what happens between two awaits.
 */
module TransactionModel {
  import opened Common

  type Client = nat

  /**
   * Work handed to afterCommit. `owner` is the transaction whose context the
   * caller ran in; `late` says that its work had already settled by then.
   */
  datatype Job = Job(owner: nat, id: nat, late: bool)

  datatype Phase =
    | Beginning
    | Working
    | Committing
    | RollingBack
    /** Committed, the client released, and running the put-off jobs. */
    | AfterCommit
    | Done
    | Failed

  /**
   * `entered` once the work has started; `own` lists the jobs registered in time, in order;
   * `taken` is committedWork and `ran` how many of it have run.
   */
  datatype Tx = Tx(client: Client, phase: Phase, entered: bool, own: seq<Job>, taken: seq<Job>, ran: nat)

  datatype Log =
    | Began(tx: nat)
    | Committed(tx: nat)
    | RolledBack(tx: nat)
    /** A job run by the call that owns transaction `tx`. */
    | Ran(tx: nat, job: Job, ok: bool)
    /** A job run at once, outside any transaction. */
    | RanNow(id: nat, ok: bool)

  /** `pending` is the afterCommitWork of each client, `busy` the clients checked out of the pool. */
  datatype State = State(txs: seq<Tx>, pending: map<Client, seq<Job>>, busy: set<Client>, log: seq<Log>, nextJob: nat)

  const Start := State([], map[], {}, [], 0)

  datatype Event =
    /** withDatabaseTransaction in the context of a transaction, or outside any with a client the pool hands out. */
    | Call(context: Option<nat>, client: Client)
    | BeginOk(tx: nat)
    | BeginFails(tx: nat)
    /** afterCommit in the context of a transaction, or outside any, where the job runs at once. */
    | Register(context: Option<nat>, ok: bool)
    | WorkResolves(tx: nat)
    | WorkThrows(tx: nat)
    | CommitOk(tx: nat)
    | CommitFails(tx: nat)
    /** ROLLBACK answered or failed; either way the client goes back to the pool. */
    | RollbackEnds(tx: nat)
    | RunJob(tx: nat, ok: bool)
    | Return(tx: nat)

  predicate Open(p: Phase) { p.Beginning? || p.Working? || p.Committing? || p.RollingBack? }

  predicate IsIn(s: State, t: nat, p: Phase) { t < |s.txs| && s.txs[t].phase == p }

  /** Code that runs in the context of the transaction exists, however long it outlives it. */
  predicate HasContext(s: State, t: nat) { t < |s.txs| && s.txs[t].entered }

  predicate Enabled(s: State, e: Event) {
    match e
    case Call(Some(t), _) => HasContext(s, t)
    case Call(None, c) => c !in s.busy
    case BeginOk(t) => IsIn(s, t, Beginning)
    case BeginFails(t) => IsIn(s, t, Beginning)
    case Register(Some(t), _) => HasContext(s, t)
    case Register(None, _) => true
    case WorkResolves(t) => IsIn(s, t, Working)
    case WorkThrows(t) => IsIn(s, t, Working)
    case CommitOk(t) => IsIn(s, t, Committing)
    case CommitFails(t) => IsIn(s, t, Committing)
    case RollbackEnds(t) => IsIn(s, t, RollingBack)
    case RunJob(t, _) => IsIn(s, t, AfterCommit) && s.txs[t].ran < |s.txs[t].taken|
    case Return(t) => IsIn(s, t, AfterCommit) && s.txs[t].ran == |s.txs[t].taken|
  }

  function Pending(s: State, c: Client): seq<Job> {
    if c in s.pending then s.pending[c] else []
  }

  function SetPhase(s: State, t: nat, p: Phase): State
    requires t < |s.txs|
  {
    s.(txs := s.txs[t := s.txs[t].(phase := p)])
  }

  /** afterCommit in a context: the job goes to the client's list, whoever uses the client by now. */
  function RegisterIn(s: State, t: nat): State
    requires HasContext(s, t)
  {
    var tx := s.txs[t];
    var inTime := tx.phase.Working? || tx.phase.Committing?;
    var job := Job(t, s.nextJob, !inTime);
    s.(pending := s.pending[tx.client := Pending(s, tx.client) + [job]],
       txs := if inTime then s.txs[t := tx.(own := tx.own + [job])] else s.txs,
       nextJob := s.nextJob + 1)
  }

  function Step(s: State, e: Event): State
    requires Enabled(s, e)
  {
    match e
    case Call(Some(t), _) => s
    case Call(None, c) => s.(txs := s.txs + [Tx(c, Beginning, false, [], [], 0)], busy := s.busy + {c})
    case BeginOk(t) =>
      s.(txs := s.txs[t := s.txs[t].(phase := Working, entered := true)], log := s.log + [Began(t)])
    case BeginFails(t) => SetPhase(s, t, RollingBack)
    case Register(Some(t), _) => RegisterIn(s, t)
    case Register(None, ok) => s.(log := s.log + [RanNow(s.nextJob, ok)], nextJob := s.nextJob + 1)
    case WorkResolves(t) => SetPhase(s, t, Committing)
    case WorkThrows(t) => SetPhase(s, t, RollingBack)
    case CommitOk(t) =>
      var tx := s.txs[t];
      s.(txs := s.txs[t := tx.(phase := AfterCommit, taken := Pending(s, tx.client))],
         pending := s.pending - {tx.client}, busy := s.busy - {tx.client}, log := s.log + [Committed(t)])
    case CommitFails(t) => SetPhase(s, t, RollingBack)
    case RollbackEnds(t) =>
      var tx := s.txs[t];
      s.(txs := s.txs[t := tx.(phase := Failed)],
         pending := s.pending - {tx.client}, busy := s.busy - {tx.client}, log := s.log + [RolledBack(t)])
    case RunJob(t, ok) =>
      var tx := s.txs[t];
      s.(txs := s.txs[t := tx.(ran := tx.ran + 1)], log := s.log + [Ran(t, tx.taken[tx.ran], ok)])
    case Return(t) => SetPhase(s, t, Done)
  }

  /** A run; an event that is not enabled does not happen. */
  function Run(s: State, events: seq<Event>): State {
    if events == [] then s
    else
      var before := Run(s, events[..|events| - 1]);
      var e := events[|events| - 1];
      if Enabled(before, e) then Step(before, e) else before
  }

  lemma RunLast(s: State, events: seq<Event>, e: Event)
    ensures var before := Run(s, events);
      Run(s, events + [e]) == if Enabled(before, e) then Step(before, e) else before
  {
    assert (events + [e])[..|events|] == events;
  }

  // ── The jobs of a transaction ──

  predicate OwnedBy(job: Job, t: nat) { job.owner == t && !job.late }

  /** The jobs of a list that were registered by transaction `t` in time. */
  function Own(jobs: seq<Job>, t: nat): seq<Job> {
    if jobs == [] then []
    else Own(jobs[..|jobs| - 1], t) + if OwnedBy(jobs[|jobs| - 1], t) then [jobs[|jobs| - 1]] else []
  }

  /** Those of them that ran, under whatever transaction, in the order they ran. */
  function OwnRuns(log: seq<Log>, t: nat): seq<Job> {
    if log == [] then []
    else
      var last := log[|log| - 1];
      OwnRuns(log[..|log| - 1], t) + if last.Ran? && OwnedBy(last.job, t) then [last.job] else []
  }

  lemma OwnAppend(jobs: seq<Job>, job: Job, t: nat)
    ensures Own(jobs + [job], t) == Own(jobs, t) + if OwnedBy(job, t) then [job] else []
  {
    assert (jobs + [job])[..|jobs|] == jobs;
  }

  lemma OwnRunsAppend(log: seq<Log>, entry: Log, t: nat)
    ensures OwnRuns(log + [entry], t)
         == OwnRuns(log, t) + if entry.Ran? && OwnedBy(entry.job, t) then [entry.job] else []
  {
    assert (log + [entry])[..|log|] == log;
  }

  lemma {:induction false} OwnNothing(jobs: seq<Job>, t: nat)
    requires forall j :: 0 <= j < |jobs| ==> !OwnedBy(jobs[j], t)
    ensures Own(jobs, t) == []
  {
    if jobs != [] { OwnNothing(jobs[..|jobs| - 1], t); }
  }
}
