/**
 * How each call of withDatabaseTransaction ends, told by what happened to it and
 * not by the phase it is in (src/config/database.ts): whether BEGIN, the work and
 * COMMIT went well decides what is committed and which jobs run.
 */
module TransactionStories {
  import opened Common
  import opened TransactionModel
  import TransactionProofs
  import opened TransactionTheorems

  // ── The story of a call ──

  /** An answer or an outcome that a call of withDatabaseTransaction waits for. */
  predicate OfLife(e: Event, t: nat) {
    !e.Call? && !e.Register? && e.tx == t
  }

  /** What happened to call `t` in a run, in order; an event that was not enabled did not happen. */
  function Story(events: seq<Event>, t: nat): seq<Event> {
    if |events| == 0 then []
    else
      var before, e := events[..|events| - 1], events[|events| - 1];
      Story(before, t) + if OfLife(e, t) && Enabled(Run(Start, before), e) then [e] else []
  }

  /** What the log says about call `t`. */
  function LogOf(log: seq<Log>, t: nat): seq<Log> {
    if |log| == 0 then []
    else
      var last := log[|log| - 1];
      LogOf(log[..|log| - 1], t) + if About(last, t) then [last] else []
  }

  predicate About(entry: Log, t: nat) { !entry.RanNow? && entry.tx == t }

  /** What a story puts into the log, when the k-th job that runs is the k-th of `jobs`. */
  function Told(story: seq<Event>, jobs: seq<Job>): seq<Log> {
    if |story| == 0 then []
    else Told(story[..|story| - 1], jobs) + Told1(story[|story| - 1], jobs, |story| - 4)
  }

  function Told1(e: Event, jobs: seq<Job>, k: int): seq<Log> {
    match e
    case BeginOk(t) => [Began(t)]
    case CommitOk(t) => [Committed(t)]
    case RollbackEnds(t) => [RolledBack(t)]
    case RunJob(t, ok) => if 0 <= k < |jobs| then [Ran(t, jobs[k], ok)] else []
    case _ => []
  }

  /** The start of every story that commits. */
  function Commit(t: nat): seq<Event> { [BeginOk(t), WorkResolves(t), CommitOk(t)] }

  /** The stories of a call that has to roll back: BEGIN failed, the work threw, or COMMIT failed. */
  predicate FailingStory(story: seq<Event>, t: nat) {
    || story == [BeginFails(t)]
    || story == [BeginOk(t), WorkThrows(t)]
    || story == [BeginOk(t), WorkResolves(t), CommitFails(t)]
  }

  /** A story that commits, and then runs `ran` jobs. */
  predicate CommittedStory(story: seq<Event>, t: nat, ran: nat) {
    && |story| == 3 + ran && story[..3] == Commit(t)
    && forall i :: 3 <= i < |story| ==> Runs(story[i], t)
  }

  /** The one story, or the few, that lead a call to where it is. */
  predicate LeadsTo(story: seq<Event>, t: nat, phase: Phase, ran: nat) {
    (HasCommitted(phase) || ran == 0) && match phase
    case Beginning => story == []
    case Working => story == [BeginOk(t)]
    case Committing => story == [BeginOk(t), WorkResolves(t)]
    case RollingBack => FailingStory(story, t)
    case Failed => |story| > 0 && story[|story| - 1] == RollbackEnds(t) && FailingStory(story[..|story| - 1], t)
    case AfterCommit => CommittedStory(story, t, ran)
    case Done => |story| > 0 && story[|story| - 1] == Return(t) && CommittedStory(story[..|story| - 1], t, ran)
  }

  // ── Steps ──

  lemma LogOfAppend(log: seq<Log>, entry: Log, t: nat)
    ensures LogOf(log + [entry], t) == LogOf(log, t) + if About(entry, t) then [entry] else []
  {
    assert (log + [entry])[..|log|] == log;
  }

  lemma ToldAppend(story: seq<Event>, e: Event, jobs: seq<Job>)
    ensures Told(story + [e], jobs) == Told(story, jobs) + Told1(e, jobs, |story| - 3)
  {
    assert (story + [e])[..|story|] == story;
  }

  /** Before the first job runs the story does not depend on the jobs. */
  lemma {:induction false} ToldEarly(story: seq<Event>, jobs: seq<Job>, others: seq<Job>)
    requires |story| <= 3
    ensures Told(story, jobs) == Told(story, others)
  {
    if |story| > 0 { ToldEarly(story[..|story| - 1], jobs, others); }
  }

  /** What a step does to one call. */
  lemma StoryStep(s: State, e: Event, t: nat, story: seq<Event>)
    requires Enabled(s, e) && t < |s.txs| && OfLife(e, t)
    requires LeadsTo(story, t, s.txs[t].phase, s.txs[t].ran)
    ensures t < |Step(s, e).txs|
    ensures LeadsTo(story + [e], t, Step(s, e).txs[t].phase, Step(s, e).txs[t].ran)
  {
    assert (story + [e])[..|story|] == story;
    if e.RunJob? { assert (story + [e])[..3] == story[..3]; }
  }

  lemma OthersStay(s: State, e: Event, t: nat)
    requires Enabled(s, e) && t < |s.txs| && !OfLife(e, t)
    ensures t < |Step(s, e).txs|
    ensures Step(s, e).txs[t].phase == s.txs[t].phase && Step(s, e).txs[t].ran == s.txs[t].ran
    ensures Step(s, e).txs[t].taken == s.txs[t].taken
  {
  }

  /** What a step logs about call `t`. */
  lemma LogOfStep(s: State, e: Event, t: nat)
    requires Enabled(s, e)
    ensures LogOf(Step(s, e).log, t)
         == LogOf(s.log, t) + if OfLife(e, t) then Told1(e, s.txs[t].taken, s.txs[t].ran) else []
  {
    var u := Step(s, e);
    LogGrows(s, e);
    if |u.log| > |s.log| {
      var entry := u.log[|s.log|];
      assert u.log == s.log + [entry];
      LogOfAppend(s.log, entry, t);
    } else {
      assert u.log == s.log;
    }
  }

  ghost predicate StoryOk(s: State, story: seq<Event>, t: nat) {
    if t < |s.txs| then
      LeadsTo(story, t, s.txs[t].phase, s.txs[t].ran) && LogOf(s.log, t) == Told(story, s.txs[t].taken)
    else
      story == [] && LogOf(s.log, t) == []
  }

  lemma StepKeepsTold(s: State, e: Event, t: nat, story: seq<Event>)
    requires Enabled(s, e) && t < |s.txs| && OfLife(e, t) && StoryOk(s, story, t)
    ensures t < |Step(s, e).txs| && LogOf(Step(s, e).log, t) == Told(story + [e], Step(s, e).txs[t].taken)
  {
    hide Told, LogOf;
    LogOfStep(s, e, t);
    ToldAppend(story, e, s.txs[t].taken);
    if e.CommitOk? { ToldEarly(story + [e], s.txs[t].taken, Step(s, e).txs[t].taken); }
  }

  lemma StepKeepsStory(s: State, e: Event, t: nat, story: seq<Event>)
    requires Enabled(s, e) && StoryOk(s, story, t)
    ensures StoryOk(Step(s, e), story + if OfLife(e, t) then [e] else [], t)
  {
    var u := Step(s, e);
    if OfLife(e, t) {
      StepKeepsTold(s, e, t, story);
      StoryStep(s, e, t, story);
    } else {
      LogOfStep(s, e, t);
      assert story + [] == story && LogOf(s.log, t) + [] == LogOf(s.log, t);
      if t < |s.txs| {
        OthersStay(s, e, t);
      } else if t < |u.txs| {
        NewTxIsEmpty(s, e, t);
      }
    }
  }

  // ── What a story decides ──

  /**
   * Where a call stands is decided by what happened to it, and by nothing else: its
   * phase follows from the one story that leads there, and the whole log says of it
   * what the story tells, in that order. A story commits only when BEGIN, then the
   * work, then COMMIT went well; after that it runs jobs and returns; and every
   * failure leads to a rollback.
   */
  lemma {:induction false} StoryDecides(events: seq<Event>, t: nat)
    ensures StoryOk(Run(Start, events), Story(events, t), t)
  {
    if |events| > 0 {
      var front, e := events[..|events| - 1], events[|events| - 1];
      StoryDecides(front, t);
      var before := Run(Start, front);
      if Enabled(before, e) {
        StepKeepsStory(before, e, t, Story(front, t));
      } else {
        assert Story(front, t) + [] == Story(front, t);
      }
    }
  }

  lemma {:induction false} InLogOf(log: seq<Log>, entry: Log, t: nat)
    requires About(entry, t)
    ensures entry in log <==> entry in LogOf(log, t)
  {
    if |log| > 0 {
      InLogOf(log[..|log| - 1], entry, t);
      assert log == log[..|log| - 1] + [log[|log| - 1]];
    }
  }

  /** Every entry was told by one event of the story. */
  lemma {:induction false} ToldBy(story: seq<Event>, jobs: seq<Job>, entry: Log) returns (i: nat)
    requires entry in Told(story, jobs)
    ensures i < |story| && entry in Told1(story[i], jobs, i - 3)
  {
    hide Told1;
    i := |story| - 1;
    if entry !in Told1(story[i], jobs, i - 3) { i := ToldBy(story[..i], jobs, entry); }
  }

  /** A story that fails tells of no commit and of no job. */
  lemma FailingIsTold(story: seq<Event>, t: nat, jobs: seq<Job>, entry: Log)
    requires FailingStory(story, t) && entry in Told(story, jobs)
    ensures entry == Began(t)
  {
    var i := ToldBy(story, jobs, entry);
  }

  lemma FailedIsTold(story: seq<Event>, t: nat, jobs: seq<Job>, entry: Log)
    requires FailingStory(story, t) && entry in Told(story + [RollbackEnds(t)], jobs)
    ensures entry == Began(t) || entry == RolledBack(t)
  {
    ToldAppend(story, RollbackEnds(t), jobs);
    if entry != RolledBack(t) { FailingIsTold(story, t, jobs, entry); }
  }

  /** BEGIN failed, the work threw, or COMMIT failed. */
  predicate HasFailed(story: seq<Event>, t: nat) {
    BeginFails(t) in story || WorkThrows(t) in story || CommitFails(t) in story
  }

  lemma FailedStoryFails(story: seq<Event>, t: nat, phase: Phase, ran: nat)
    requires LeadsTo(story, t, phase, ran) && HasFailed(story, t)
    ensures phase.RollingBack? || phase.Failed?
  {
    var i :| 0 <= i < |story| && (story[i] == BeginFails(t) || story[i] == WorkThrows(t) || story[i] == CommitFails(t));
    if phase.AfterCommit? { CommittedAt(story, t, ran, i); }
    if phase.Done? && i < |story| - 1 { CommittedAt(story[..|story| - 1], t, ran, i); }
  }

  lemma CommittedAt(story: seq<Event>, t: nat, ran: nat, i: nat)
    requires CommittedStory(story, t, ran) && i < |story|
    ensures if i < 3 then story[i] == Commit(t)[i] else Runs(story[i], t)
  {
    if i < 3 { assert story[..3][i] == story[i]; }
  }

  /**
   * A call whose BEGIN failed, whose work threw or whose COMMIT failed never commits and
   * runs no job, whatever else happens; once it has returned it was rolled back exactly once.
   */
  lemma FailureIsRolledBack(events: seq<Event>, t: nat)
    requires HasFailed(Story(events, t), t)
    ensures var s := Run(Start, events);
      && t < |s.txs| && (s.txs[t].phase.RollingBack? || s.txs[t].phase.Failed?)
      && Committed(t) !in s.log
      && (forall i :: 0 <= i < |s.log| && s.log[i].Ran? ==> s.log[i].tx != t)
      && (!Open(s.txs[t].phase) ==> Count(s.log, RolledBack(t)) == 1)
  {
    var s, story := Run(Start, events), Story(events, t);
    StoryDecides(events, t);
    FailedStoryFails(story, t, s.txs[t].phase, s.txs[t].ran);
    CommittedOrRolledBackOnce(events, t);
    forall entry | entry in s.log && About(entry, t) ensures !entry.Committed? && !entry.Ran? {
      InLogOf(s.log, entry, t);
      if s.txs[t].phase.Failed? {
        var front := story[..|story| - 1];
        assert front + [RollbackEnds(t)] == story;
        FailedIsTold(front, t, s.txs[t].taken, entry);
      } else {
        FailingIsTold(story, t, s.txs[t].taken, entry);
      }
    }
    assert About(Committed(t), t);
  }

  /**
   * A transaction is committed exactly when its BEGIN, then its work and then its
   * COMMIT went well, and it is rolled back exactly when one of them failed and
   * the rollback has ended.
   */
  lemma CommittedOnlyAfterItsWork(events: seq<Event>, t: nat)
    ensures var log, story := Run(Start, events).log, Story(events, t);
      && (Committed(t) in log <==> Commit(t) <= story)
      && (RolledBack(t) in log <==> HasFailed(story, t) && RollbackEnds(t) in story)
  {
    var s, story := Run(Start, events), Story(events, t);
    StoryDecides(events, t);
    CommittedOrRolledBackOnce(events, t);
    CountIn(s.log, Committed(t));
    CountIn(s.log, RolledBack(t));
    if t < |s.txs| { EndOfStory(story, t, s.txs[t].phase, s.txs[t].ran); }
  }

  lemma EndOfStory(story: seq<Event>, t: nat, phase: Phase, ran: nat)
    requires LeadsTo(story, t, phase, ran)
    ensures HasCommitted(phase) <==> Commit(t) <= story
    ensures phase.Failed? <==> HasFailed(story, t) && RollbackEnds(t) in story
  {
    if phase.Done? { assert story[..3] == story[..|story| - 1][..3]; }
    if phase.Failed? {
      var front := story[..|story| - 1];
      assert story == front + [RollbackEnds(t)];
      assert front[|front| - 1] in story;
    }
  }

  lemma {:induction false} CountIn(log: seq<Log>, entry: Log)
    ensures entry in log <==> Count(log, entry) > 0
  {
    if log != [] {
      CountIn(log[..|log| - 1], entry);
      assert log == log[..|log| - 1] + [log[|log| - 1]];
    }
  }

  // ── Which jobs are a call's own ──

  /** How many jobs were handed to afterCommit. */
  function Registers(events: seq<Event>): nat {
    if |events| == 0 then 0 else Registers(events[..|events| - 1]) + if events[|events| - 1].Register?
      && Enabled(Run(Start, events[..|events| - 1]), events[|events| - 1]) then 1 else 0
  }

  /** The work is running, or COMMIT has not answered yet. */
  predicate InTime(story: seq<Event>, t: nat) { story == [BeginOk(t)] || story == [BeginOk(t), WorkResolves(t)] }

  /** The jobs handed to afterCommit in the context of call `t` while its story was still in time, in order. */
  function JobsInTime(events: seq<Event>, t: nat): seq<Job> {
    if |events| == 0 then []
    else
      var front, e := events[..|events| - 1], events[|events| - 1];
      JobsInTime(front, t)
      + if e.Register? && e.context == Some(t) && InTime(Story(front, t), t) then [Job(t, Registers(front), false)]
        else []
  }

  ghost predicate OwnIs(s: State, t: nat, jobs: seq<Job>) { (if t < |s.txs| then s.txs[t].own else []) == jobs }

  lemma InTimeIsOpen(s: State, t: nat, story: seq<Event>)
    requires StoryOk(s, story, t)
    ensures InTime(story, t) <==> t < |s.txs| && (s.txs[t].phase.Working? || s.txs[t].phase.Committing?)
  {
  }

  lemma StepKeepsOwn(s: State, e: Event, t: nat, jobs: seq<Job>)
    requires Enabled(s, e) && OwnIs(s, t, jobs)
    ensures var inTime := t < |s.txs| && (s.txs[t].phase.Working? || s.txs[t].phase.Committing?);
      OwnIs(Step(s, e), t,
            jobs + if e.Register? && e.context == Some(t) && inTime then [Job(t, s.nextJob, false)] else [])
  {
  }

  /**
   * The jobs a transaction runs after its commit, or drops, are those handed to
   * afterCommit in its context before its COMMIT or ROLLBACK was answered: all of them,
   * in the order they were handed over.
   */
  lemma {:induction false} OwnJobsAreTheRegistered(events: seq<Event>, t: nat)
    ensures Run(Start, events).nextJob == Registers(events)
    ensures OwnIs(Run(Start, events), t, JobsInTime(events, t))
  {
    if |events| > 0 {
      var front, e := events[..|events| - 1], events[|events| - 1];
      OwnJobsAreTheRegistered(front, t);
      StoryDecides(front, t);
      var before := Run(Start, front);
      InTimeIsOpen(before, t, Story(front, t));
      CommittedOrRolledBackOnce(front, t);
      if Enabled(before, e) {
        StepKeepsOwn(before, e, t, JobsInTime(front, t));
      }
    }
  }

  /** When the call has returned, exactly those jobs have run under it in time, each once and in order. */
  lemma RegisteredJobsRun(events: seq<Event>, t: nat)
    requires Return(t) in Story(events, t)
    ensures OwnRuns(Run(Start, events).log, t) == JobsInTime(events, t)
  {
    hide Story, Registers, JobsInTime, OwnRuns;
    StoryDecides(events, t);
    OwnJobsAreTheRegistered(events, t);
    var s := Run(Start, events);
    ReturnIsLast(Story(events, t), t, s.txs[t].phase, s.txs[t].ran);
    InTimeJobsRunOnceInOrder(events, t);
  }

  lemma ReturnIsLast(story: seq<Event>, t: nat, phase: Phase, ran: nat)
    requires LeadsTo(story, t, phase, ran) && Return(t) in story
    ensures phase.Done?
  {
  }

  /** Without a commit none of them has. */
  lemma DroppedUnlessCommitted(events: seq<Event>, t: nat)
    requires !(Commit(t) <= Story(events, t))
    ensures OwnRuns(Run(Start, events).log, t) == []
  {
    var s, story := Run(Start, events), Story(events, t);
    StoryDecides(events, t);
    if t < |s.txs| {
      EndOfStory(story, t, s.txs[t].phase, s.txs[t].ran);
      InTimeJobsRunOnceInOrder(events, t);
    } else {
      TransactionProofs.RunKeepsInv(events);
    }
  }

  // ── Nested calls ──

  /** The clients handed to the calls made outside any transaction, in order. */
  function Outermost(events: seq<Event>): seq<Client> {
    if |events| == 0 then []
    else
      var front, e := events[..|events| - 1], events[|events| - 1];
      Outermost(front) + if e.Call? && e.context.None? && Enabled(Run(Start, front), e) then [e.client] else []
  }

  lemma ClientsStep(s: State, e: Event, clients: seq<Client>)
    requires Enabled(s, e) && |s.txs| == |clients| && forall t :: 0 <= t < |clients| ==> s.txs[t].client == clients[t]
    ensures var u := Step(s, e); var all := clients + if e.Call? && e.context.None? then [e.client] else [];
      |u.txs| == |all| && forall t :: 0 <= t < |all| ==> u.txs[t].client == all[t]
  {
  }

  /** Each outermost call starts one transaction, on its own client; a nested one starts none. */
  lemma {:induction false} OneTransactionPerOutermostCall(events: seq<Event>)
    ensures var txs, clients := Run(Start, events).txs, Outermost(events);
      |txs| == |clients| && forall t :: 0 <= t < |txs| ==> txs[t].client == clients[t]
  {
    if |events| > 0 {
      var front, e := events[..|events| - 1], events[|events| - 1];
      OneTransactionPerOutermostCall(front);
      if Enabled(Run(Start, front), e) { ClientsStep(Run(Start, front), e, Outermost(front)); }
    }
  }
}
