/**
 * withDatabaseTransaction, afterCommit and the loop over the committed work,
 * updating the lists and the pool in place (src/config/database.ts). Every method
 * is one turn between two awaits and does what module TransactionModel says.
 */
module Database {
  import opened Common
  import M = TransactionModel

  /** Every job once, in order, with its outcome. */
  function Runs(t: nat, jobs: seq<M.Job>, outcomes: seq<bool>): seq<M.Log>
    requires |jobs| == |outcomes|
  {
    seq(|jobs|, i requires 0 <= i < |jobs| => M.Ran(t, jobs[i], outcomes[i]))
  }

  class Database {
    /** The calls of withDatabaseTransaction that started a transaction. */
    var calls: seq<M.Tx>
    var afterCommitWork: map<M.Client, seq<M.Job>>
    var checkedOut: set<M.Client>
    var log: seq<M.Log>
    var nextJob: nat

    ghost function State(): M.State
      reads this
    {
      M.State(calls, afterCommitWork, checkedOut, log, nextJob)
    }

    constructor ()
      ensures State() == M.Start
    {
      calls, afterCommitWork, checkedOut, log, nextJob := [], map[], {}, [], 0;
    }

    method SetPhase(t: nat, phase: M.Phase)
      requires t < |calls|
      modifies this`calls
      ensures State() == M.SetPhase(old(State()), t, phase)
    {
      calls := calls[t := calls[t].(phase := phase)];
    }

    /** withDatabaseTransaction: a nested call uses the transaction around it, an outermost one gets a client. */
    method WithDatabaseTransaction(context: Option<nat>, client: M.Client)
      requires M.Enabled(State(), M.Call(context, client))
      modifies this
      ensures State() == M.Step(old(State()), M.Call(context, client))
    {
      if context.Some? {
        return;
      }
      checkedOut := checkedOut + {client};
      calls := calls + [M.Tx(client, M.Beginning, false, [], [], 0)];
    }

    method BeginAnswered(t: nat, ok: bool)
      requires M.Enabled(State(), M.BeginOk(t))
      modifies this
      ensures State() == M.Step(old(State()), if ok then M.BeginOk(t) else M.BeginFails(t))
    {
      if ok {
        calls := calls[t := calls[t].(phase := M.Working, entered := true)];
        log := log + [M.Began(t)];
      } else {
        SetPhase(t, M.RollingBack);
      }
    }

    /** afterCommit: `ok` is how the job would end if it runs at once. */
    method AfterCommit(context: Option<nat>, ok: bool)
      requires M.Enabled(State(), M.Register(context, ok))
      modifies this
      ensures State() == M.Step(old(State()), M.Register(context, ok))
    {
      if context.None? {
        log := log + [M.RanNow(nextJob, ok)];
        nextJob := nextJob + 1;
        return;
      }
      var t := context.value;
      var tx := calls[t];
      var inTime := tx.phase.Working? || tx.phase.Committing?;
      var job := M.Job(t, nextJob, !inTime);
      if tx.client in afterCommitWork {
        afterCommitWork := afterCommitWork[tx.client := afterCommitWork[tx.client] + [job]];
      } else {
        afterCommitWork := afterCommitWork[tx.client := [job]];
        assert [] + [job] == [job];
      }
      if inTime {
        calls := calls[t := tx.(own := tx.own + [job])];
      }
      nextJob := nextJob + 1;
    }

    method WorkSettled(t: nat, ok: bool)
      requires M.Enabled(State(), M.WorkResolves(t))
      modifies this`calls
      ensures State() == M.Step(old(State()), if ok then M.WorkResolves(t) else M.WorkThrows(t))
    {
      SetPhase(t, if ok then M.Committing else M.RollingBack);
    }

    /** The finally block: the client's list is forgotten and the client goes back to the pool. */
    method Release(client: M.Client)
      modifies this`afterCommitWork, this`checkedOut
      ensures State() == old(State()).(pending := old(afterCommitWork) - {client}, busy := old(checkedOut) - {client})
    {
      afterCommitWork := afterCommitWork - {client};
      checkedOut := checkedOut - {client};
    }

    method CommitAnswered(t: nat, ok: bool)
      requires M.Enabled(State(), M.CommitOk(t))
      modifies this
      ensures State() == M.Step(old(State()), if ok then M.CommitOk(t) else M.CommitFails(t))
    {
      if !ok {
        SetPhase(t, M.RollingBack);
        return;
      }
      var tx := calls[t];
      var committedWork := if tx.client in afterCommitWork then afterCommitWork[tx.client] else [];
      calls := calls[t := tx.(phase := M.AfterCommit, taken := committedWork)];
      log := log + [M.Committed(t)];
      Release(tx.client);
    }

    method RollbackAnswered(t: nat)
      requires M.Enabled(State(), M.RollbackEnds(t))
      modifies this
      ensures State() == M.Step(old(State()), M.RollbackEnds(t))
    {
      var tx := calls[t];
      calls := calls[t := tx.(phase := M.Failed)];
      log := log + [M.RolledBack(t)];
      Release(tx.client);
    }

    /** runCommittedWork: a failure is logged and goes no further. */
    method RunCommittedWork(t: nat, ok: bool)
      requires M.Enabled(State(), M.RunJob(t, ok))
      modifies this`calls, this`log
      ensures State() == M.Step(old(State()), M.RunJob(t, ok))
    {
      var tx := calls[t];
      log := log + [M.Ran(t, tx.taken[tx.ran], ok)];
      calls := calls[t := tx.(ran := tx.ran + 1)];
    }

    method Return(t: nat)
      requires M.Enabled(State(), M.Return(t))
      modifies this`calls
      ensures State() == M.Step(old(State()), M.Return(t))
    {
      SetPhase(t, M.Done);
    }

    /** The loop over the committed work, with the outcome of each job; nothing else happens meanwhile. */
    method RunCommitted(t: nat, outcomes: seq<bool>)
      requires M.IsIn(State(), t, M.AfterCommit) && calls[t].ran == 0 && |outcomes| == |calls[t].taken|
      modifies this`calls, this`log
      ensures M.IsIn(State(), t, M.Done) && calls[t].ran == |outcomes|
      ensures log == old(log) + Runs(t, old(calls[t].taken), outcomes)
    {
      ghost var jobs := calls[t].taken;
      for i := 0 to |outcomes|
        invariant M.IsIn(State(), t, M.AfterCommit) && calls[t] == old(calls[t]).(ran := i)
        invariant log == old(log) + Runs(t, jobs[..i], outcomes[..i])
      {
        RunCommittedWork(t, outcomes[i]);
      }
      assert jobs[..|outcomes|] == jobs && outcomes[..|outcomes|] == outcomes;
      Return(t);
    }
  }
}
