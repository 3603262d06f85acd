/** What every interleaving of transactions on reused clients keeps. */
module TransactionProofs {
  import opened Common
  import opened TransactionModel

  // ── The invariant ──

  /** One transaction: its own jobs are where its phase says, and those that ran are the first it took. */
  ghost predicate TxOk(s: State, t: nat)
    requires t < |s.txs|
  {
    var tx := s.txs[t];
    && tx.ran <= |tx.taken|
    && OwnRuns(s.log, t) == Own(tx.taken[..tx.ran], t)
    && (if Open(tx.phase) then tx.client in s.busy && tx.taken == [] && Own(Pending(s, tx.client), t) == tx.own
        else if tx.phase.Failed? then tx.taken == []
        else Own(tx.taken, t) == tx.own && (tx.phase.Done? ==> tx.ran == |tx.taken|))
  }

  ghost predicate Holds(s: State, t: nat, c: Client) {
    t < |s.txs| && Open(s.txs[t].phase) && s.txs[t].client == c
  }

  /** A client serves one open transaction at a time. */
  ghost predicate Exclusive(s: State) {
    forall t: nat, u: nat, c: Client :: Holds(s, t, c) && Holds(s, u, c) ==> t == u
  }

  /** A client is out of the pool exactly while an open transaction holds it. */
  ghost predicate BusyOk(s: State) {
    forall c :: c in s.busy ==> exists t: nat :: Holds(s, t, c)
  }

  /** A job in time waits on the client of its own, still open, transaction. */
  ghost predicate PendingOk(s: State) {
    forall c, i :: c in s.pending && 0 <= i < |s.pending[c]| && !s.pending[c][i].late ==>
      var t := s.pending[c][i].owner; t < |s.txs| && Open(s.txs[t].phase) && s.txs[t].client == c
  }

  /** A transaction takes no other transaction's job in time. */
  ghost predicate TakenOk(s: State) {
    forall t, i :: 0 <= t < |s.txs| && 0 <= i < |s.txs[t].taken| && !s.txs[t].taken[i].late ==>
      s.txs[t].taken[i].owner == t
  }

  /** Jobs are new, so no transaction registers one twice. */
  ghost predicate OwnOk(s: State) {
    forall t :: 0 <= t < |s.txs| ==>
      && (forall i :: 0 <= i < |s.txs[t].own| ==> s.txs[t].own[i].id < s.nextJob && OwnedBy(s.txs[t].own[i], t))
      && (forall i, j :: 0 <= i < j < |s.txs[t].own| ==> s.txs[t].own[i].id < s.txs[t].own[j].id)
  }

  ghost predicate NoRunsBeyond(s: State) {
    forall t: nat :: t >= |s.txs| ==> OwnRuns(s.log, t) == []
  }

  ghost predicate AllTxOk(s: State) {
    forall t: nat :: t < |s.txs| ==> TxOk(s, t)
  }

  ghost predicate Inv(s: State) {
    AllTxOk(s) && Exclusive(s) && BusyOk(s) && PendingOk(s) && TakenOk(s) && OwnOk(s) && NoRunsBeyond(s)
  }

  // ── Steps ──

  lemma NewTxKeepsTxOk(s: State, c: Client, t: nat)
    requires Inv(s) && c !in s.busy && t <= |s.txs|
    ensures TxOk(Step(s, Call(None, c)), t)
  {
    if t < |s.txs| {
      assert TxOk(s, t);
    } else {
      forall i | 0 <= i < |Pending(s, c)| ensures !OwnedBy(Pending(s, c)[i], t) { }
      OwnNothing(Pending(s, c), t);
    }
  }

  lemma NewTxKeepsHolders(s: State, c: Client)
    requires AllTxOk(s) && Exclusive(s) && BusyOk(s) && c !in s.busy
    ensures var u := Step(s, Call(None, c)); Exclusive(u) && BusyOk(u)
  {
    var u := Step(s, Call(None, c));
    var n := |s.txs|;
    forall t: nat, d | Holds(u, t, d) ensures (t == n && d == c) || (Holds(s, t, d) && d != c) {
      if t < n { assert TxOk(s, t); }
    }
    assert Holds(u, n, c);
    forall d | d in u.busy ensures exists t: nat :: Holds(u, t, d) {
      if d != c {
        var t: nat :| Holds(s, t, d);
        assert Holds(u, t, d);
      }
    }
  }

  lemma NewTxKeepsInv(s: State, c: Client)
    requires Inv(s) && c !in s.busy
    ensures Inv(Step(s, Call(None, c)))
  {
    var u := Step(s, Call(None, c));
    forall t: nat | t < |u.txs| ensures TxOk(u, t) { NewTxKeepsTxOk(s, c, t); }
    NewTxKeepsHolders(s, c);
  }

  /** Only transaction `t` differs, and it still holds, or does not hold, its client. */
  ghost predicate OnlyTx(s: State, u: State, t: nat) {
    && t < |s.txs| == |u.txs| && (forall k :: 0 <= k < |s.txs| && k != t ==> u.txs[k] == s.txs[k])
    && u.txs[t].client == s.txs[t].client && Open(u.txs[t].phase) == Open(s.txs[t].phase)
    && u.busy == s.busy
  }

  lemma HoldersStay(s: State, u: State, t: nat)
    requires OnlyTx(s, u, t) && Exclusive(s) && BusyOk(s)
    ensures Exclusive(u) && BusyOk(u)
  {
    assert forall k: nat, c :: Holds(u, k, c) <==> Holds(s, k, c);
  }

  /** Nothing but the phase of an open transaction changes. */
  ghost predicate PhaseMoves(s: State, u: State, t: nat) {
    && OnlyTx(s, u, t) && Open(s.txs[t].phase)
    && u.txs[t] == s.txs[t].(phase := u.txs[t].phase, entered := u.txs[t].entered)
    && u.pending == s.pending && u.nextJob == s.nextJob
    && forall k :: OwnRuns(u.log, k) == OwnRuns(s.log, k)
  }

  lemma PhaseMoveKeepsInv(s: State, u: State, t: nat)
    requires Inv(s) && PhaseMoves(s, u, t)
    ensures Inv(u)
  {
    HoldersStay(s, u, t);
    forall k: nat | k < |u.txs| ensures TxOk(u, k) { assert TxOk(s, k); }
  }

  lemma RegisterKeepsTxOk(s: State, t: nat, k: nat)
    requires Inv(s) && HasContext(s, t) && k < |s.txs|
    ensures TxOk(RegisterIn(s, t), k)
  {
    var u, c := RegisterIn(s, t), s.txs[t].client;
    var job := u.pending[c][|Pending(s, c)|];
    assert TxOk(s, k);
    OwnAppend(Pending(s, c), job, k);
    if k != t && Open(s.txs[k].phase) && s.txs[k].client == c { assert !OwnedBy(job, k); }
  }

  lemma RegisterKeepsInv(s: State, t: nat)
    requires Inv(s) && HasContext(s, t)
    ensures Inv(RegisterIn(s, t))
  {
    var u, c := RegisterIn(s, t), s.txs[t].client;
    HoldersStay(s, u, t);
    forall k: nat | k < |u.txs| ensures TxOk(u, k) { RegisterKeepsTxOk(s, t, k); }
    forall d, i | d in u.pending && 0 <= i < |u.pending[d]| && !u.pending[d][i].late
      ensures var k := u.pending[d][i].owner; k < |u.txs| && Open(u.txs[k].phase) && u.txs[k].client == d
    {
      if d == c && i == |Pending(s, c)| {
      } else {
        assert d in s.pending && u.pending[d][i] == s.pending[d][i];
      }
    }
  }

  /** Transaction `t` lets go of its client, and takes the client's jobs or drops them. */
  ghost predicate LetsGo(s: State, u: State, t: nat) {
    && t < |s.txs| == |u.txs| && Open(s.txs[t].phase) && !Open(u.txs[t].phase)
    && (forall k :: 0 <= k < |s.txs| && k != t ==> u.txs[k] == s.txs[k])
    && u.pending == s.pending - {s.txs[t].client} && u.busy == s.busy - {s.txs[t].client} && u.nextJob == s.nextJob
    && (u.txs[t] == s.txs[t].(phase := Failed)
        || u.txs[t] == s.txs[t].(phase := AfterCommit, taken := Pending(s, s.txs[t].client)))
    && forall k :: OwnRuns(u.log, k) == OwnRuns(s.log, k)
  }

  lemma LetGoKeepsTxOk(s: State, u: State, t: nat, k: nat)
    requires Inv(s) && LetsGo(s, u, t) && k < |s.txs|
    ensures TxOk(u, k)
  {
    assert TxOk(s, k) && TxOk(s, t);
    if k != t && Open(s.txs[k].phase) {
      assert Holds(s, k, s.txs[k].client) && Holds(s, t, s.txs[t].client);
    }
  }

  lemma LetGoKeepsInv(s: State, u: State, t: nat)
    requires Inv(s) && LetsGo(s, u, t)
    ensures Inv(u)
  {
    var c := s.txs[t].client;
    assert TxOk(s, t) && Holds(s, t, c);
    forall k: nat | k < |u.txs| ensures TxOk(u, k) { LetGoKeepsTxOk(s, u, t, k); }
    forall k: nat, d | Holds(u, k, d) ensures Holds(s, k, d) && k != t { }
    forall d | d in u.busy ensures exists k: nat :: Holds(u, k, d) {
      var k: nat :| Holds(s, k, d);
      assert Holds(u, k, d);
    }
    LetGoKeepsJobs(s, u, t);
  }

  lemma LetGoKeepsJobs(s: State, u: State, t: nat)
    requires Inv(s) && LetsGo(s, u, t)
    ensures PendingOk(u) && TakenOk(u)
  {
    var c := s.txs[t].client;
    assert TxOk(s, t) && Holds(s, t, c);
    forall d, i | d in u.pending && 0 <= i < |u.pending[d]| && !u.pending[d][i].late
      ensures var k := u.pending[d][i].owner; k < |u.txs| && Open(u.txs[k].phase) && u.txs[k].client == d
    {
      assert d in s.pending && d != c;
    }
    forall k, i | 0 <= k < |u.txs| && 0 <= i < |u.txs[k].taken| && !u.txs[k].taken[i].late
      ensures u.txs[k].taken[i].owner == k
    {
      if k == t && u.txs[t].phase.AfterCommit? {
        var owner := Pending(s, c)[i].owner;
        assert Holds(s, owner, c);
      }
    }
  }

  lemma RunJobKeepsTxOk(s: State, t: nat, ok: bool, k: nat)
    requires Inv(s) && Enabled(s, RunJob(t, ok)) && k < |s.txs|
    ensures TxOk(Step(s, RunJob(t, ok)), k)
  {
    var tx := s.txs[t];
    var job := tx.taken[tx.ran];
    assert TxOk(s, k);
    OwnRunsAppend(s.log, Ran(t, job, ok), k);
    if k == t {
      assert tx.taken[..tx.ran + 1] == tx.taken[..tx.ran] + [job];
      OwnAppend(tx.taken[..tx.ran], job, t);
    }
  }

  lemma RunJobKeepsInv(s: State, t: nat, ok: bool)
    requires Inv(s) && Enabled(s, RunJob(t, ok))
    ensures Inv(Step(s, RunJob(t, ok)))
  {
    var u := Step(s, RunJob(t, ok));
    HoldersStay(s, u, t);
    forall k: nat | k < |u.txs| ensures TxOk(u, k) { RunJobKeepsTxOk(s, t, ok, k); }
    forall k: nat | k >= |u.txs| ensures OwnRuns(u.log, k) == [] {
      OwnRunsAppend(s.log, Ran(t, s.txs[t].taken[s.txs[t].ran], ok), k);
    }
  }

  lemma ReturnKeepsInv(s: State, t: nat)
    requires Inv(s) && Enabled(s, Return(t))
    ensures Inv(Step(s, Return(t)))
  {
    var u := Step(s, Return(t));
    HoldersStay(s, u, t);
    forall k: nat | k < |u.txs| ensures TxOk(u, k) { assert TxOk(s, k); }
  }

  lemma RunNowKeepsInv(s: State, ok: bool)
    requires Inv(s)
    ensures Inv(Step(s, Register(None, ok)))
  {
    var u := Step(s, Register(None, ok));
    forall k ensures OwnRuns(u.log, k) == OwnRuns(s.log, k) { OwnRunsAppend(s.log, RanNow(s.nextJob, ok), k); }
    forall k: nat | k < |u.txs| ensures TxOk(u, k) { assert TxOk(s, k); }
    assert forall k: nat, c :: Holds(u, k, c) <==> Holds(s, k, c);
  }

  lemma OneMore(log: seq<Log>, entry: Log)
    requires !entry.Ran?
    ensures forall k :: OwnRuns(log + [entry], k) == OwnRuns(log, k)
  {
    forall k ensures OwnRuns(log + [entry], k) == OwnRuns(log, k) { OwnRunsAppend(log, entry, k); }
  }

  lemma StepKeepsInv(s: State, e: Event)
    requires Inv(s) && Enabled(s, e)
    ensures Inv(Step(s, e))
  {
    var u := Step(s, e);
    match e
    case Call(Some(t), _) =>
    case Call(None, c) => NewTxKeepsInv(s, c);
    case BeginOk(t) => OneMore(s.log, Began(t)); PhaseMoveKeepsInv(s, u, t);
    case BeginFails(t) => PhaseMoveKeepsInv(s, u, t);
    case Register(Some(t), _) => RegisterKeepsInv(s, t);
    case Register(None, ok) => RunNowKeepsInv(s, ok);
    case WorkResolves(t) => PhaseMoveKeepsInv(s, u, t);
    case WorkThrows(t) => PhaseMoveKeepsInv(s, u, t);
    case CommitOk(t) => OneMore(s.log, Committed(t)); LetGoKeepsInv(s, u, t);
    case CommitFails(t) => PhaseMoveKeepsInv(s, u, t);
    case RollbackEnds(t) => OneMore(s.log, RolledBack(t)); LetGoKeepsInv(s, u, t);
    case RunJob(t, ok) => RunJobKeepsInv(s, t, ok);
    case Return(t) => ReturnKeepsInv(s, t);
  }

  lemma {:induction false} RunKeepsInv(events: seq<Event>)
    ensures Inv(Run(Start, events))
  {
    if events != [] {
      RunKeepsInv(events[..|events| - 1]);
      var before, e := Run(Start, events[..|events| - 1]), events[|events| - 1];
      if Enabled(before, e) { StepKeepsInv(before, e); }
    }
  }
}
