/** How long a tenant cools down (src/modules/assignments/email-outbox-delivery.service.ts). */
module OutboxCircuits {
  import opened Common
  import opened OutboxModel
  import opened OutboxTheorems
  import B = SmtpBatchModel

  // ── Only the verdict on a tenant touches its circuit ──

  lemma {:induction false} RetriesKeepCircuits(s: State, jobs: seq<Job>)
    ensures RetryAll(s, jobs).circuits == s.circuits
  {
    if jobs != [] { RetriesKeepCircuits(s, jobs[..|jobs| - 1]); }
  }

  lemma {:induction false} DeletesKeepCircuits(s: State, jobs: seq<Job>)
    ensures DeleteAll(s, jobs).circuits == s.circuits
  {
    if jobs != [] { DeletesKeepCircuits(s, jobs[..|jobs| - 1]); }
  }

  lemma {:induction false} ResultsKeepCircuits(m: Marks, jobs: seq<Job>, results: seq<B.Result>,
                                               infrastructure: nat -> bool)
    ensures MarkResults(m, jobs, results, infrastructure).state.circuits == m.state.circuits
  {
    if results != [] { ResultsKeepCircuits(m, jobs, results[..|results| - 1], infrastructure); }
  }

  lemma {:induction false} UnseenKeepCircuits(m: Marks, slice: seq<Job>)
    ensures MarkUnseen(m, slice).circuits == m.state.circuits
  {
    if slice != [] { UnseenKeepCircuits(m, slice[..|slice| - 1]); }
  }

  lemma SentKeepCircuits(s: State, jobs: seq<Job>, slice: seq<Job>, w: SliceWorld, c: Config)
    ensures SendKept(s, jobs, slice, w, c).state.circuits == s.circuits
  {
    var results := BatchCall(slice, w, c).results;
    ResultsKeepCircuits(Marks(s, {}, 0, None), jobs, results, w.infrastructure);
    UnseenKeepCircuits(MarkResults(Marks(s, {}, 0, None), jobs, results, w.infrastructure), slice);
  }

  // ── The bounds, over every run of groups ──

  ghost predicate CircuitsBounded(s: State, now: int, c: Config) {
    forall tenant :: tenant in s.circuits ==> Bounded(s.circuits[tenant], now, c)
  }

  /** An open circuit reached the threshold; no cooldown is longer than the maximum or ends later than that from now. */
  ghost predicate Bounded(circuit: Circuit, now: int, c: Config) {
    && circuit.failures >= 1 && c.cooldownMs <= circuit.cooldownMs <= c.maxCooldownMs
    && circuit.cooldownUntil <= Max(0, now + c.maxCooldownMs)
    && (circuit.cooldownUntil != 0 ==> circuit.failures >= c.threshold)
  }

  lemma SettleKeepsBounds(s: State, tenant: string, successes: nat, error: Option<bool>, now: int, end: int, c: Config)
    requires ValidConfig(c) && CircuitsBounded(s, end, c) && now <= end
    ensures CircuitsBounded(SettleCircuit(s, tenant, successes, error, now, c), end, c)
  {
    if successes == 0 && error == Some(true) { assert Bounded(NextCircuit(s, tenant, now, c), end, c); }
  }

  lemma SliceKeepsBounds(s: State, tenant: string, jobs: seq<Job>, claimed: seq<Job>, w: SliceWorld, end: int,
                         c: Config)
    requires ValidConfig(c) && CircuitsBounded(s, end, c) && w.now <= end
    ensures CircuitsBounded(SendSlice(s, tenant, jobs, claimed, w, c), end, c)
  {
    var slice, deleted := Deliverable(claimed, w.deliverable), DeleteAll(s, Cancelled(claimed, w.deliverable));
    DeletesKeepCircuits(s, Cancelled(claimed, w.deliverable));
    if slice != [] {
      var a := SendKept(deleted, jobs, slice, w, c);
      SentKeepCircuits(deleted, jobs, slice, w, c);
      SettleKeepsBounds(a.state, tenant, a.successes, a.error, w.now, end, c);
    }
  }

  /** Sending a slice keeps the bounds. */
  ghost predicate KeepsBounds(send: (State, nat) -> State, end: int, c: Config) {
    forall t, k: nat :: CircuitsBounded(t, end, c) ==> CircuitsBounded(send(t, k), end, c)
  }

  lemma {:induction false} SlicesKeepBounds(s: State, jobs: seq<Job>, start: nat, max: int, send: (State, nat) -> State,
                                            end: int, c: Config)
    requires max >= 1 && CircuitsBounded(s, end, c) && KeepsBounds(send, end, c)
    ensures CircuitsBounded(SendSlices(s, jobs, start, max, send), end, c)
    decreases |jobs| - start
  {
    if start < |jobs| { SlicesKeepBounds(send(s, start), jobs, start + max, max, send, end, c); }
  }

  /** No clock reading of the group is later than `end`. */
  ghost predicate OverBy(w: GroupWorld, end: int) {
    w.now <= end && forall k: nat :: w.slices(k).now <= end
  }

  lemma SendingKeepsBounds(tenant: string, jobs: seq<Job>, w: GroupWorld, end: int, c: Config)
    requires ValidConfig(c) && OverBy(w, end)
    ensures KeepsBounds(SendSliceAt(tenant, jobs, w, c), end, c)
  {
    forall t, k: nat | CircuitsBounded(t, end, c)
      ensures CircuitsBounded(SendSliceAt(tenant, jobs, w, c)(t, k), end, c)
    {
      SliceKeepsBounds(t, tenant, jobs, SliceAt(jobs, k, c.sessionMax), w.slices(k), end, c);
    }
  }

  lemma GroupKeepsBounds(s: State, tenant: string, jobs: seq<Job>, w: GroupWorld, end: int, c: Config)
    requires ValidConfig(c) && CircuitsBounded(s, end, c) && OverBy(w, end)
    ensures CircuitsBounded(SendGroup(s, tenant, jobs, w, c), end, c)
  {
    if jobs != [] {
      if CoolingDown(s, tenant, w.now) {
        ReleasesInOrder(s, jobs, s.circuits[tenant].cooldownUntil);
      } else if !w.configOk {
        SettleKeepsBounds(s, tenant, 0, Some(w.configInfrastructure), w.now, end, c);
        RetriesKeepCircuits(Failure(s, tenant, w.configInfrastructure, w.now, c), jobs);
      } else {
        SendingKeepsBounds(tenant, jobs, w, end, c);
        SlicesKeepBounds(s, jobs, 0, c.sessionMax, SendSliceAt(tenant, jobs, w, c), end, c);
      }
    }
  }

  /**
   * After any groups: a tenant cools down only from the threshold of failures on, each
   * cooldown is between the first length and the maximum, and at any time not before
   * their clock readings none ends later than the maximum from then.
   */
  lemma {:induction false} CooldownsAreBounded(groups: seq<Group>, end: int, c: Config)
    requires ValidConfig(c) && forall g :: g in groups ==> OverBy(g.world, end)
    ensures CircuitsBounded(SendGroups(groups, c), end, c)
  {
    if groups != [] {
      var n := |groups| - 1;
      CooldownsAreBounded(groups[..n], end, c);
      GroupKeepsBounds(SendGroups(groups[..n], c), groups[n].tenant, groups[n].jobs, groups[n].world, end, c);
    }
  }

  // ── When a cooldown grows ──

  predicate Lengthened(s: State, t: State, tenant: string) {
    && tenant in s.circuits && tenant in t.circuits
    && t.circuits[tenant].cooldownMs > s.circuits[tenant].cooldownMs
  }

  /**
   * The verdict on a tenant makes its cooldown longer exactly when its SMTP failed while
   * it was still cooling down below the maximum; then the length doubles, up to the
   * maximum. A circuit that opens after its cooldown expired keeps its length.
   */
  lemma LengthenedOnlyWhileCooling(s: State, tenant: string, successes: nat, error: Option<bool>, before: int,
                                   now: int, c: Config)
    requires ValidConfig(c) && CircuitsBounded(s, before, c)
    ensures var t := SettleCircuit(s, tenant, successes, error, now, c);
      && (Lengthened(s, t, tenant) <==>
            && successes == 0 && error == Some(true) && CoolingDown(s, tenant, now)
            && s.circuits[tenant].failures + 1 >= c.threshold && s.circuits[tenant].cooldownMs < c.maxCooldownMs)
      && (Lengthened(s, t, tenant) ==>
            && t.circuits[tenant].cooldownMs == Min(2 * s.circuits[tenant].cooldownMs, c.maxCooldownMs)
            && t.circuits[tenant].cooldownUntil == now + t.circuits[tenant].cooldownMs)
      && (successes == 0 && error == Some(true) && tenant in s.circuits && !CoolingDown(s, tenant, now)
          && s.circuits[tenant].failures + 1 >= c.threshold ==>
            t.circuits[tenant].cooldownMs == s.circuits[tenant].cooldownMs
            && t.circuits[tenant].cooldownUntil == now + s.circuits[tenant].cooldownMs)
      && (successes > 0 ==> tenant !in t.circuits)
  {
    if tenant in s.circuits { assert Bounded(s.circuits[tenant], before, c); }
  }

  /** The state in which the loop that began with `s` at `from` sends the slice at `at`, if it does. */
  function StateAt(s: State, jobs: seq<Job>, from: nat, at: nat, max: int, send: (State, nat) -> State): Option<State>
    requires max >= 1
    decreases |jobs| - from
  {
    if from >= |jobs| || from > at then None
    else if from == at then Some(s)
    else StateAt(send(s, from), jobs, from + max, at, max, send)
  }

  lemma SliceLengthensWhileCooling(s: State, tenant: string, jobs: seq<Job>, claimed: seq<Job>, w: SliceWorld,
                                   before: int, c: Config)
    requires ValidConfig(c) && CircuitsBounded(s, before, c)
    requires Lengthened(s, SendSlice(s, tenant, jobs, claimed, w, c), tenant)
    ensures CoolingDown(s, tenant, w.now)
  {
    var slice, deleted := Deliverable(claimed, w.deliverable), DeleteAll(s, Cancelled(claimed, w.deliverable));
    DeletesKeepCircuits(s, Cancelled(claimed, w.deliverable));
    if slice != [] {
      var a := SendKept(deleted, jobs, slice, w, c);
      SentKeepCircuits(deleted, jobs, slice, w, c);
      LengthenedOnlyWhileCooling(a.state, tenant, a.successes, a.error, before, w.now, c);
    }
  }

  lemma {:induction false} StateAtIsBounded(s: State, jobs: seq<Job>, from: nat, at: nat, max: int,
                                            send: (State, nat) -> State,
                                            end: int, c: Config)
    requires max >= 1 && CircuitsBounded(s, end, c) && KeepsBounds(send, end, c)
    ensures var u := StateAt(s, jobs, from, at, max, send); u.Some? ==> CircuitsBounded(u.value, end, c)
    decreases |jobs| - from
  {
    if from < |jobs| && from < at { StateAtIsBounded(send(s, from), jobs, from + max, at, max, send, end, c); }
  }

  /**
   * A cooldown grows only in a slice after one of the same group that opened the
   * circuit: a group is sent only to a tenant that is not cooling down, and a circuit
   * it finds is not cooling later either.
   */
  lemma OnlyLaterSlicesLengthen(s: State, tenant: string, jobs: seq<Job>, at: nat, w: GroupWorld, end: int, c: Config)
    requires ValidConfig(c) && CircuitsBounded(s, end, c) && OverBy(w, end) && !CoolingDown(s, tenant, w.now)
    requires forall k: nat :: w.now <= w.slices(k).now
    ensures var send := SendSliceAt(tenant, jobs, w, c);
      var u := StateAt(s, jobs, 0, at, c.sessionMax, send);
      u.Some? && Lengthened(u.value, send(u.value, at), tenant) ==>
        && at > 0 && tenant in u.value.circuits
        && (tenant in s.circuits ==> u.value.circuits[tenant] != s.circuits[tenant])
  {
    var send := SendSliceAt(tenant, jobs, w, c);
    var u := StateAt(s, jobs, 0, at, c.sessionMax, send);
    SendingKeepsBounds(tenant, jobs, w, end, c);
    StateAtIsBounded(s, jobs, 0, at, c.sessionMax, send, end, c);
    if u.Some? && Lengthened(u.value, send(u.value, at), tenant) {
      SliceLengthensWhileCooling(u.value, tenant, jobs, SliceAt(jobs, at, c.sessionMax), w.slices(at), end, c);
    }
  }

  /** While a tenant cools down, its jobs are released to the end of the cooldown, and its circuit stays as it is. */
  lemma CoolingGroupIsReleased(s: State, tenant: string, jobs: seq<Job>, w: GroupWorld, c: Config)
    requires c.sessionMax >= 1 && CoolingDown(s, tenant, w.now)
    ensures var t := SendGroup(s, tenant, jobs, w, c);
      t.circuits == s.circuits && |t.writes| == |s.writes| + |jobs|
    ensures var t := SendGroup(s, tenant, jobs, w, c);
      forall i :: 0 <= i < |jobs| ==>
        |s.writes| + i < |t.writes|
        && t.writes[|s.writes| + i] == Write(jobs[i].id, Release(s.circuits[tenant].cooldownUntil))
  {
    ReleasesInOrder(s, jobs, s.circuits[tenant].cooldownUntil);
  }

  lemma {:induction false} ReleasesInOrder(s: State, jobs: seq<Job>, until: int)
    ensures var t := ReleaseAll(s, jobs, until);
      && t.circuits == s.circuits
      && t.writes == s.writes + seq(|jobs|, i requires 0 <= i < |jobs| => Write(jobs[i].id, Release(until)))
  {
    if jobs != [] { ReleasesInOrder(s, jobs[..|jobs| - 1], until); }
  }

  // ── Two failures: inside one group, and in two ──

  /** A server that cannot be reached, at a moment. */
  function Unreachable(ids: set<string>, now: int): SliceWorld {
    SliceWorld(ids, B.Server(false, 587), false, [], _ => false, true, now)
  }

  lemma UnreachableSliceFails(s: State, tenant: string, jobs: seq<Job>, job: Job, ids: set<string>, now: int, c: Config)
    requires job.id in ids
    ensures SendSlice(s, tenant, jobs, [job], Unreachable(ids, now), c).circuits
         == s.circuits[tenant := NextCircuit(s, tenant, now, c)]
  {
    var w := Unreachable(ids, now);
    assert [job][..0] == [];
    assert Deliverable([job], ids) == [job] && Cancelled([job], ids) == [];
    var a := SendKept(s, jobs, [job], w, c);
    SentKeepCircuits(s, jobs, [job], w, c);
    assert a.successes == 0 && a.error == Some(true);
  }

  /** One job a session; a failure opens the circuit for a second, at most for ten. */
  const Strict := Config(1, 1, 1_000, 10_000)

  function UnreachableGroup(jobs: seq<Job>, ids: set<string>, now: int): Group {
    Group("t", jobs, GroupWorld(now, true, false, _ => Unreachable(ids, now)))
  }

  lemma UnreachableJobFails(s: State, jobs: seq<Job>, at: nat, ids: set<string>, now: int)
    requires at < |jobs| && jobs[at].id in ids
    ensures SendSliceAt("t", jobs, UnreachableGroup(jobs, ids, now).world, Strict)(s, at).circuits
         == s.circuits["t" := NextCircuit(s, "t", now, Strict)]
  {
    assert SliceAt(jobs, at, 1) == [jobs[at]];
    UnreachableSliceFails(s, "t", jobs, jobs[at], ids, now, Strict);
  }

  /** Two slices of one group fail: the second finds the circuit the first opened, and doubles its length. */
  lemma SecondSliceDoubles(a: Job, b: Job)
    ensures var g := UnreachableGroup([a, b], {a.id, b.id}, 0);
      SendGroup(Start, "t", g.jobs, g.world, Strict).circuits == map["t" := Circuit(2, 2_000, 2_000)]
  {
    var jobs, ids := [a, b], {a.id, b.id};
    var send := SendSliceAt("t", jobs, UnreachableGroup(jobs, ids, 0).world, Strict);
    var first := send(Start, 0);
    var second := send(first, 1);
    UnreachableJobFails(Start, jobs, 0, ids, 0);
    assert first.circuits == map["t" := Circuit(1, 1_000, 1_000)];
    UnreachableJobFails(first, jobs, 1, ids, 0);
    assert second.circuits == map["t" := Circuit(2, 2_000, 2_000)];
    assert SendSlices(first, jobs, 1, 1, send) == SendSlices(second, jobs, 2, 1, send) == second;
  }

  lemma UnreachableGroupFails(s: State, job: Job, now: int)
    requires !CoolingDown(s, "t", now)
    ensures var g := UnreachableGroup([job], {job.id}, now);
      SendGroup(s, "t", g.jobs, g.world, Strict).circuits == s.circuits["t" := NextCircuit(s, "t", now, Strict)]
  {
    var g := UnreachableGroup([job], {job.id}, now);
    var send := SendSliceAt("t", [job], g.world, Strict);
    UnreachableJobFails(s, [job], 0, {job.id}, now);
    assert SendSlices(s, [job], 0, 1, send) == SendSlices(send(s, 0), [job], 1, 1, send) == send(s, 0);
  }

  lemma TwoGroups(g: Group, h: Group, c: Config)
    requires c.sessionMax >= 1
    ensures SendGroups([g, h], c)
         == SendGroup(SendGroup(Start, g.tenant, g.jobs, g.world, c), h.tenant, h.jobs, h.world, c)
  {
    assert [g, h][..1] == [g] && [g][..0] == [];
    assert SendGroups([g], c) == SendGroup(SendGroups([], c), g.tenant, g.jobs, g.world, c);
  }

  /** Two groups fail, the second after the cooldown has expired: the circuit opens again, no longer than before. */
  lemma ExpiredCooldownKeepsItsLength(a: Job, b: Job)
    ensures SendGroups([UnreachableGroup([a], {a.id}, 0), UnreachableGroup([b], {b.id}, 5_000)], Strict).circuits
         == map["t" := Circuit(2, 6_000, 1_000)]
  {
    var g, h := UnreachableGroup([a], {a.id}, 0), UnreachableGroup([b], {b.id}, 5_000);
    TwoGroups(g, h, Strict);
    UnreachableGroupFails(Start, a, 0);
    var first := SendGroup(Start, "t", g.jobs, g.world, Strict);
    assert first.circuits == map["t" := Circuit(1, 1_000, 1_000)];
    UnreachableGroupFails(first, b, 5_000);
  }
}
