/**
 * The in-process caches that ride on the bus: the permission cache of
 * src/middleware/authorize.ts and the tenant status cache of
 * src/middleware/tenant-context.ts.
 */
module BusCaches {
  import opened Common
  import B = BusModel
  import P = BusProofs

  const PERM_CACHE_TTL := 5 * 60_000
  const TENANT_CACHE_TTL := 60_000

  datatype Table = Permissions | Tenants

  /** A cached answer: `epoch` counts the health changes before its set, `query` names the query that gave it. */
  datatype Entry = Entry(value: bool, expires: nat, epoch: nat, query: nat)

  type Cache = map<string, Entry>

  /**
   * A query whose answer the database has given and the process has not yet seen; None
   * for a tenant that does not exist.
   */
  datatype Query = Query(table: Table, key: string, answer: Option<bool>, askedAt: nat)

  // ── The cache operations ──

  /** permCache keys start with the user's id and a colon. */
  function PermissionKey(userId: string, rest: string): string {
    userId + ":" + rest
  }

  /** forgetPermissions: everything, or the keys of one user. */
  function ForgetPermissions(cache: Cache, userId: string): Cache {
    if userId == "" then map[] else map key | key in cache && !(userId + ":" <= key) :: cache[key]
  }

  function ForgetTenant(cache: Cache, tenantId: string): Cache {
    if tenantId == "" then map[] else cache - {tenantId}
  }

  /** The cached answer that may still be used at `now`. */
  function Lookup(cache: Cache, key: string, now: nat): Option<bool> {
    if key in cache && cache[key].expires > now then Some(cache[key].value) else None
  }

  /** Forgetting a user forgets that user's keys and no other's: an id has no colon. */
  lemma ForgetsExactlyTheUser(cache: Cache, userId: string, otherId: string, rest: string)
    requires userId != "" && ':' !in userId && ':' !in otherId && PermissionKey(otherId, rest) in cache
    ensures PermissionKey(otherId, rest) in ForgetPermissions(cache, userId) <==> otherId != userId
  {
    var key := PermissionKey(otherId, rest);
    assert key == otherId + ([':'] + rest);
    if userId + ":" <= key {
      assert key[|userId|] == ':' && key[|otherId|] == ':';
      assert key[..|userId|] == userId && key[..|otherId|] == otherId;
      assert ':' !in key[..|userId|] && ':' !in key[..|otherId|];
      assert userId == key[..|userId|] == otherId;
    } else {
      assert otherId == userId ==> userId + ":" <= key;
    }
  }

  function NormalTtlMs(table: Table): nat {
    if table.Permissions? then PERM_CACHE_TTL else TENANT_CACHE_TTL
  }

  function Forget(table: Table, cache: Cache, id: string): Cache {
    if table.Permissions? then ForgetPermissions(cache, id) else ForgetTenant(cache, id)
  }

  /** What an invalidation of `id` is about; of everything when it is empty. */
  predicate Concerns(table: Table, id: string, key: string) {
    id == "" || if table.Permissions? then id + ":" <= key else key == id
  }

  /** The continuation of a query: a tenant that does not exist is dropped, anything else is cached. */
  function Store(cache: Cache, key: string, answer: Option<bool>, expires: nat, epoch: nat, query: nat): Cache {
    if answer.None? then cache - {key} else cache[key := Entry(answer.value, expires, epoch, query)]
  }

  // ── The caches and the bus together ──

  /** Queries are numbered in the order the database answers them; `running` ones have not come back yet. */
  datatype State = State(
    bus: B.State,
    now: nat,
    epoch: nat,
    permissions: Cache,
    tenants: Cache,
    asked: nat,
    running: map<nat, Query>)
  {
    function Cached(table: Table): Cache { if table.Permissions? then permissions else tenants }

    function TtlMs(table: Table): nat { bus.CacheTtlMs(NormalTtlMs(table)) }
  }

  datatype Event =
    | Tick(ms: nat)
    | BusEvent(event: B.Event)
    | Asked(table: Table, key: string, answer: Option<bool>)
    | Answered(query: nat)
    | QueryFailed(failed: nat)
    | Forgotten(about: Table, id: string)

  function Init(enabled: bool): State {
    State(B.Init(enabled), 0, 0, map[], map[], 0, map[])
  }

  predicate Enabled(s: State, e: Event) {
    match e
    case Tick(_) => true
    case BusEvent(event) => B.Enabled(s.bus, event)
    case Asked(table, _, answer) => table.Permissions? ==> answer.Some?
    case Answered(q) => q in s.running
    case QueryFailed(q) => q in s.running
    case Forgotten(_, _) => true
  }

  function With(s: State, table: Table, cache: Cache): State {
    if table.Permissions? then s.(permissions := cache) else s.(tenants := cache)
  }

  /** A bus step; both reset handlers clear their cache whenever the handlers run. */
  function BusStep(s: State, e: B.Event): State
    requires B.Enabled(s.bus, e)
  {
    var bus := B.Step(s.bus, e);
    var t := s.(bus := bus, epoch := if bus.healthy != s.bus.healthy then s.epoch + 1 else s.epoch);
    if bus.resets != s.bus.resets then t.(permissions := map[], tenants := map[]) else t
  }

  /** The answer comes back and is cached with the lifetime of that moment. */
  function AnswerStep(s: State, q: nat): State
    requires q in s.running
  {
    var query := s.running[q];
    var cache := Store(s.Cached(query.table), query.key, query.answer, s.now + s.TtlMs(query.table), s.epoch, q);
    With(s, query.table, cache).(running := s.running - {q})
  }

  function Step(s: State, e: Event): State
    requires Enabled(s, e)
  {
    match e
    case Tick(ms) => s.(now := s.now + ms)
    case BusEvent(event) => BusStep(s, event)
    case Asked(table, key, answer) =>
      s.(asked := s.asked + 1, running := s.running[s.asked := Query(table, key, answer, s.now)])
    case Answered(q) => AnswerStep(s, q)
    case QueryFailed(q) => s.(running := s.running - {q})
    case Forgotten(table, id) => With(s, table, Forget(table, s.Cached(table), id))
  }

  function Run(s: State, events: seq<Event>): State
    decreases |events|
  {
    if events == [] then s else Run(if Enabled(s, events[0]) then Step(s, events[0]) else s, events[1..])
  }

  /** A bus that was started and then stopped; it stays so. */
  predicate Ended(s: State) { s.bus.started && s.bus.stopped }

  ghost predicate CacheSound(s: State, table: Table) {
    forall key :: key in s.Cached(table) ==>
      && s.Cached(table)[key].epoch == s.epoch
      && s.Cached(table)[key].expires <= s.now + s.TtlMs(table)
  }

  ghost predicate QueriesSound(s: State) {
    && (forall q :: q in s.running ==>
          && q < s.asked && s.running[q].askedAt <= s.now
          && (s.running[q].table.Permissions? ==> s.running[q].answer.Some?))
    && (forall table, key :: key in s.Cached(table) ==> s.Cached(table)[key].query < s.asked)
  }

  ghost predicate Inv(s: State) {
    && P.Inv(s.bus) && QueriesSound(s)
    && (!Ended(s) ==> CacheSound(s, Permissions) && CacheSound(s, Tenants))
  }

  /** An entry is there as before, or was cached by the answer that came back. */
  lemma KeptOrCached(s: State, e: Event, table: Table, key: string)
    requires Enabled(s, e) && key in Step(s, e).Cached(table)
    ensures var entry := Step(s, e).Cached(table)[key];
      || (key in s.Cached(table) && entry == s.Cached(table)[key])
      || (e.Answered? && s.running[e.query].table == table && s.running[e.query].key == key
          && s.running[e.query].answer.Some?
          && entry == Entry(s.running[e.query].answer.value, s.now + s.TtlMs(table), s.epoch, e.query))
  {
  }

  /** A change of health clears the caches; without one a bus step changes nothing for them. */
  lemma BusStepKeepsCaches(s: State, e: B.Event, table: Table)
    requires Inv(s) && B.Enabled(s.bus, e)
    ensures var t := BusStep(s, e); !Ended(t) ==> CacheSound(t, table)
  {
    P.ResetsFollowHealth(s.bus, e);
    P.FlagsMove(s.bus, e);
    var t := BusStep(s, e);
    if !Ended(t) {
      assert CacheSound(s, table);
      forall key | key in t.Cached(table)
        ensures t.Cached(table)[key].epoch == t.epoch && t.Cached(table)[key].expires <= t.now + t.TtlMs(table)
      {
        KeptOrCached(s, BusEvent(e), table, key);
      }
    }
  }

  lemma StepKeepsCaches(s: State, e: Event, table: Table)
    requires Inv(s) && Enabled(s, e) && !e.BusEvent?
    ensures var t := Step(s, e); !Ended(t) ==> CacheSound(t, table)
  {
    var t := Step(s, e);
    if !Ended(t) {
      assert CacheSound(s, table);
      forall key | key in t.Cached(table)
        ensures t.Cached(table)[key].epoch == t.epoch && t.Cached(table)[key].expires <= t.now + t.TtlMs(table)
      {
        KeptOrCached(s, e, table, key);
      }
    }
  }

  lemma StepKeepsQueries(s: State, e: Event)
    requires QueriesSound(s) && Enabled(s, e)
    ensures QueriesSound(Step(s, e))
  {
    var t := Step(s, e);
    forall table, key | key in t.Cached(table)
      ensures t.Cached(table)[key].query < t.asked
    {
      KeptOrCached(s, e, table, key);
    }
  }

  lemma StepKeepsInv(s: State, e: Event)
    requires Inv(s) && Enabled(s, e)
    ensures Inv(Step(s, e))
  {
    StepKeepsQueries(s, e);
    if e.BusEvent? {
      P.StepKeepsInv(s.bus, e.event);
      BusStepKeepsCaches(s, e.event, Permissions);
      BusStepKeepsCaches(s, e.event, Tenants);
    } else {
      StepKeepsCaches(s, e, Permissions);
      StepKeepsCaches(s, e, Tenants);
    }
  }

  lemma {:induction false} RunKeepsInv(s: State, events: seq<Event>)
    requires Inv(s)
    ensures Inv(Run(s, events))
    decreases |events|
  {
    if events != [] {
      if Enabled(s, events[0]) { StepKeepsInv(s, events[0]); }
      RunKeepsInv(if Enabled(s, events[0]) then Step(s, events[0]) else s, events[1..]);
    }
  }

  // ── Lifetimes ──

  /**
   * Until the bus is stopped, over any queries, invalidations, losses and
   * recoveries: while it is unhealthy every cached permission and tenant
   * status has at most 5 s left, and at all times every cached entry was set
   * since the last change of health.
   */
  lemma DegradedCachesAreShortLived(enabled: bool, events: seq<Event>, table: Table)
    ensures var s := Run(Init(enabled), events);
      !Ended(s) ==>
        forall key :: key in s.Cached(table) ==>
          && s.Cached(table)[key].epoch == s.epoch
          && s.Cached(table)[key].expires <= s.now + (if s.bus.IsHealthy() then NormalTtlMs(table) else 5_000)
  {
    RunKeepsInv(Init(enabled), events);
    assert CacheSound(Run(Init(enabled), events), table) || Ended(Run(Init(enabled), events));
  }

  /** Every entry of both caches expires within 5 s. */
  ghost predicate AllShort(s: State) {
    forall table, key :: key in s.Cached(table) ==> s.Cached(table)[key].expires <= s.now + 5_000
  }

  /** A stopped bus whose caches are short-lived. */
  ghost predicate EndedShort(s: State) {
    Inv(s) && Ended(s) && !s.bus.IsHealthy() && AllShort(s)
  }

  lemma StepKeepsEndedShort(s: State, e: Event)
    requires EndedShort(s) && Enabled(s, e)
    ensures EndedShort(Step(s, e))
  {
    StepKeepsInv(s, e);
    if e.BusEvent? { P.FlagsMove(s.bus, e.event); }
    var t := Step(s, e);
    forall table, key | key in t.Cached(table) ensures t.Cached(table)[key].expires <= t.now + 5_000 {
      KeptOrCached(s, e, table, key);
    }
  }

  lemma {:induction false} RunKeepsEndedShort(s: State, events: seq<Event>)
    requires EndedShort(s)
    ensures EndedShort(Run(s, events))
    decreases |events|
  {
    if events != [] {
      if Enabled(s, events[0]) { StepKeepsEndedShort(s, events[0]); }
      RunKeepsEndedShort(if Enabled(s, events[0]) then Step(s, events[0]) else s, events[1..]);
    }
  }

  lemma StopKeepsCaches(s: State)
    requires Inv(s) && s.bus.started && !s.bus.stopped
    ensures var t := Step(s, BusEvent(B.StopCalled));
      Inv(t) && Ended(t) && !t.bus.IsHealthy() && (AllShort(t) <==> AllShort(s))
  {
    var t := Step(s, BusEvent(B.StopCalled));
    StepKeepsInv(s, BusEvent(B.StopCalled));
    P.ResetsFollowHealth(s.bus, B.StopCalled);
    P.FlagsMove(s.bus, B.StopCalled);
    assert forall table :: t.Cached(table) == s.Cached(table);
    assert t.now == s.now;
  }

  /** After the events the bus is unhealthy, and every cached answer as short-lived as that demands. */
  ghost predicate DegradedAfter(s: State, events: seq<Event>) {
    var t := Run(s, events);
    !t.bus.IsHealthy() && AllShort(t)
  }

  /**
   * stop() drops nothing, so the bound survives it exactly when it held at the
   * call: from then on the bus is unhealthy and no entry lives longer than 5 s,
   * whatever happens, if and only if every entry was that short-lived.
   */
  lemma StopKeepsLifetimes(before: seq<Event>)
    requires var s := Run(Init(true), before); s.bus.started && !s.bus.stopped
    ensures var s := Run(Init(true), before);
      var t := Step(s, BusEvent(B.StopCalled));
      (forall later: seq<Event> :: DegradedAfter(t, later)) <==> AllShort(s)
  {
    var s := Run(Init(true), before);
    RunKeepsInv(Init(true), before);
    StopKeepsCaches(s);
    DegradedFromNowOn(Step(s, BusEvent(B.StopCalled)));
  }

  lemma DegradedFromNowOn(s: State)
    requires Inv(s) && Ended(s) && !s.bus.IsHealthy()
    ensures (forall later: seq<Event> :: DegradedAfter(s, later)) <==> AllShort(s)
  {
    if AllShort(s) {
      forall later: seq<Event> ensures DegradedAfter(s, later) { RunKeepsEndedShort(s, later); }
    }
    if forall later: seq<Event> :: DegradedAfter(s, later) { assert DegradedAfter(s, []); }
  }

  /** A permission cached just before stop() by a healthy bus keeps its five minutes. */
  lemma StopKeepsFullLifetimes(s: State, q: nat)
    requires Inv(s) && s.bus.connection.Some? && q in s.running && s.running[q].table.Permissions?
    ensures var t := Step(Step(s, Answered(q)), BusEvent(B.StopCalled));
      var key := s.running[q].key;
      Ended(t) && !t.bus.IsHealthy() && key in t.permissions && t.permissions[key].expires == t.now + PERM_CACHE_TTL
  {
  }

  // ── Answers older than an invalidation ──

  /** The cached answer comes from one of the first `asked` queries. */
  predicate IsOld(s: State, table: Table, key: string, asked: nat) {
    key in s.Cached(table) && s.Cached(table)[key].query < asked
  }

  /** One of the first `asked` queries for the key is still running, with something to cache. */
  predicate StillRuns(s: State, table: Table, key: string, asked: nat) {
    exists q :: q in s.running && q < asked && s.running[q].table == table && s.running[q].key == key
                && s.running[q].answer.Some?
  }

  lemma StepKeepsNew(s: State, e: Event, table: Table, key: string, asked: nat)
    requires Enabled(s, e) && asked <= s.asked
    requires !IsOld(s, table, key, asked) && !StillRuns(s, table, key, asked)
    ensures var t := Step(s, e); asked <= t.asked && !IsOld(t, table, key, asked) && !StillRuns(t, table, key, asked)
  {
    var t := Step(s, e);
    forall q | q in t.running && q < asked ensures q in s.running && t.running[q] == s.running[q] {}
  }

  lemma {:induction false} RunKeepsNew(s: State, events: seq<Event>, table: Table, key: string, asked: nat)
    requires asked <= s.asked && !IsOld(s, table, key, asked) && !StillRuns(s, table, key, asked)
    ensures !IsOld(Run(s, events), table, key, asked)
    decreases |events|
  {
    if events != [] {
      if Enabled(s, events[0]) { StepKeepsNew(s, events[0], table, key, asked); }
      RunKeepsNew(if Enabled(s, events[0]) then Step(s, events[0]) else s, events[1..], table, key, asked);
    }
  }

  /** After the events an answer is cached that the database gave before them. */
  predicate OldAfter(s: State, events: seq<Event>, table: Table, key: string) {
    IsOld(Run(s, events), table, key, s.asked)
  }

  /** Running the reset handlers forgets everything, and no query. */
  lemma ResetForgetsAll(s: State, e: B.Event, table: Table)
    requires B.Enabled(s.bus, e) && B.Step(s.bus, e).resets != s.bus.resets
    ensures var t := BusStep(s, e); t.Cached(table) == map[] && t.running == s.running && t.asked == s.asked
  {
  }

  /** An invalidation forgets exactly what it concerns, and no query. */
  lemma ForgetsTheConcerned(s: State, table: Table, id: string, key: string)
    ensures var t := Step(s, Forgotten(table, id));
      && (key in t.Cached(table) <==> key in s.Cached(table) && !Concerns(table, id, key))
      && t.running == s.running && t.asked == s.asked
  {
  }

  lemma RunOne(s: State, e: Event)
    requires Enabled(s, e)
    ensures Run(s, [e]) == Step(s, e)
  {
    assert Run(Step(s, e), [e][1..]) == Step(s, e);
  }

  /**
   * Once a key is forgotten, by an invalidation or a reset, an answer from
   * before can be cached again exactly when a query for it is still on its way.
   */
  lemma OldAnswersComeFromRunningQueries(s: State, table: Table, key: string)
    requires Inv(s) && key !in s.Cached(table)
    ensures (exists later: seq<Event> :: OldAfter(s, later, table, key)) <==> StillRuns(s, table, key, s.asked)
  {
    if StillRuns(s, table, key, s.asked) {
      var q :| q in s.running && q < s.asked && s.running[q].table == table && s.running[q].key == key
               && s.running[q].answer.Some?;
      RunOne(s, Answered(q));
      assert OldAfter(s, [Answered(q)], table, key);
    } else {
      forall later: seq<Event> ensures !OldAfter(s, later, table, key) { RunKeepsNew(s, later, table, key, s.asked); }
    }
  }

  /** No query takes longer than `d` until its answer is back. */
  predicate OnTime(s: State, events: seq<Event>, d: nat)
    decreases |events|
  {
    (forall q :: q in s.running ==> s.now <= s.running[q].askedAt + d) &&
    (events == [] || OnTime(if Enabled(s, events[0]) then Step(s, events[0]) else s, events[1..], d))
  }

  /**
   * Old queries were asked by `at`, and so an old answer for the key expires within `d`
   * and the full lifetime from then.
   */
  ghost predicate OldExpires(s: State, table: Table, key: string, asked: nat, at: nat, d: nat) {
    && asked <= s.asked
    && (forall q :: q in s.running && q < asked ==> s.running[q].askedAt <= at)
    && (IsOld(s, table, key, asked) ==> s.Cached(table)[key].expires <= at + d + NormalTtlMs(table))
  }

  lemma StepKeepsOldExpires(s: State, e: Event, table: Table, key: string, asked: nat, at: nat, d: nat)
    requires Enabled(s, e) && OldExpires(s, table, key, asked, at, d)
    requires forall q :: q in s.running ==> s.now <= s.running[q].askedAt + d
    ensures OldExpires(Step(s, e), table, key, asked, at, d)
  {
    if e.Answered? { assert s.TtlMs(s.running[e.query].table) <= NormalTtlMs(s.running[e.query].table); }
  }

  lemma {:induction false} RunKeepsOldExpires(s: State, events: seq<Event>, table: Table, key: string, asked: nat,
                                              at: nat, d: nat)
    requires OldExpires(s, table, key, asked, at, d) && OnTime(s, events, d)
    ensures OldExpires(Run(s, events), table, key, asked, at, d)
    decreases |events|
  {
    if events != [] {
      if Enabled(s, events[0]) { StepKeepsOldExpires(s, events[0], table, key, asked, at, d); }
      var t := if Enabled(s, events[0]) then Step(s, events[0]) else s;
      RunKeepsOldExpires(t, events[1..], table, key, asked, at, d);
    }
  }

  /**
   * With queries that take at most `d`, an answer from before a key was
   * forgotten is out of use `d` and the normal lifetime later: five minutes and
   * `d` for a permission.
   */
  lemma OldAnswersExpire(s: State, table: Table, key: string, later: seq<Event>, d: nat)
    requires Inv(s) && key !in s.Cached(table) && OnTime(s, later, d)
    ensures var u := Run(s, later);
      OldAfter(s, later, table, key) ==> u.Cached(table)[key].expires <= s.now + d + NormalTtlMs(table)
  {
    RunKeepsOldExpires(s, later, table, key, s.asked, s.now, d);
  }

  /** That bound is met, by a query that takes `d` on a healthy bus. */
  lemma SlowAnswerLivesThatLong(s: State, table: Table, q: nat, d: nat)
    requires Inv(s) && s.bus.IsHealthy() && q in s.running && s.running[q].table == table && s.running[q].answer.Some?
    requires s.running[q].key !in s.Cached(table)
    ensures var key := s.running[q].key;
      var later := [Tick(d), Answered(q)];
      OldAfter(s, later, table, key) && Run(s, later).Cached(table)[key].expires == s.now + d + NormalTtlMs(table)
  {
    var t := Step(s, Tick(d));
    assert [Tick(d), Answered(q)][1..] == [Answered(q)];
    assert Run(s, [Tick(d), Answered(q)]) == Run(t, [Answered(q)]);
    RunOne(t, Answered(q));
  }
}
