/**
 * What every statement on an AI credit month does, in any state a month reaches
 * (src/modules/ai-credits/ai-credit.repository.ts).
 */
module CreditOutcomes {
  import opened Common
  import opened CreditModel
  import opened CreditMonth

  /** What the settled costs and the open holds leave of a budget. */
  function Free(s: State, budget: int): int {
    budget - Sum(s.holds, Cost) - Sum(s.holds, Held)
  }

  /**
   * A reservation is 'missing' exactly when the month has no row, overdraft or not. It
   * succeeds exactly when there is a row and it may overdraw, nothing is enforced, or the free
   * budget covers the cost; so one that may overdraw always succeeds on a row. Success opens
   * one hold of the cost, marked as asked, adds exactly that to the reserved USD, and leaves budget and
   * used USD alone; anything else changes nothing.
   */
  lemma ReservationOutcome(events: seq<Event>, cost: nat, overdraft: bool)
    ensures var s := Run(Start, events);
      var t, result := Step(s, Reserve(cost, overdraft)), ReserveRow(s.row, cost, overdraft).1;
      && (result.Missing? <==> s.row.None?)
      && (result.Reserved? <==>
            && s.row.Some?
            && (overdraft || s.row.value.budget.None? || cost <= Free(s, s.row.value.budget.value)))
      && (if result.Reserved?
          then t == s.(row := Some(Row(s.row.value.budget, s.row.value.used, s.row.value.reserved + cost,
                                       s.row.value.revision + 1)),
                       holds := s.holds + [Hold(cost, overdraft, Open)])
          else t == s)
  {
    RunKeepsInv(events);
  }

  /** Settling a hold takes back exactly what it held and adds the real cost, whatever that is, to the used USD. */
  lemma SettlementOutcome(events: seq<Event>, i: nat, actual: nat)
    requires var s := Run(Start, events); i < |s.holds| && s.holds[i].status.Open?
    ensures var s := Run(Start, events);
      && s.row.Some?
      && var r, hold := s.row.value, s.holds[i];
         Step(s, Settle(i, actual))
           == s.(row := Some(Row(r.budget, r.used + actual, r.reserved - hold.amount, r.revision + 1)),
                 holds := s.holds[i := Hold(hold.amount, hold.overdraft, Settled(actual))])
  {
    ClampNeverBites(events, i, actual);
  }

  /** Releasing it only takes back what it held; a hold of nothing does not touch the row. */
  lemma ReleaseOutcome(events: seq<Event>, i: nat)
    requires var s := Run(Start, events); i < |s.holds| && s.holds[i].status.Open?
    ensures var s := Run(Start, events);
      && s.row.Some?
      && var r, hold := s.row.value, s.holds[i];
         var revision := if hold.amount > 0 then r.revision + 1 else r.revision;
         Step(s, Release(i)) == s.(row := Some(Row(r.budget, r.used, r.reserved - hold.amount, revision)),
                                   holds := s.holds[i := Hold(hold.amount, hold.overdraft, Released)])
  {
    ClampNeverBites(events, i, 0);
  }

  /** A recomputed month has the plan's budget and all its usage; without a plan row it stays as it is. */
  lemma RecomputeKeepsUsage(events: seq<Event>, plan: Plan)
    ensures var s := Run(Start, events);
      var t := Step(s, Recompute(plan));
      && (t.row.Some? <==> s.row.Some?) && t.holds == s.holds
      && (t.row.Some? ==>
            && t.row.value.used == Sum(s.holds, Cost) && t.row.value.reserved == Sum(s.holds, Held)
            && t.row.value.budget == if plan.Plan? then plan.budget else s.row.value.budget)
  {
    RunKeepsInv(events);
  }

  /**
   * A month whose creation rolled back is missing to every reservation, and stays so for as long as the
   * process remembers having ensured it.
   */
  lemma RolledBackMonthIsMissing(events: seq<Event>, cost: nat, overdraft: bool, plan: Plan)
    requires Run(Start, events).holds == []
    ensures var s := Run(Start, events);
      var t := Step(s, CreationRolledBack);
      && ReserveRow(t.row, cost, overdraft) == (None, Missing)
      && (s.ensured ==> Step(t, Ensure(plan)) == t)
      && Step(Step(t, Forget), Ensure(plan)).row == Ensured(None, plan)
  {
  }

  // ── The row against the statements that ran ──

  /** The costs of the settlements. */
  function SettledUsd(events: seq<Event>): nat {
    if |events| == 0 then 0
    else
      var front, e := events[..|events| - 1], events[|events| - 1];
      SettledUsd(front) + if e.Settle? && Enabled(Run(Start, front), e) then e.actual else 0
  }

  /** The reservation was answered with 'reserved'. */
  predicate Succeeds(s: State, e: Event) {
    e.Reserve? && ReserveRow(s.row, e.cost, e.overdraft).1.Reserved?
  }

  predicate Closes(s: State, e: Event) { (e.Settle? || e.Release?) && Enabled(s, e) }

  /** What an event adds to the reserved USD. */
  function HeldBy(s: State, e: Event): int {
    if Succeeds(s, e) then e.cost else if Closes(s, e) then -(s.holds[e.hold].amount as int) else 0
  }

  /** The costs of the reservations that succeeded, less those of the holds closed again. */
  function HeldUsd(events: seq<Event>): int {
    if |events| == 0 then 0
    else
      var front, e := events[..|events| - 1], events[|events| - 1];
      HeldUsd(front) + HeldBy(Run(Start, front), e)
  }

  ghost predicate Accounted(s: State, settled: nat, held: int) {
    if s.row.Some? then s.row.value.used == settled && s.row.value.reserved == held
    else settled == 0 && held == 0
  }

  lemma StepAccounts(events: seq<Event>, e: Event, settled: nat, held: int)
    requires var s := Run(Start, events);
      Enabled(s, e) && Accounted(s, settled, held) && (s.holds == [] ==> settled == 0 && held == 0)
    ensures var s := Run(Start, events);
      Accounted(Step(s, e), settled + (if e.Settle? then e.actual else 0), held + HeldBy(s, e))
  {
    RunKeepsInv(events);
    match e
    case Settle(i, actual) => SettlementOutcome(events, i, actual);
    case Release(i) => ReleaseOutcome(events, i);
    case _ =>
  }

  /** Once a reservation succeeded there is a hold, and a closed one stays listed. */
  lemma {:induction false} NoHoldsNothingUsed(events: seq<Event>)
    ensures Run(Start, events).holds == [] ==> SettledUsd(events) == 0 && HeldUsd(events) == 0
  {
    if |events| > 0 { NoHoldsNothingUsed(events[..|events| - 1]); }
  }

  /**
   * The row tells what happened to the month: the used USD are the costs of all
   * settlements, and the reserved USD those of all reservations that succeeded less
   * those of the holds settled or released since.
   */
  lemma {:induction false} RowTellsWhatHappened(events: seq<Event>)
    ensures Accounted(Run(Start, events), SettledUsd(events), HeldUsd(events))
  {
    if |events| > 0 {
      var front, e := events[..|events| - 1], events[|events| - 1];
      RowTellsWhatHappened(front);
      NoHoldsNothingUsed(front);
      if Enabled(Run(Start, front), e) { StepAccounts(front, e, SettledUsd(front), HeldUsd(front)); }
    }
  }
}
