/** What one AI credit month conserves (src/modules/ai-credits/ai-credit.repository.ts). */
module CreditMonth {
  import opened Common
  import opened CreditModel

  // ── What the holds add up to ──

  function Held(h: Hold): nat { if h.status.Open? then h.amount else 0 }

  function Cost(h: Hold): nat { match h.status case Settled(actual) => actual case _ => 0 }

  /** What a hold takes from the budget: nothing when it was allowed to overdraw it. */
  function Charged(h: Hold): nat { if h.overdraft then 0 else Held(h) + Cost(h) }

  /** What a settlement took beyond its hold. */
  function Overrun(h: Hold): nat {
    if !h.overdraft && h.status.Settled? && h.status.actual > h.amount then h.status.actual - h.amount else 0
  }

  function Overdrawn(h: Hold): nat { if h.overdraft then Held(h) + Cost(h) else 0 }

  function Sum(holds: seq<Hold>, f: Hold -> nat): nat {
    if holds == [] then 0 else Sum(holds[..|holds| - 1], f) + f(holds[|holds| - 1])
  }

  lemma {:induction false} SumUpdate(holds: seq<Hold>, f: Hold -> nat, i: nat, h: Hold)
    requires i < |holds|
    ensures Sum(holds[i := h], f) == Sum(holds, f) - f(holds[i]) + f(h)
  {
    var n := |holds| - 1;
    if i < n {
      assert holds[i := h][..n] == holds[..n][i := h];
      SumUpdate(holds[..n], f, i, h);
    } else {
      assert holds[i := h][..n] == holds[..n];
    }
  }

  lemma SumAppend(holds: seq<Hold>, f: Hold -> nat, h: Hold)
    ensures Sum(holds + [h], f) == Sum(holds, f) + f(h)
  {
    assert (holds + [h])[..|holds|] == holds;
  }

  lemma {:induction false} SumSplits(holds: seq<Hold>)
    ensures Sum(holds, Held) + Sum(holds, Cost) == Sum(holds, Charged) + Sum(holds, Overdrawn)
  {
    if holds != [] { SumSplits(holds[..|holds| - 1]); }
  }

  lemma {:induction false} OneOfMany(holds: seq<Hold>, f: Hold -> nat, i: nat)
    requires i < |holds|
    ensures f(holds[i]) <= Sum(holds, f)
  {
    if i < |holds| - 1 { OneOfMany(holds[..|holds| - 1], f, i); }
  }

  // ── The invariant ──

  ghost predicate Conserved(s: State) {
    match s.row
    case None => s.holds == []
    case Some(r) => r.reserved == Sum(s.holds, Held) && r.used == Sum(s.holds, Cost)
  }

  ghost predicate BudgetKnown(s: State) {
    s.row.Some? && s.high.Some? ==> s.row.value.budget.Some? && s.row.value.budget.value <= s.high.value
  }

  /** Holds that may not overdraw stay within the highest budget, but for what settlements took beyond their hold. */
  ghost predicate WithinBudget(s: State) {
    s.high.Some? ==> s.high.value >= 0 && Sum(s.holds, Charged) <= s.high.value + Sum(s.holds, Overrun)
  }

  ghost predicate Inv(s: State) {
    Conserved(s) && BudgetKnown(s) && WithinBudget(s)
  }

  lemma CloseKeepsInv(s: State, i: nat, h: Hold)
    requires Inv(s) && i < |s.holds| && s.holds[i].status.Open?
    requires !h.status.Open? && h.amount == s.holds[i].amount && h.overdraft == s.holds[i].overdraft
    ensures s.row.Some? && s.row.value.reserved >= h.amount
    ensures var holds := s.holds[i := h];
      && Sum(holds, Held) == Sum(s.holds, Held) - h.amount
      && Sum(holds, Cost) == Sum(s.holds, Cost) + Cost(h)
      && WithinBudget(s.(holds := holds))
  {
    OneOfMany(s.holds, Held, i);
    SumUpdate(s.holds, Held, i, h);
    SumUpdate(s.holds, Cost, i, h);
    SumUpdate(s.holds, Charged, i, h);
    SumUpdate(s.holds, Overrun, i, h);
  }

  lemma HoldAdds(s: State, h: Hold)
    requires h.status.Open?
    ensures var holds := s.holds + [h];
      && Sum(holds, Held) == Sum(s.holds, Held) + h.amount
      && Sum(holds, Cost) == Sum(s.holds, Cost)
      && Sum(holds, Charged) == Sum(s.holds, Charged) + (if h.overdraft then 0 else h.amount)
      && Sum(holds, Overrun) == Sum(s.holds, Overrun)
  {
    SumAppend(s.holds, Held, h);
    SumAppend(s.holds, Cost, h);
    SumAppend(s.holds, Charged, h);
    SumAppend(s.holds, Overrun, h);
  }

  /** What the budget covers leaves the charged holds within it. */
  lemma CoveredIsWithin(s: State, r: Row, h: Hold)
    requires Inv(s) && s.row == Some(r) && Covered(r, h.amount, h.overdraft)
    ensures s.high.Some? && !h.overdraft ==> Sum(s.holds, Charged) + h.amount <= s.high.value
  {
    SumSplits(s.holds);
  }

  lemma TakeKeepsInv(s: State, r: Row, h: Hold)
    requires Inv(s) && s.row == Some(r) && Covered(r, h.amount, h.overdraft) && h.status.Open?
    ensures var row := r.(reserved := r.reserved + h.amount, revision := r.revision + 1);
      Inv(s.(row := Some(row), holds := s.holds + [h]))
  {
    HoldAdds(s, h);
    CoveredIsWithin(s, r, h);
  }

  lemma ReserveKeepsInv(s: State, cost: nat, overdraft: bool)
    requires Inv(s)
    ensures Inv(Step(s, Reserve(cost, overdraft)))
  {
    if s.row.Some? && Covered(s.row.value, cost, overdraft) {
      TakeKeepsInv(s, s.row.value, Hold(cost, overdraft, Open));
    } else {
      assert Step(s, Reserve(cost, overdraft)) == s;
    }
  }

  lemma StepKeepsInv(s: State, e: Event)
    requires Inv(s) && Enabled(s, e)
    ensures Inv(Step(s, e))
  {
    match e
    case Reserve(cost, overdraft) => ReserveKeepsInv(s, cost, overdraft);
    case Settle(i, actual) => CloseKeepsInv(s, i, s.holds[i].(status := Settled(actual)));
    case Release(i) => CloseKeepsInv(s, i, s.holds[i].(status := Released));
    case _ =>
  }

  lemma {:induction false} RunKeepsInv(events: seq<Event>)
    ensures Inv(Run(Start, events))
  {
    if events != [] {
      RunKeepsInv(events[..|events| - 1]);
      var before, e := Run(Start, events[..|events| - 1]), events[|events| - 1];
      if Enabled(before, e) { StepKeepsInv(before, e); }
    }
  }

  // ── What the month promises ──

  /**
   * Over every interleaving of reserve, settle and release: the row's reserved
   * USD are the open holds and its used USD the settled costs, exactly; and used
   * plus reserved stays within the highest budget the row had, apart from what
   * overdraft holds took and settlements took beyond their hold.
   */
  lemma MonthIsConserved(events: seq<Event>)
    ensures var s := Run(Start, events);
      s.row.Some? ==>
        && s.row.value.reserved == Sum(s.holds, Held)
        && s.row.value.used == Sum(s.holds, Cost)
        && (s.high.Some? ==>
              s.row.value.used + s.row.value.reserved
              <= s.high.value + Sum(s.holds, Overdrawn) + Sum(s.holds, Overrun))
  {
    RunKeepsInv(events);
    SumSplits(Run(Start, events).holds);
  }

  /** The row's budget never changes: then `high` is that budget, so the bound is about it. */
  ghost predicate FixedBudget(events: seq<Event>, budget: nat) {
    forall e :: e in events ==> !e.Recompute? && (e.Ensure? && e.plan.Plan? ==> e.plan.budget == Some(budget as int))
  }

  lemma {:induction false} FixedBudgetIsHigh(events: seq<Event>, budget: nat)
    requires FixedBudget(events, budget)
    ensures var s := Run(Start, events);
      && s.high.Some? && 0 <= s.high.value <= budget
      && (s.row.Some? ==> s.row.value.budget == Some(budget as int))
  {
    if events != [] { FixedBudgetIsHigh(events[..|events| - 1], budget); }
  }

  /** With a fixed budget, no overdrafts and no overruns, the month never exceeds its budget. */
  lemma NeverOverFixedBudget(events: seq<Event>, budget: nat)
    requires FixedBudget(events, budget)
    ensures var s := Run(Start, events);
      s.row.Some? ==>
        s.row.value.used + s.row.value.reserved
        <= budget + Sum(s.holds, Overdrawn) + Sum(s.holds, Overrun)
  {
    MonthIsConserved(events);
    FixedBudgetIsHigh(events, budget);
  }

  /** The GREATEST(0, ...) never bites: closing a hold takes back exactly what it held. */
  lemma ClampNeverBites(events: seq<Event>, i: nat, actual: nat)
    requires var s := Run(Start, events); i < |s.holds| && s.holds[i].status.Open?
    ensures var s := Run(Start, events);
      && s.row.Some?
      && SettleRow(s.row, s.holds[i].amount, actual).value.reserved == s.row.value.reserved - s.holds[i].amount
      && ReleaseRow(s.row, s.holds[i].amount).value.reserved == s.row.value.reserved - s.holds[i].amount
  {
    RunKeepsInv(events);
    var s := Run(Start, events);
    OneOfMany(s.holds, Held, i);
  }

  /**
   * A reservation that may not overdraw succeeds exactly when the month exists
   * and nothing is enforced or its free budget covers the cost; it is then still
   * within budget. 'missing' means there is no row, and changes nothing.
   */
  lemma ReserveWithinBudget(events: seq<Event>, cost: nat)
    ensures var s := Run(Start, events);
      var (row, result) := ReserveRow(s.row, cost, false);
      && (result.Missing? <==> s.row.None?)
      && (!result.Reserved? ==> row == s.row)
      && (result.Reserved? && row.value.budget.Some? ==>
            Sum(s.holds, Held) + Sum(s.holds, Cost) + cost <= row.value.budget.value)
      && (result.Insufficient? ==>
            s.row.value.budget.Some? && s.row.value.budget.value < Sum(s.holds, Held) + Sum(s.holds, Cost) + cost)
  {
    RunKeepsInv(events);
  }

  /**
   * A missing month is created by ensuring it exactly when the process does not
   * think it ensured already and the tenant's plan row exists; forgetting first
   * leaves only the plan row as a condition.
   */
  lemma MissingIsCured(events: seq<Event>, plan: Plan)
    requires Run(Start, events).row.None?
    ensures Run(Start, events + [Ensure(plan)]).row.Some? <==> !Run(Start, events).ensured && plan.Plan?
    ensures Run(Start, events + [Forget, Ensure(plan)]).row
         == if plan.Plan? then Some(Row(plan.budget, 0, 0, 0)) else None
  {
    RunLast(events, Ensure(plan));
    RunLast(events, Forget);
    RunLast(events + [Forget], Ensure(plan));
    assert events + [Forget] + [Ensure(plan)] == events + [Forget, Ensure(plan)];
  }

  /**
   * Closing one hold twice is what the clamp hides: two holds of 5 and 3, the first
   * released twice, leave nothing reserved while 3 are still held.
   */
  lemma ClosingTwiceLosesAHold() returns (events: seq<Event>, s: State)
    ensures s == Run(Start, events)
    ensures s.holds == [Hold(5, false, Released), Hold(3, false, Open)]
    ensures s.row == Some(Row(Some(10), 0, 3, 3)) && ReleaseRow(s.row, 5) == Some(Row(Some(10), 0, 0, 4))
  {
    events, s := [Ensure(Plan(Some(10)))], State(Some(Row(Some(10), 0, 0, 0)), true, [], Some(10));
    RunLast([], Ensure(Plan(Some(10))));
    assert Run(Start, events) == s;
    RunLast(events, Reserve(5, false));
    events, s := events + [Reserve(5, false)], Step(s, Reserve(5, false));
    RunLast(events, Reserve(3, false));
    events, s := events + [Reserve(3, false)], Step(s, Reserve(3, false));
    RunLast(events, Release(0));
    events, s := events + [Release(0)], Step(s, Release(0));
  }

  lemma RunLast(events: seq<Event>, e: Event)
    ensures var s := Run(Start, events);
      Run(Start, events + [e]) == if Enabled(s, e) then Step(s, e) else s
  {
    assert (events + [e])[..|events|] == events;
  }
}
