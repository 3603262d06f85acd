/**
 * One AI credit month of one tenant: its row, the holds taken on it and how they
 * end (reserveCreditUsd, settleCreditUsd, releaseCreditUsd and the `ensured` memory
 * of src/modules/ai-credits/ai-credit.repository.ts). Each statement is one
 * atomic update of the row. USD are whole micro-USD.
 */
module CreditModel {
  import opened Common

  /** `budget` is None when nothing is enforced. */
  datatype Row = Row(budget: Option<int>, used: int, reserved: int, revision: nat)

  datatype Reservation = Reserved | Insufficient | Missing

  // ── The statements ──

  /** The plan the SELECT finds for the tenant, with the budget it gives the month, or no plan row at all. */
  datatype Plan = NoPlan | Plan(budget: Option<int>)

  /** INSERT ... SELECT ... ON CONFLICT DO NOTHING: without a plan row nothing is inserted. */
  function Ensured(row: Option<Row>, plan: Plan): Option<Row> {
    if row.Some? || plan.NoPlan? then row else Some(Row(plan.budget, 0, 0, 0))
  }

  /** UPDATE ... FROM: without a plan row nothing is updated. */
  function Recomputed(row: Option<Row>, plan: Plan): Option<Row> {
    if row.None? || plan.NoPlan? then row
    else Some(row.value.(budget := plan.budget, revision := row.value.revision + 1))
  }

  /** The WHERE of the conditional UPDATE. */
  predicate Covered(r: Row, cost: nat, overdraft: bool) {
    overdraft || r.budget.None? || r.budget.value - r.used - r.reserved >= cost
  }

  function ReserveRow(row: Option<Row>, cost: nat, overdraft: bool): (Option<Row>, Reservation) {
    match row
    case None => (None, Missing)
    case Some(r) =>
      if Covered(r, cost, overdraft)
      then (Some(r.(reserved := r.reserved + cost, revision := r.revision + 1)), Reserved)
      else (row, Insufficient)
  }

  function SettleRow(row: Option<Row>, held: int, actual: nat): Option<Row> {
    match row
    case None => None
    case Some(r) => Some(r.(used := r.used + actual, reserved := Max(0, r.reserved - held), revision := r.revision + 1))
  }

  function ReleaseRow(row: Option<Row>, held: int): Option<Row> {
    if held <= 0 then row
    else
      match row
      case None => None
      case Some(r) => Some(r.(reserved := Max(0, r.reserved - held), revision := r.revision + 1))
  }

  // ── The holds ──

  datatype Status = Open | Settled(actual: nat) | Released
  datatype Hold = Hold(amount: nat, overdraft: bool, status: Status)

  /**
   * `holds` lists every reservation that succeeded; `high` is the largest budget
   * the row ever had, None once nothing was enforced.
   */
  datatype State = State(row: Option<Row>, ensured: bool, holds: seq<Hold>, high: Option<int>)

  datatype Event =
    | Ensure(plan: Plan)
    | Forget
    /** The transaction that created the row rolled back; no hold can have been taken on it. */
    | CreationRolledBack
    | Recompute(newPlan: Plan)
    | Reserve(cost: nat, overdraft: bool)
    | Settle(hold: nat, actual: nat)
    | Release(hold: nat)

  const Start := State(None, false, [], Some(0))

  function Higher(high: Option<int>, budget: Option<int>): Option<int> {
    if high.None? || budget.None? then None else Some(Max(high.value, budget.value))
  }

  /** A hold is closed at most once, by the caller that locked its reservation. */
  predicate Enabled(s: State, e: Event) {
    match e
    case CreationRolledBack => s.holds == []
    case Settle(i, _) => i < |s.holds| && s.holds[i].status.Open?
    case Release(i) => i < |s.holds| && s.holds[i].status.Open?
    case _ => true
  }

  function Step(s: State, e: Event): State
    requires Enabled(s, e)
  {
    match e
    case Ensure(plan) =>
      if s.ensured then s
      else if s.row.Some? || plan.NoPlan? then s.(ensured := true)
      else s.(row := Ensured(s.row, plan), ensured := true, high := Higher(s.high, plan.budget))
    case Forget => s.(ensured := false)
    case CreationRolledBack => s.(row := None)
    case Recompute(plan) =>
      if s.row.None? || plan.NoPlan? then s else s.(row := Recomputed(s.row, plan), high := Higher(s.high, plan.budget))
    case Reserve(cost, overdraft) =>
      var (row, result) := ReserveRow(s.row, cost, overdraft);
      s.(row := row, holds := if result.Reserved? then s.holds + [Hold(cost, overdraft, Open)] else s.holds)
    case Settle(i, actual) =>
      var hold := s.holds[i];
      s.(row := SettleRow(s.row, hold.amount, actual), holds := s.holds[i := hold.(status := Settled(actual))])
    case Release(i) =>
      var hold := s.holds[i];
      s.(row := ReleaseRow(s.row, hold.amount), holds := s.holds[i := hold.(status := Released)])
  }

  /** A run; an event that is not enabled does not happen. */
  function Run(s: State, events: seq<Event>): State {
    if events == [] then s
    else
      var before := Run(s, events[..|events| - 1]);
      var e := events[|events| - 1];
      if Enabled(before, e) then Step(before, e) else before
  }
}
