/**
 * The AI credit months of all tenants, updated in place
 * (src/modules/ai-credits/ai-credit.repository.ts). Each method changes the row
 * of one month as module CreditModel says, and no other row.
 */
module CreditRepository {
  import opened Common
  import M = CreditModel

  datatype Key = Key(tenantId: string, periodStart: string)
  datatype Settlement = Settlement(budget: Option<int>, used: int)

  class CreditRepository {
    /** The table, and the process's memory of the months it ensured. */
    var rows: map<Key, M.Row>
    var ensured: set<Key>

    constructor ()
      ensures rows == map[] && ensured == {}
    {
      rows, ensured := map[], {};
    }

    function RowOf(key: Key): Option<M.Row>
      reads this
    {
      if key in rows then Some(rows[key]) else None
    }

    /** Every month but `key` is as it was in `before`. */
    ghost predicate OnlyChanged(before: map<Key, M.Row>, key: Key)
      reads this
    {
      rows - {key} == before - {key}
    }

    /** Without a plan row the month has no row afterwards, and counts as ensured all the same. */
    method EnsureCreditMonth(key: Key, plan: M.Plan)
      modifies this
      ensures RowOf(key) == if key in old(ensured) then old(RowOf(key)) else M.Ensured(old(RowOf(key)), plan)
      ensures ensured == old(ensured) + {key} && OnlyChanged(old(rows), key)
    {
      if key in ensured {
        return;
      }
      if key !in rows && plan.Plan? {
        rows := rows[key := M.Row(plan.budget, 0, 0, 0)];
      }
      ensured := ensured + {key};
    }

    method ForgetEnsuredCreditMonth(key: Key)
      modifies this`ensured
      ensures ensured == old(ensured) - {key}
    {
      ensured := ensured - {key};
    }

    method RecomputeCreditMonth(key: Key, plan: M.Plan)
      modifies this
      ensures RowOf(key)
        == M.Recomputed(if key in old(ensured) then old(RowOf(key)) else M.Ensured(old(RowOf(key)), plan), plan)
      ensures ensured == old(ensured) + {key} && OnlyChanged(old(rows), key)
    {
      EnsureCreditMonth(key, plan);
      if key in rows && plan.Plan? {
        var r := rows[key];
        rows := rows[key := r.(budget := plan.budget, revision := r.revision + 1)];
      }
    }

    method ReserveCreditUsd(key: Key, cost: nat, allowOverdraft: bool) returns (result: M.Reservation)
      modifies this`rows
      ensures (RowOf(key), result) == M.ReserveRow(old(RowOf(key)), cost, allowOverdraft)
      ensures result.Missing? <==> key !in old(rows)
      ensures key in old(rows) && allowOverdraft ==> result.Reserved?
      ensures result.Reserved? ==>
        && key in rows && key in old(rows) && rows[key].reserved == old(rows[key]).reserved + cost
        && rows[key].budget == old(rows[key]).budget && rows[key].used == old(rows[key]).used
      ensures OnlyChanged(old(rows), key)
    {
      var updated := 0;
      if key in rows {
        var r := rows[key];
        if allowOverdraft || r.budget == None || r.budget.value - r.used - r.reserved >= cost {
          rows := rows[key := r.(reserved := r.reserved + cost, revision := r.revision + 1)];
          updated := 1;
        }
      }
      if updated == 1 {
        return M.Reserved;
      }
      result := if key in rows then M.Insufficient else M.Missing;
    }

    method SettleCreditUsd(key: Key, reserved: int, actual: nat) returns (settlement: Option<Settlement>)
      modifies this`rows
      ensures RowOf(key) == M.SettleRow(old(RowOf(key)), reserved, actual)
      ensures settlement == match RowOf(key) case None => None case Some(r) => Some(Settlement(r.budget, r.used))
      ensures OnlyChanged(old(rows), key)
    {
      if key !in rows {
        return None;
      }
      var r := rows[key];
      r := r.(used := r.used + actual, reserved := Max(0, r.reserved - reserved), revision := r.revision + 1);
      rows := rows[key := r];
      settlement := Some(Settlement(r.budget, r.used));
    }

    method ReleaseCreditUsd(key: Key, reserved: int)
      modifies this`rows
      ensures RowOf(key) == M.ReleaseRow(old(RowOf(key)), reserved)
      ensures OnlyChanged(old(rows), key)
    {
      if reserved <= 0 {
        return;
      }
      if key in rows {
        var r := rows[key];
        rows := rows[key := r.(reserved := Max(0, r.reserved - reserved), revision := r.revision + 1)];
      }
    }
  }
}
