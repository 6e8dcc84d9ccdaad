/**
 * Laws of the explicit budget update: it recomputes rather than accumulates,
 * so repeating it changes nothing, and it upserts, so there is never more
 * than one budget per (category, month).
 */
module Budgets {
  import opened Types
  import opened Lookup
  import opened Sums
  import opened Engine

  /** Setting the same limit twice in the same month is setting it once; the second fresh id goes unused. */
  lemma UpdateBudgetIdempotent(s: Ledger, category: Category, limit: int, currentMonth: YearMonth, id1: Id, id2: Id)
    ensures var once := UpdateBudget(s, category, limit, currentMonth, id1);
      UpdateBudget(once, category, limit, currentMonth, id2) == once
  {
    var once := UpdateBudget(s, category, limit, currentMonth, id1);
    var twice := UpdateBudget(once, category, limit, currentMonth, id2);
    var i := BudgetIndex(once.budgets, category, currentMonth).value;
    assert once.budgets[i].(limit := limit, spent := SumOf(once.transactions, MonthSpend(category, currentMonth)))
        == once.budgets[i];
    forall j | 0 <= j < |once.budgets|
      ensures twice.budgets[j] == once.budgets[j]
    {
    }
  }

  /** The update never creates a second budget for a (category, month) pair. */
  lemma UpdateBudgetKeepsKeysUnique(s: Ledger, category: Category, limit: int, currentMonth: YearMonth, freshId: Id)
    requires UniqueBudgetKeys(s.budgets)
    ensures UniqueBudgetKeys(UpdateBudget(s, category, limit, currentMonth, freshId).budgets)
  {
    var r := UpdateBudget(s, category, limit, currentMonth, freshId).budgets;
    match BudgetIndex(s.budgets, category, currentMonth)
    case Some(i) =>
      assert forall j :: 0 <= j < |r| ==>
        r[j].category == s.budgets[j].category && r[j].month == s.budgets[j].month;
    case None =>
      assert r == s.budgets + [Budget(freshId, category, limit, SumOf(s.transactions, MonthSpend(category, currentMonth)), currentMonth)];
  }

  /**
   * The update grows the list by one exactly when there was no budget for the
   * key, and after it exactly one budget carries the key (keys unique).
   */
  lemma UpdateBudgetUpserts(s: Ledger, category: Category, limit: int, currentMonth: YearMonth, freshId: Id)
    requires UniqueBudgetKeys(s.budgets)
    ensures var r := UpdateBudget(s, category, limit, currentMonth, freshId);
      && |r.budgets| == |s.budgets| + (if BudgetIndex(s.budgets, category, currentMonth).None? then 1 else 0)
      && forall j, k :: 0 <= j < k < |r.budgets| ==>
           !(r.budgets[j].category == category && r.budgets[j].month == currentMonth
             && r.budgets[k].category == category && r.budgets[k].month == currentMonth)
  {
    UpdateBudgetKeepsKeysUnique(s, category, limit, currentMonth, freshId);
  }
}
