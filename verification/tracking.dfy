/**
 * Budget tracking. Transaction operations keep a budget's spent total in step
 * incrementally, always against the budget of the month the call happens in
 * and whatever month the transaction itself is dated. So what a budget of the
 * current month tracks is every expense in its category, of any date, added
 * while that month was current; an explicit budget update instead recomputes
 * the total from the expenses dated in the month.
 */
module Tracking {
  import opened Types
  import opened Lookup
  import opened Sums
  import opened Engine
  import opened Effects
  import opened Edits

  /** How far the spent total of the budget at `j` is from all expenses in its category. */
  function Lag(s: Ledger, j: nat): int
    requires j < |s.budgets|
  {
    s.budgets[j].spent - SumOf(s.transactions, TrackedSpend(s.budgets[j].category))
  }

  /**
   * `r` has the same budgets, in the same places, and each budget of
   * `currentMonth` lags the expenses of its category exactly as in `s`.
   */
  predicate LagKept(s: Ledger, r: Ledger, currentMonth: YearMonth) {
    && |r.budgets| == |s.budgets|
    && forall j :: 0 <= j < |s.budgets| ==>
         && r.budgets[j].category == s.budgets[j].category
         && r.budgets[j].month == s.budgets[j].month
         && (s.budgets[j].month == currentMonth ==> Lag(r, j) == Lag(s, j))
  }

  /** Adding a transaction keeps the lag of every current-month budget (budget keys unique). */
  lemma AddTransactionTracks(s: Ledger, t: Transaction, currentMonth: YearMonth)
    requires UniqueBudgetKeys(s.budgets)
    ensures LagKept(s, AddTransaction(s, t, currentMonth), currentMonth)
  {
    var r := AddTransaction(s, t, currentMonth);
    AddTransactionBudgets(s, t, currentMonth);
    forall j | 0 <= j < |s.budgets|
      ensures r.budgets[j].category == s.budgets[j].category
      ensures r.budgets[j].month == s.budgets[j].month
      ensures s.budgets[j].month == currentMonth ==> Lag(r, j) == Lag(s, j)
    {
      FirstBudgetUnique(s.budgets, j, t.category, currentMonth);
      SumOfCons(t, s.transactions, TrackedSpend(s.budgets[j].category));
    }
  }

  /** Deleting a transaction keeps the lag of every current-month budget (keys and transaction ids unique). */
  lemma DeleteTransactionTracks(s: Ledger, id: Id, currentMonth: YearMonth)
    requires UniqueBudgetKeys(s.budgets)
    requires UniqueTxIds(s.transactions)
    ensures LagKept(s, DeleteTransaction(s, id, currentMonth), currentMonth)
  {
    if TxIdUsed(s.transactions, id) {
      var r := DeleteTransaction(s, id, currentMonth);
      var k := TxIndex(s.transactions, id).value;
      var t := s.transactions[k];
      DeleteFound(s, id, currentMonth);
      DeleteTransactionBudgets(s, id, currentMonth);
      forall j | 0 <= j < |s.budgets|
        ensures r.budgets[j].category == s.budgets[j].category
        ensures r.budgets[j].month == s.budgets[j].month
        ensures s.budgets[j].month == currentMonth ==> Lag(r, j) == Lag(s, j)
      {
        FirstBudgetUnique(s.budgets, j, t.category, currentMonth);
        SumOfRemoveId(s.transactions, k, TrackedSpend(s.budgets[j].category));
      }
    }
  }

  /**
   * Budget step of an edit as a whole (budget keys unique): each current-month
   * budget's spent total loses what `before` contributed to its category's
   * expenses and gains what the edited record contributes; when the edit
   * leaves category, amount and kind alone, the two contributions are equal.
   * Keys never move.
   */
  lemma UpdateSpentMoves(budgets: seq<Budget>, before: Transaction, p: Patch, currentMonth: YearMonth)
    requires UniqueBudgetKeys(budgets)
    ensures var after := Merge(before, p);
      var r := if TouchesBudgets(p) then Rebudget(budgets, before, after, currentMonth) else budgets;
      && |r| == |budgets|
      && forall j :: 0 <= j < |budgets| ==>
           && r[j].category == budgets[j].category
           && r[j].month == budgets[j].month
           && (budgets[j].month == currentMonth ==>
                 r[j].spent == budgets[j].spent
                   - Weight(TrackedSpend(budgets[j].category), before)
                   + Weight(TrackedSpend(budgets[j].category), after))
  {
    var after := Merge(before, p);
    if TouchesBudgets(p) {
      RebudgetEffect(budgets, before, after, currentMonth);
    } else {
      forall j | 0 <= j < |budgets| && budgets[j].month == currentMonth
        ensures Weight(TrackedSpend(budgets[j].category), after) == Weight(TrackedSpend(budgets[j].category), before)
      {
      }
    }
  }

  /**
   * Swapping the transaction at `k` for `after` keeps every lag once each
   * current-month budget's spent total has moved by the swap's weight in its
   * category (transaction ids unique).
   */
  lemma SwapKeepsLag(s: Ledger, r: Ledger, k: nat, after: Transaction, currentMonth: YearMonth)
    requires UniqueTxIds(s.transactions)
    requires k < |s.transactions|
    requires r.transactions == ReplaceId(s.transactions, s.transactions[k].id, after)
    requires |r.budgets| == |s.budgets|
    requires forall j :: 0 <= j < |s.budgets| ==>
      && r.budgets[j].category == s.budgets[j].category
      && r.budgets[j].month == s.budgets[j].month
      && (s.budgets[j].month == currentMonth ==>
            r.budgets[j].spent == s.budgets[j].spent
              - Weight(TrackedSpend(s.budgets[j].category), s.transactions[k])
              + Weight(TrackedSpend(s.budgets[j].category), after))
    ensures LagKept(s, r, currentMonth)
  {
    forall j | 0 <= j < |s.budgets| && s.budgets[j].month == currentMonth
      ensures Lag(r, j) == Lag(s, j)
    {
      SumOfReplaceId(s.transactions, k, after, TrackedSpend(s.budgets[j].category));
    }
  }

  /** Editing a transaction keeps the lag of every current-month budget (keys and transaction ids unique). */
  lemma UpdateTransactionTracks(s: Ledger, id: Id, p: Patch, currentMonth: YearMonth)
    requires UniqueBudgetKeys(s.budgets)
    requires UniqueTxIds(s.transactions)
    ensures LagKept(s, UpdateTransaction(s, id, p, currentMonth), currentMonth)
  {
    if TxIdUsed(s.transactions, id) {
      var r := UpdateTransaction(s, id, p, currentMonth);
      var k := TxIndex(s.transactions, id).value;
      var before := s.transactions[k];
      var after := Merge(before, p);
      UpdateFound(s, id, p, currentMonth);
      assert r.transactions == ReplaceId(s.transactions, s.transactions[k].id, after);
      UpdateSpentMoves(s.budgets, before, p, currentMonth);
      SwapKeepsLag(s, r, k, after, currentMonth);
    }
  }

  /**
   * The current-month policy at work: an expense dated in another month still
   * raises the spent total of its category's budget for the current month,
   * while the total a budget update would recompute for that month is
   * unchanged.
   */
  lemma OtherMonthExpenseCountsNow(s: Ledger, t: Transaction, currentMonth: YearMonth, j: nat)
    requires t.kind == Expense && t.month != currentMonth
    requires UniqueBudgetKeys(s.budgets)
    requires j < |s.budgets| && s.budgets[j].category == t.category && s.budgets[j].month == currentMonth
    ensures var r := AddTransaction(s, t, currentMonth);
      && r.budgets[j].spent == s.budgets[j].spent + t.amount
      && SumOf(r.transactions, MonthSpend(t.category, currentMonth))
         == SumOf(s.transactions, MonthSpend(t.category, currentMonth))
  {
    AddTransactionBudgets(s, t, currentMonth);
    FirstBudgetUnique(s.budgets, j, t.category, currentMonth);
    SumOfCons(t, s.transactions, MonthSpend(t.category, currentMonth));
  }

  /**
   * For expenses dated in the current month the two strategies agree: adding
   * one moves a current-month budget's spent total exactly as it moves the
   * total a budget update would recompute (budget keys unique).
   */
  lemma CurrentMonthAddAgrees(s: Ledger, t: Transaction, currentMonth: YearMonth, j: nat)
    requires t.month == currentMonth
    requires UniqueBudgetKeys(s.budgets)
    requires j < |s.budgets| && s.budgets[j].month == currentMonth
    ensures var r := AddTransaction(s, t, currentMonth);
      var m := MonthSpend(s.budgets[j].category, currentMonth);
      r.budgets[j].spent - SumOf(r.transactions, m) == s.budgets[j].spent - SumOf(s.transactions, m)
  {
    AddTransactionBudgets(s, t, currentMonth);
    FirstBudgetUnique(s.budgets, j, t.category, currentMonth);
    SumOfCons(t, s.transactions, MonthSpend(s.budgets[j].category, currentMonth));
  }
}
