/**
 * Worked scenarios on the first-run ledger, with amounts in whole units and
 * `M` standing for the current month.
 */
module Scenarios {
  import opened Types
  import opened Lookup
  import opened Engine
  import opened Edits

  const M: YearMonth := YearMonth(2025, 3)

  /** Income of 100 into Cash, then deleting it: Cash goes to 100 and back to 0, and the list empties. */
  lemma AddThenDeleteIncome()
    ensures var t := Transaction(100, Income, 100, Salary, 1, "test", M);
      var added := AddTransaction(Initial, t, M);
      var deleted := DeleteTransaction(added, 100, M);
      && added.accounts[0].balance == 100
      && deleted.accounts[0].balance == 0
      && deleted.transactions == []
  {
    var t := Transaction(100, Income, 100, Salary, 1, "test", M);
    AddThenDelete(Initial, t, M);
    assert AddTransaction(Initial, t, M).accounts[0] == SeedAccounts[0].(balance := 100);
  }

  /**
   * A food budget of 200 set with nothing spent starts at 0; expenses of 30
   * and 50 raise it to 30 and then 80; deleting the first brings it to 50.
   */
  lemma BudgetFollowsExpenses()
    ensures var budgeted := UpdateBudget(Initial, Food, 200, M, 7);
      var first := Transaction(10, Expense, 30, Food, 1, "", M);
      var second := Transaction(20, Expense, 50, Food, 1, "", M);
      var one := AddTransaction(budgeted, first, M);
      var two := AddTransaction(one, second, M);
      var back := DeleteTransaction(two, 10, M);
      && budgeted.budgets == [Budget(7, Food, 200, 0, M)]
      && one.budgets == [Budget(7, Food, 200, 30, M)]
      && two.budgets == [Budget(7, Food, 200, 80, M)]
      && back.budgets == [Budget(7, Food, 200, 50, M)]
  {
    var budgeted := UpdateBudget(Initial, Food, 200, M, 7);
    var first := Transaction(10, Expense, 30, Food, 1, "", M);
    var second := Transaction(20, Expense, 50, Food, 1, "", M);
    var one := AddTransaction(budgeted, first, M);
    var two := AddTransaction(one, second, M);
    assert budgeted.budgets == [Budget(7, Food, 200, 0, M)];
    assert one.budgets == [Budget(7, Food, 200, 30, M)];
    assert two.budgets == [Budget(7, Food, 200, 80, M)];
    assert two.transactions == [second, first];
    TxIndexFirst(two.transactions, 1, 10);
    DeleteFound(two, 10, M);
  }

  /**
   * An expense of 50 from Cash edited to 80 from the bank account: Cash ends
   * where it started and the bank account is down exactly 80.
   */
  lemma MoveEditedExpense()
    ensures var t := Transaction(5, Expense, 50, Food, 1, "", M);
      var added := AddTransaction(Initial, t, M);
      var edit := Patch(None, Some(80), None, Some(2), None, None);
      var edited := UpdateTransaction(added, 5, edit, M);
      && edited.accounts[0].balance == 0
      && edited.accounts[1].balance == -80
  {
    var t := Transaction(5, Expense, 50, Food, 1, "", M);
    var added := AddTransaction(Initial, t, M);
    var edit := Patch(None, Some(80), None, Some(2), None, None);
    assert added.accounts == [SeedAccounts[0].(balance := -50), SeedAccounts[1], SeedAccounts[2]];
    TxByIdHead(t, []);
    UpdateFound(added, 5, edit, M);
    RebalanceBranchesAgree(added.accounts, t, Merge(t, edit));
    var reversed := Credit(added.accounts, 1, 50);
    assert reversed == SeedAccounts;
    assert Credit(reversed, 2, -80) == [SeedAccounts[0], SeedAccounts[1].(balance := -80), SeedAccounts[2]];
  }
}
