/**
 * Record-by-record effect of each transaction operation: which account
 * balance and which budget total it moves, by how much, and that every other
 * record and every other field stays as it was.
 */
module Effects {
  import opened Types
  import opened Lookup
  import opened Engine

  /**
   * Adding `t` moves only the first account carrying `t.accountId`, by `t`'s
   * signed amount.
   */
  lemma AddTransactionAccounts(s: Ledger, t: Transaction, currentMonth: YearMonth)
    ensures var r := AddTransaction(s, t, currentMonth);
      forall j :: 0 <= j < |s.accounts| ==>
        r.accounts[j] == s.accounts[j].(balance := s.accounts[j].balance
          + (if FirstAccount(s.accounts, j, t.accountId) then Signed(t) else 0))
  {
    CreditEffect(s.accounts, t.accountId, Signed(t));
    forall j | 0 <= j < |s.accounts| {
      AccountIndexIsFirst(s.accounts, j, t.accountId);
    }
  }

  /**
   * Adding an expense `t` moves only the first budget for (`t.category`,
   * `currentMonth`), by `t.amount`; adding an income moves no budget.
   */
  lemma AddTransactionBudgets(s: Ledger, t: Transaction, currentMonth: YearMonth)
    ensures var r := AddTransaction(s, t, currentMonth);
      forall j :: 0 <= j < |s.budgets| ==>
        r.budgets[j] == s.budgets[j].(spent := s.budgets[j].spent
          + (if t.kind == Expense && FirstBudget(s.budgets, j, t.category, currentMonth) then t.amount else 0))
  {
    AddSpentEffect(s.budgets, t.category, currentMonth, t.amount);
    forall j | 0 <= j < |s.budgets| {
      BudgetIndexIsFirst(s.budgets, j, t.category, currentMonth);
    }
  }

  /**
   * Deleting the transaction carrying `id` takes its signed amount off the
   * first account it names, and moves no other account.
   */
  lemma DeleteTransactionAccounts(s: Ledger, id: Id, currentMonth: YearMonth)
    requires TxIdUsed(s.transactions, id)
    ensures var t := TxById(s.transactions, id);
      var r := DeleteTransaction(s, id, currentMonth);
      forall j :: 0 <= j < |s.accounts| ==>
        r.accounts[j] == s.accounts[j].(balance := s.accounts[j].balance
          - (if FirstAccount(s.accounts, j, t.accountId) then Signed(t) else 0))
  {
    var t := TxById(s.transactions, id);
    DeleteFound(s, id, currentMonth);
    CreditEffect(s.accounts, t.accountId, -Signed(t));
    forall j | 0 <= j < |s.accounts| {
      AccountIndexIsFirst(s.accounts, j, t.accountId);
    }
  }

  /**
   * Deleting an expense takes its amount off the first budget for (its
   * category, `currentMonth`); deleting an income moves no budget.
   */
  lemma DeleteTransactionBudgets(s: Ledger, id: Id, currentMonth: YearMonth)
    requires TxIdUsed(s.transactions, id)
    ensures var t := TxById(s.transactions, id);
      var r := DeleteTransaction(s, id, currentMonth);
      forall j :: 0 <= j < |s.budgets| ==>
        r.budgets[j] == s.budgets[j].(spent := s.budgets[j].spent
          - (if t.kind == Expense && FirstBudget(s.budgets, j, t.category, currentMonth) then t.amount else 0))
  {
    var t := TxById(s.transactions, id);
    DeleteFound(s, id, currentMonth);
    AddSpentEffect(s.budgets, t.category, currentMonth, -t.amount);
    forall j | 0 <= j < |s.budgets| {
      BudgetIndexIsFirst(s.budgets, j, t.category, currentMonth);
    }
  }

  /**
   * Deleting keeps exactly the transactions that do not carry `id`; with
   * unique ids the survivors are the list with the one carrier cut out, in
   * their original order.
   */
  lemma DeleteTransactionKeeps(s: Ledger, id: Id, currentMonth: YearMonth)
    ensures forall t :: t in DeleteTransaction(s, id, currentMonth).transactions <==>
      t in s.transactions && t.id != id
    ensures UniqueTxIds(s.transactions) ==>
      forall k :: 0 <= k < |s.transactions| && s.transactions[k].id == id ==>
        DeleteTransaction(s, id, currentMonth).transactions == s.transactions[..k] + s.transactions[k+1..]
  {
    if TxIdUsed(s.transactions, id) {
      DeleteFound(s, id, currentMonth);
      if UniqueTxIds(s.transactions) {
        forall k | 0 <= k < |s.transactions| && s.transactions[k].id == id
          ensures RemoveId(s.transactions, id) == s.transactions[..k] + s.transactions[k+1..]
        {
          RemoveIdSlice(s.transactions, k);
        }
      }
    } else {
      RemoveIdAbsent(s.transactions, id);
    }
  }

  /**
   * Editing the transaction carrying `id` rewrites every transaction with that
   * id to the edited record and leaves the others in place; it moves only
   * balances and spent totals, and never a budget of another month.
   */
  lemma UpdateTransactionEffect(s: Ledger, id: Id, p: Patch, currentMonth: YearMonth)
    requires TxIdUsed(s.transactions, id)
    ensures var before := TxById(s.transactions, id);
      var r := UpdateTransaction(s, id, p, currentMonth);
      && (forall j :: 0 <= j < |s.transactions| ==>
            r.transactions[j] == (if s.transactions[j].id == id then Merge(before, p) else s.transactions[j]))
      && (forall j :: 0 <= j < |s.accounts| ==> SameButBalance(s.accounts[j], r.accounts[j]))
      && (forall j :: 0 <= j < |s.budgets| ==> SameButSpent(s.budgets[j], r.budgets[j]))
      && (forall j :: 0 <= j < |s.budgets| && s.budgets[j].month != currentMonth ==>
            r.budgets[j] == s.budgets[j])
  {
    UpdateFound(s, id, p, currentMonth);
  }
}
