/**
 * Laws of transaction edits: what the reverse-then-reapply rule does to each
 * account and each current-month budget, that deleting a just-added
 * transaction undoes the addition, and that repeating an edit changes nothing.
 */
module Edits {
  import opened Types
  import opened Lookup
  import opened Sums
  import opened Engine

  /** With unique ids, "first account carrying `id`" is simply "the account carrying `id`". */
  lemma FirstAccountUnique(accounts: seq<Account>, j: nat, id: Id)
    requires UniqueAccountIds(accounts)
    requires j < |accounts|
    ensures FirstAccount(accounts, j, id) <==> accounts[j].id == id
  {
  }

  /** With unique keys, "first budget for the key" is simply "the budget for the key". */
  lemma FirstBudgetUnique(budgets: seq<Budget>, j: nat, category: Category, month: YearMonth)
    requires UniqueBudgetKeys(budgets)
    requires j < |budgets|
    ensures FirstBudget(budgets, j, category, month) <==>
      budgets[j].category == category && budgets[j].month == month
  {
  }

  /**
   * The two branches of the balance step agree: whether or not the account
   * changed, an edit is "take `before` off its account, then put `after` on
   * its account".
   */
  lemma RebalanceBranchesAgree(accounts: seq<Account>, before: Transaction, after: Transaction)
    ensures Rebalance(accounts, before, after)
         == Credit(Credit(accounts, before.accountId, -Signed(before)), after.accountId, Signed(after))
  {
    if before.accountId == after.accountId {
      RebalanceSameAccount(accounts, before, after);
    } else {
      RebalanceOtherAccount(accounts, before, after);
    }
  }

  /** The other-account branch is, by construction, the two credits. */
  lemma RebalanceOtherAccount(accounts: seq<Account>, before: Transaction, after: Transaction)
    requires before.accountId != after.accountId
    ensures Rebalance(accounts, before, after)
         == Credit(Credit(accounts, before.accountId, -Signed(before)), after.accountId, Signed(after))
  {
  }

  /** The same-account branch is two credits to that one account. */
  lemma RebalanceSameAccount(accounts: seq<Account>, before: Transaction, after: Transaction)
    requires before.accountId == after.accountId
    ensures Rebalance(accounts, before, after)
         == Credit(Credit(accounts, before.accountId, -Signed(before)), before.accountId, Signed(after))
  {
    var id := before.accountId;
    var once := Credit(accounts, id, -Signed(before));
    var twice := Credit(once, id, Signed(after));
    var r := Rebalance(accounts, before, after);
    CreditEffect(accounts, id, -Signed(before));
    CreditEffect(once, id, Signed(after));
    AccountIndexByIds(accounts, once, id);
    forall j | 0 <= j < |accounts|
      ensures twice[j] == r[j]
    {
    }
  }

  /**
   * Balance step of an edit, account by account (ids unique): each account
   * loses what `before` contributed to it and gains what `after` contributes.
   */
  lemma RebalanceEffect(accounts: seq<Account>, before: Transaction, after: Transaction)
    requires UniqueAccountIds(accounts)
    ensures var r := Rebalance(accounts, before, after);
      forall j :: 0 <= j < |accounts| ==>
        r[j].balance == accounts[j].balance
          - Weight(NetOf(accounts[j].id), before) + Weight(NetOf(accounts[j].id), after)
  {
    RebalanceBranchesAgree(accounts, before, after);
    var once := Credit(accounts, before.accountId, -Signed(before));
    forall j | 0 <= j < |accounts|
      ensures Credit(once, after.accountId, Signed(after))[j].balance == accounts[j].balance
          - Weight(NetOf(accounts[j].id), before) + Weight(NetOf(accounts[j].id), after)
    {
      FirstAccountUnique(accounts, j, before.accountId);
      FirstAccountUnique(accounts, j, after.accountId);
      assert FirstAccount(once, j, after.accountId) == FirstAccount(accounts, j, after.accountId);
    }
  }

  /**
   * Budget step of an edit, budget by budget (keys unique): each budget of
   * `currentMonth` loses `before`'s amount if `before` was an expense in its
   * category, and gains `after`'s amount if `after` is an expense in its
   * category.
   */
  lemma RebudgetEffect(budgets: seq<Budget>, before: Transaction, after: Transaction, currentMonth: YearMonth)
    requires UniqueBudgetKeys(budgets)
    ensures var r := Rebudget(budgets, before, after, currentMonth);
      forall j :: 0 <= j < |budgets| && budgets[j].month == currentMonth ==>
        r[j].spent == budgets[j].spent
          - Weight(TrackedSpend(budgets[j].category), before)
          + Weight(TrackedSpend(budgets[j].category), after)
  {
    var reversed :=
      if before.kind == Expense then AddSpent(budgets, before.category, currentMonth, -before.amount)
      else budgets;
    forall j | 0 <= j < |budgets| && budgets[j].month == currentMonth
      ensures Rebudget(budgets, before, after, currentMonth)[j].spent == budgets[j].spent
          - Weight(TrackedSpend(budgets[j].category), before)
          + Weight(TrackedSpend(budgets[j].category), after)
    {
      FirstBudgetUnique(budgets, j, before.category, currentMonth);
      FirstBudgetUnique(budgets, j, after.category, currentMonth);
      assert FirstBudget(reversed, j, after.category, currentMonth)
          == FirstBudget(budgets, j, after.category, currentMonth);
    }
  }

  /**
   * Per-account effect of an edit that supplies an amount, account or kind
   * (account ids unique): the old account gives back the old signed amount,
   * the new account takes the new signed amount, and nobody else moves.
   */
  lemma UpdateMovesBalances(s: Ledger, id: Id, p: Patch, currentMonth: YearMonth)
    requires UniqueAccountIds(s.accounts)
    requires TxIdUsed(s.transactions, id)
    requires TouchesBalances(p)
    ensures var before := TxById(s.transactions, id);
      var after := Merge(before, p);
      var r := UpdateTransaction(s, id, p, currentMonth);
      forall j :: 0 <= j < |s.accounts| ==>
        r.accounts[j].balance == s.accounts[j].balance
          - (if s.accounts[j].id == before.accountId then Signed(before) else 0)
          + (if s.accounts[j].id == after.accountId then Signed(after) else 0)
  {
    var before := TxById(s.transactions, id);
    RebalanceEffect(s.accounts, before, Merge(before, p));
  }

  /**
   * Moving a transaction to another account (account ids unique): the old
   * account ends exactly where deleting the transaction would leave it, and
   * the new account moves by exactly the new signed amount.
   */
  lemma UpdateAccountChangeLikeDelete(s: Ledger, id: Id, p: Patch, currentMonth: YearMonth)
    requires UniqueAccountIds(s.accounts)
    requires TxIdUsed(s.transactions, id)
    requires p.accountId.Some? && p.accountId.value != TxById(s.transactions, id).accountId
    ensures var before := TxById(s.transactions, id);
      var after := Merge(before, p);
      var r := UpdateTransaction(s, id, p, currentMonth);
      var d := DeleteTransaction(s, id, currentMonth);
      forall j :: 0 <= j < |s.accounts| ==>
        && (s.accounts[j].id == before.accountId ==> r.accounts[j].balance == d.accounts[j].balance)
        && (s.accounts[j].id == after.accountId ==>
              r.accounts[j].balance == s.accounts[j].balance + Signed(after))
  {
    UpdateMovesBalances(s, id, p, currentMonth);
    var before := TxById(s.transactions, id);
    forall j | 0 <= j < |s.accounts|
      ensures FirstAccount(s.accounts, j, before.accountId) <==> s.accounts[j].id == before.accountId
    {
      FirstAccountUnique(s.accounts, j, before.accountId);
    }
  }

  /**
   * Per-budget effect of an edit that supplies a category, amount or kind
   * (budget keys unique): a budget of `currentMonth` gives back the old amount
   * only if the old transaction was an expense in its category, and takes the
   * new amount only if the new one is an expense in its category.
   */
  lemma UpdateReconcilesBudgets(s: Ledger, id: Id, p: Patch, currentMonth: YearMonth)
    requires UniqueBudgetKeys(s.budgets)
    requires TxIdUsed(s.transactions, id)
    requires TouchesBudgets(p)
    ensures var before := TxById(s.transactions, id);
      var after := Merge(before, p);
      var r := UpdateTransaction(s, id, p, currentMonth);
      forall j :: 0 <= j < |s.budgets| && s.budgets[j].month == currentMonth ==>
        r.budgets[j].spent == s.budgets[j].spent
          - (if before.kind == Expense && before.category == s.budgets[j].category then before.amount else 0)
          + (if after.kind == Expense && after.category == s.budgets[j].category then after.amount else 0)
  {
    var before := TxById(s.transactions, id);
    var after := Merge(before, p);
    var r := UpdateTransaction(s, id, p, currentMonth);
    assert r.budgets == Rebudget(s.budgets, before, after, currentMonth) by {
      UpdateFound(s, id, p, currentMonth);
    }
    RebudgetEffect(s.budgets, before, after, currentMonth);
    forall j | 0 <= j < |s.budgets| && s.budgets[j].month == currentMonth
      ensures r.budgets[j].spent == s.budgets[j].spent
          - (if before.kind == Expense && before.category == s.budgets[j].category then before.amount else 0)
          + (if after.kind == Expense && after.category == s.budgets[j].category then after.amount else 0)
    {
      var m := TrackedSpend(s.budgets[j].category);
      assert Weight(m, before) == (if before.kind == Expense && before.category == s.budgets[j].category then before.amount else 0);
      assert Weight(m, after) == (if after.kind == Expense && after.category == s.budgets[j].category then after.amount else 0);
    }
  }

  /** Deleting a just-added transaction gives its signed amount back to the account it went to. */
  lemma AddThenDeleteAccounts(s: Ledger, t: Transaction, currentMonth: YearMonth)
    ensures DeleteTransaction(AddTransaction(s, t, currentMonth), t.id, currentMonth).accounts == s.accounts
  {
    var added := AddTransaction(s, t, currentMonth);
    TxByIdHead(t, s.transactions);
    DeleteFound(added, t.id, currentMonth);
    CreditInverse(s.accounts, t.accountId, Signed(t), -Signed(t));
  }

  /** Deleting a just-added expense takes its amount back off the budget it was charged to. */
  lemma AddThenDeleteBudgets(s: Ledger, t: Transaction, currentMonth: YearMonth)
    ensures DeleteTransaction(AddTransaction(s, t, currentMonth), t.id, currentMonth).budgets == s.budgets
  {
    var added := AddTransaction(s, t, currentMonth);
    TxByIdHead(t, s.transactions);
    DeleteFound(added, t.id, currentMonth);
    if t.kind == Expense {
      AddSpentInverse(s.budgets, t.category, currentMonth, t.amount, -t.amount);
    }
  }

  /**
   * Deleting a transaction right after adding it, in the same month and with
   * an id no other transaction carries, restores the ledger exactly:
   * transaction list, every balance and every budget.
   */
  lemma AddThenDelete(s: Ledger, t: Transaction, currentMonth: YearMonth)
    requires !TxIdUsed(s.transactions, t.id)
    ensures DeleteTransaction(AddTransaction(s, t, currentMonth), t.id, currentMonth) == s
  {
    var d := DeleteTransaction(AddTransaction(s, t, currentMonth), t.id, currentMonth);
    assert d.transactions == s.transactions by {
      TxByIdHead(t, s.transactions);
      DeleteFound(AddTransaction(s, t, currentMonth), t.id, currentMonth);
      RemoveIdPrepended(t, s.transactions);
    }
    AddThenDeleteAccounts(s, t, currentMonth);
    AddThenDeleteBudgets(s, t, currentMonth);
  }

  /** Writing the same fields twice is writing them once. */
  lemma MergeIdempotent(t: Transaction, p: Patch)
    ensures Merge(Merge(t, p), p) == Merge(t, p)
  {
  }

  /** Taking a transaction off its account and putting it back leaves the balances as they were. */
  lemma RebalanceNoop(accounts: seq<Account>, t: Transaction)
    ensures Rebalance(accounts, t, t) == accounts
  {
    RebalanceBranchesAgree(accounts, t, t);
    CreditInverse(accounts, t.accountId, -Signed(t), Signed(t));
  }

  /** Taking a transaction off its budget and putting it back leaves the budgets as they were. */
  lemma RebudgetNoop(budgets: seq<Budget>, t: Transaction, currentMonth: YearMonth)
    ensures Rebudget(budgets, t, t, currentMonth) == budgets
  {
    if t.kind == Expense {
      AddSpentInverse(budgets, t.category, currentMonth, -t.amount, t.amount);
    }
  }

  /**
   * Repeating an edit changes nothing more: the second call takes back exactly
   * what it puts on again, on every account and every budget.
   */
  lemma UpdateIdempotent(s: Ledger, id: Id, p: Patch, currentMonth: YearMonth)
    ensures var once := UpdateTransaction(s, id, p, currentMonth);
      UpdateTransaction(once, id, p, currentMonth) == once
  {
    if TxIdUsed(s.transactions, id) {
      var before := TxById(s.transactions, id);
      var after := Merge(before, p);
      var once := UpdateTransaction(s, id, p, currentMonth);
      UpdateFound(s, id, p, currentMonth);
      ReplaceIdFound(s.transactions, id, after);
      UpdateFound(once, id, p, currentMonth);
      MergeIdempotent(before, p);
      RebalanceNoop(once.accounts, after);
      RebudgetNoop(once.budgets, after, currentMonth);
    }
  }
}
