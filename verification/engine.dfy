/**
 * The ledger engine: every operation that changes accounts, transactions or
 * budgets, and the aggregate queries, each as a pure function from the
 * ledger before the call to the ledger after it.
 *
 * What the running app reads from the clock is passed in: `currentMonth` is
 * the UTC year-month of the moment the operation runs, and a fresh id is
 * handed to every operation that creates a record.
 */
module Engine {
  import opened Types
  import opened Lookup
  import opened Sums

  /** The state before anything is loaded or after a reset: the three seed accounts, nothing else. */
  const Initial: Ledger := Ledger(SeedAccounts, [], [])

  // ---------------------------------------------------------------------------
  // Transactions
  // ---------------------------------------------------------------------------

  /**
   * Records `t` (whose id is the fresh id) at the front of the list, moves the
   * balance of the first account it names by its signed amount, and, for an
   * expense, adds its amount to the spent total of its category's budget for
   * `currentMonth` (the month the call happens in, whatever `t`'s own month
   * is). A missing account or budget is skipped; no budget is created.
   */
  function AddTransaction(s: Ledger, t: Transaction, currentMonth: YearMonth): (r: Ledger)
    ensures r.transactions == [t] + s.transactions
    ensures |r.accounts| == |s.accounts| && |r.budgets| == |s.budgets|
    ensures !AccountIdUsed(s.accounts, t.accountId) ==> r.accounts == s.accounts
    ensures t.kind == Income ==> r.budgets == s.budgets
  {
    var budgets :=
      if t.kind == Expense then AddSpent(s.budgets, t.category, currentMonth, t.amount)
      else s.budgets;
    Ledger(Credit(s.accounts, t.accountId, Signed(t)), [t] + s.transactions, budgets)
  }

  /** The fields an edit may supply; `None` leaves a field as it was. An edit never changes the id. */
  datatype Patch = Patch(
    kind: Option<TxKind>,
    amount: Option<int>,
    category: Option<Category>,
    accountId: Option<Id>,
    description: Option<string>,
    month: Option<YearMonth>)

  function Pick<T>(o: Option<T>, otherwise: T): T {
    if o.Some? then o.value else otherwise
  }

  /** `t` with the supplied fields of `p` written over it. */
  function Merge(t: Transaction, p: Patch): (r: Transaction)
    ensures r.id == t.id
  {
    Transaction(
      t.id,
      Pick(p.kind, t.kind),
      Pick(p.amount, t.amount),
      Pick(p.category, t.category),
      Pick(p.accountId, t.accountId),
      Pick(p.description, t.description),
      Pick(p.month, t.month))
  }

  /** An edit revisits balances only when it supplies an amount, an account or a kind. */
  predicate TouchesBalances(p: Patch) {
    p.amount.Some? || p.accountId.Some? || p.kind.Some?
  }

  /** An edit revisits budgets only when it supplies a category, an amount or a kind. */
  predicate TouchesBudgets(p: Patch) {
    p.category.Some? || p.amount.Some? || p.kind.Some?
  }

  /**
   * Balance step of an edit: undo `before` and apply `after`. When the account
   * is the same, both steps hit the one account found; otherwise the old and
   * the new account are looked up and moved independently.
   */
  function Rebalance(accounts: seq<Account>, before: Transaction, after: Transaction): (r: seq<Account>)
    ensures |r| == |accounts|
    ensures forall j :: 0 <= j < |r| ==> SameButBalance(accounts[j], r[j])
  {
    if before.accountId == after.accountId then
      match AccountIndex(accounts, before.accountId)
      case None => accounts
      case Some(i) =>
        accounts[i := accounts[i].(balance := accounts[i].balance - Signed(before) + Signed(after))]
    else
      var reversed := Credit(accounts, before.accountId, -Signed(before));
      CreditEffect(accounts, before.accountId, -Signed(before));
      CreditEffect(reversed, after.accountId, Signed(after));
      Credit(reversed, after.accountId, Signed(after))
  }

  /**
   * Budget step of an edit, against the budgets of `currentMonth`: take back
   * `before`'s amount if it was an expense, then add `after`'s if it is one.
   */
  function Rebudget(budgets: seq<Budget>, before: Transaction, after: Transaction, currentMonth: YearMonth): (r: seq<Budget>)
    ensures |r| == |budgets|
    ensures forall j :: 0 <= j < |r| ==> SameButSpent(budgets[j], r[j])
    ensures forall j :: 0 <= j < |r| && budgets[j].month != currentMonth ==> r[j] == budgets[j]
  {
    AddSpentEffect(budgets, before.category, currentMonth, -before.amount);
    var reversed :=
      if before.kind == Expense then AddSpent(budgets, before.category, currentMonth, -before.amount)
      else budgets;
    AddSpentEffect(reversed, after.category, currentMonth, after.amount);
    if after.kind == Expense then AddSpent(reversed, after.category, currentMonth, after.amount)
    else reversed
  }

  /**
   * Edits the transaction carrying `id` with the fields of `p`. Without such
   * a transaction nothing happens. Balances are revisited only when `p`
   * supplies an amount, account or kind; current-month budgets only when it
   * supplies a category, amount or kind.
   */
  function UpdateTransaction(s: Ledger, id: Id, p: Patch, currentMonth: YearMonth): (r: Ledger)
    ensures !TxIdUsed(s.transactions, id) ==> r == s
    ensures |r.transactions| == |s.transactions|
    ensures |r.accounts| == |s.accounts| && |r.budgets| == |s.budgets|
    ensures !TouchesBalances(p) ==> r.accounts == s.accounts
    ensures !TouchesBudgets(p) ==> r.budgets == s.budgets
  {
    if !TxIdUsed(s.transactions, id) then s
    else
      var before := TxById(s.transactions, id);
      var after := Merge(before, p);
      var accounts := if TouchesBalances(p) then Rebalance(s.accounts, before, after) else s.accounts;
      var budgets := if TouchesBudgets(p) then Rebudget(s.budgets, before, after, currentMonth) else s.budgets;
      Ledger(accounts, ReplaceId(s.transactions, id, after), budgets)
  }

  /** Editing a transaction that exists, spelled out step by step. */
  lemma UpdateFound(s: Ledger, id: Id, p: Patch, currentMonth: YearMonth)
    requires TxIdUsed(s.transactions, id)
    ensures var before := TxById(s.transactions, id);
      var after := Merge(before, p);
      var r := UpdateTransaction(s, id, p, currentMonth);
      && r.accounts == (if TouchesBalances(p) then Rebalance(s.accounts, before, after) else s.accounts)
      && r.transactions == ReplaceId(s.transactions, id, after)
      && r.budgets == if TouchesBudgets(p) then Rebudget(s.budgets, before, after, currentMonth) else s.budgets
  {
  }

  /**
   * Removes every transaction carrying `id`, and undoes the first one's effect:
   * its signed amount comes off its account, and an expense comes off its
   * category's budget for `currentMonth`. Without such a transaction nothing
   * happens.
   */
  function DeleteTransaction(s: Ledger, id: Id, currentMonth: YearMonth): (r: Ledger)
    ensures !TxIdUsed(s.transactions, id) ==> r == s
    ensures TxIdUsed(s.transactions, id) ==> |r.transactions| < |s.transactions|
    ensures |r.accounts| == |s.accounts| && |r.budgets| == |s.budgets|
  {
    if !TxIdUsed(s.transactions, id) then s
    else
      var t := TxById(s.transactions, id);
      var budgets :=
        if t.kind == Expense then AddSpent(s.budgets, t.category, currentMonth, -t.amount)
        else s.budgets;
      Ledger(Credit(s.accounts, t.accountId, -Signed(t)), RemoveId(s.transactions, id), budgets)
  }

  /** Deleting a transaction that exists, spelled out step by step. */
  lemma DeleteFound(s: Ledger, id: Id, currentMonth: YearMonth)
    requires TxIdUsed(s.transactions, id)
    ensures var t := TxById(s.transactions, id);
      var r := DeleteTransaction(s, id, currentMonth);
      && r.accounts == Credit(s.accounts, t.accountId, -Signed(t))
      && r.transactions == RemoveId(s.transactions, id)
      && r.budgets == if t.kind == Expense then AddSpent(s.budgets, t.category, currentMonth, -t.amount) else s.budgets
  {
  }

  // ---------------------------------------------------------------------------
  // Accounts
  // ---------------------------------------------------------------------------

  /** The income transaction that explains a new account's opening balance. */
  function OpeningTransaction(account: Account, txId: Id, month: YearMonth): Transaction {
    Transaction(txId, Income, account.balance, InitialBalanceCategory, account.id, account.name, month)
  }

  /** Whether adding `account` also records its opening balance as a transaction. */
  predicate SeedsHistory(account: Account, createInitialTransaction: bool) {
    createInitialTransaction && account.balance > 0
  }

  /**
   * Appends `account` (whose id is the fresh id). When asked to, and the
   * opening balance is positive, also records that balance as one income
   * transaction (fresh id `txId`, dated `nowMonth`) at the front of the list,
   * without moving the balance a second time.
   */
  function AddAccount(s: Ledger, account: Account, createInitialTransaction: bool, txId: Id, nowMonth: YearMonth): (r: Ledger)
    ensures r.accounts == s.accounts + [account]
    ensures r.budgets == s.budgets
    ensures SeedsHistory(account, createInitialTransaction) ==>
      |r.transactions| == |s.transactions| + 1
      && r.transactions[1..] == s.transactions
      && r.transactions[0].kind == Income
      && r.transactions[0].amount == account.balance
      && r.transactions[0].accountId == account.id
      && r.transactions[0].category == InitialBalanceCategory
      && r.transactions[0].id == txId
      && r.transactions[0].description == account.name
      && r.transactions[0].month == nowMonth
    ensures !SeedsHistory(account, createInitialTransaction) ==> r.transactions == s.transactions
  {
    var txs :=
      if SeedsHistory(account, createInitialTransaction) then [OpeningTransaction(account, txId, nowMonth)] + s.transactions
      else s.transactions;
    Ledger(s.accounts + [account], txs, s.budgets)
  }

  /**
   * Removes every account carrying `id`, unless `id` is one of the seed ids,
   * in which case nothing happens. Transactions and budgets are never touched.
   */
  function RemoveAccount(s: Ledger, id: Id): (r: Ledger)
    ensures id in SeedIds ==> r == s
    ensures !AccountIdUsed(s.accounts, id) ==> r == s
    ensures r.transactions == s.transactions && r.budgets == s.budgets
    ensures id !in SeedIds ==> forall a :: a in r.accounts <==> a in s.accounts && a.id != id
    ensures id !in SeedIds && UniqueAccountIds(s.accounts) ==>
      forall k :: 0 <= k < |s.accounts| && s.accounts[k].id == id ==>
        r.accounts == s.accounts[..k] + s.accounts[k+1..]
  {
    WithoutAccountShape(s.accounts, id);
    if id in SeedIds then s
    else s.(accounts := WithoutAccount(s.accounts, id))
  }

  // ---------------------------------------------------------------------------
  // Budgets
  // ---------------------------------------------------------------------------

  /**
   * Sets the limit of `category`'s budget for `currentMonth` and recomputes its
   * spent total from scratch: the sum of this month's expenses in the
   * category. Updates the budget in place if it exists, and otherwise appends
   * one new budget with id `freshId`.
   */
  function UpdateBudget(s: Ledger, category: Category, limit: int, currentMonth: YearMonth, freshId: Id): (r: Ledger)
    ensures r.accounts == s.accounts && r.transactions == s.transactions
    ensures BudgetIndex(r.budgets, category, currentMonth).Some?
    ensures var b := r.budgets[BudgetIndex(r.budgets, category, currentMonth).value];
      b.limit == limit && b.spent == SumOf(s.transactions, MonthSpend(category, currentMonth))
    ensures BudgetIndex(s.budgets, category, currentMonth).Some? ==> |r.budgets| == |s.budgets|
    ensures BudgetIndex(s.budgets, category, currentMonth).None? ==>
      r.budgets == s.budgets
        + [Budget(freshId, category, limit, SumOf(s.transactions, MonthSpend(category, currentMonth)), currentMonth)]
    ensures forall j :: 0 <= j < |s.budgets| && BudgetIndex(s.budgets, category, currentMonth) != Some(j) ==>
      r.budgets[j] == s.budgets[j]
    ensures forall j :: 0 <= j < |s.budgets| ==>
      r.budgets[j].id == s.budgets[j].id && r.budgets[j].category == s.budgets[j].category
      && r.budgets[j].month == s.budgets[j].month
  {
    var spent := SumOf(s.transactions, MonthSpend(category, currentMonth));
    match BudgetIndex(s.budgets, category, currentMonth)
    case Some(i) =>
      var budgets := s.budgets[i := s.budgets[i].(limit := limit, spent := spent)];
      BudgetIndexByKeys(s.budgets, budgets, category, currentMonth);
      s.(budgets := budgets)
    case None =>
      var budgets := s.budgets + [Budget(freshId, category, limit, spent, currentMonth)];
      assert FirstBudget(budgets, |s.budgets|, category, currentMonth);
      s.(budgets := budgets)
  }

  // ---------------------------------------------------------------------------
  // Reset and queries
  // ---------------------------------------------------------------------------

  /** Drops every transaction and budget and puts the three seed accounts back at zero. */
  function ResetAllData(s: Ledger): (r: Ledger)
    ensures |r.accounts| == |SeedIds|
    ensures forall j :: 0 <= j < |r.accounts| ==> r.accounts[j].id in SeedIds && r.accounts[j].balance == 0
    ensures r.transactions == [] && r.budgets == []
    ensures r == Initial
  {
    Initial
  }

  /**
   * Sum of all account balances, folded left to right from 0; it is the
   * recursive sum of balances the rest of the model reasons with.
   */
  function TotalBalance(s: Ledger): (r: int)
    ensures r == SumBalances(s.accounts)
  {
    ReduceBalancesIsSum(0, s.accounts);
    ReduceBalances(0, s.accounts)
  }

  /**
   * Picks the income transactions dated in `currentMonth` and folds their
   * amounts from 0; the result is the signed month total for income.
   */
  function MonthlyIncome(s: Ledger, currentMonth: YearMonth): (r: int)
    ensures r == SumOf(s.transactions, MonthTotal(Income, currentMonth))
  {
    var picked := Selected(s.transactions, MonthTotal(Income, currentMonth));
    SumOfIsSelectedSum(s.transactions, MonthTotal(Income, currentMonth));
    ReduceAmountsIsSum(0, picked);
    ReduceAmounts(0, picked)
  }

  /**
   * Picks the expense transactions dated in `currentMonth` and folds their
   * amounts from 0; the result is the signed month total for expenses.
   */
  function MonthlyExpenses(s: Ledger, currentMonth: YearMonth): (r: int)
    ensures r == SumOf(s.transactions, MonthTotal(Expense, currentMonth))
  {
    var picked := Selected(s.transactions, MonthTotal(Expense, currentMonth));
    SumOfIsSelectedSum(s.transactions, MonthTotal(Expense, currentMonth));
    ReduceAmountsIsSum(0, picked);
    ReduceAmounts(0, picked)
  }
}
