/**
 * The aggregate queries: what the month totals and a budget's recomputed
 * spent total select and add up, and how the total balance and the month
 * totals move under each operation.
 */
module Queries {
  import opened Types
  import opened Lookup
  import opened Sums
  import opened Engine
  import opened Edits

  /**
   * The spent total a budget update stores is the sum of the amounts of the
   * category's expenses dated in the current month.
   */
  lemma UpdateBudgetSpentSelects(s: Ledger, category: Category, limit: int, currentMonth: YearMonth, freshId: Id)
    ensures var r := UpdateBudget(s, category, limit, currentMonth, freshId);
      r.budgets[BudgetIndex(r.budgets, category, currentMonth).value].spent
      == SumAmounts(Selected(s.transactions, MonthSpend(category, currentMonth)))
  {
    SumOfIsSelectedSum(s.transactions, MonthSpend(category, currentMonth));
  }

  // ---------------------------------------------------------------------------
  // How the total balance moves
  // ---------------------------------------------------------------------------

  /** Adding a transaction moves the total by its signed amount, if some account takes it. */
  lemma TotalBalanceAfterAdd(s: Ledger, t: Transaction, currentMonth: YearMonth)
    ensures TotalBalance(AddTransaction(s, t, currentMonth))
         == TotalBalance(s) + (if AccountIdUsed(s.accounts, t.accountId) then Signed(t) else 0)
  {
    SumBalancesCredit(s.accounts, t.accountId, Signed(t));
  }

  /** Deleting a transaction moves the total back by its signed amount, if some account took it. */
  lemma TotalBalanceAfterDelete(s: Ledger, id: Id, currentMonth: YearMonth)
    requires TxIdUsed(s.transactions, id)
    ensures var t := TxById(s.transactions, id);
      TotalBalance(DeleteTransaction(s, id, currentMonth))
      == TotalBalance(s) - (if AccountIdUsed(s.accounts, t.accountId) then Signed(t) else 0)
  {
    var t := TxById(s.transactions, id);
    DeleteFound(s, id, currentMonth);
    SumBalancesCredit(s.accounts, t.accountId, -Signed(t));
  }

  /** A credit keeps every id, so the same ids are in use afterwards. */
  lemma CreditKeepsIdsUsed(accounts: seq<Account>, id: Id, delta: int, other: Id)
    ensures AccountIdUsed(Credit(accounts, id, delta), other) == AccountIdUsed(accounts, other)
  {
    var r := Credit(accounts, id, delta);
    CreditEffect(accounts, id, delta);
    if AccountIdUsed(accounts, other) {
      var j :| 0 <= j < |accounts| && accounts[j].id == other;
      assert r[j].id == other;
    }
  }

  /**
   * Revisiting balances moves their sum by the new signed amount minus the
   * old, each counted only if its account exists.
   */
  lemma SumBalancesRebalance(accounts: seq<Account>, before: Transaction, after: Transaction)
    ensures SumBalances(Rebalance(accounts, before, after))
         == SumBalances(accounts)
            - (if AccountIdUsed(accounts, before.accountId) then Signed(before) else 0)
            + (if AccountIdUsed(accounts, after.accountId) then Signed(after) else 0)
  {
    var reversed := Credit(accounts, before.accountId, -Signed(before));
    var out := if AccountIdUsed(accounts, before.accountId) then Signed(before) else 0;
    var back := if AccountIdUsed(accounts, after.accountId) then Signed(after) else 0;
    assert SumBalances(reversed) == SumBalances(accounts) - out by {
      SumBalancesCredit(accounts, before.accountId, -Signed(before));
    }
    assert SumBalances(Credit(reversed, after.accountId, Signed(after))) == SumBalances(reversed) + back by {
      SumBalancesCredit(reversed, after.accountId, Signed(after));
      CreditKeepsIdsUsed(accounts, before.accountId, -Signed(before), after.accountId);
    }
    RebalanceBranchesAgree(accounts, before, after);
  }

  /**
   * An edit that revisits balances moves the total by the new signed amount
   * minus the old, each counted only if its account exists.
   */
  lemma TotalBalanceAfterUpdate(s: Ledger, id: Id, p: Patch, currentMonth: YearMonth)
    requires TxIdUsed(s.transactions, id)
    requires TouchesBalances(p)
    ensures var before := TxById(s.transactions, id);
      var after := Merge(before, p);
      TotalBalance(UpdateTransaction(s, id, p, currentMonth))
      == TotalBalance(s)
         - (if AccountIdUsed(s.accounts, before.accountId) then Signed(before) else 0)
         + (if AccountIdUsed(s.accounts, after.accountId) then Signed(after) else 0)
  {
    UpdateFound(s, id, p, currentMonth);
    SumBalancesRebalance(s.accounts, TxById(s.transactions, id), Merge(TxById(s.transactions, id), p));
  }

  /** Adding an account adds its opening balance to the total, once. */
  lemma TotalBalanceAfterAddAccount(s: Ledger, account: Account, createInitialTransaction: bool, txId: Id, nowMonth: YearMonth)
    ensures TotalBalance(AddAccount(s, account, createInitialTransaction, txId, nowMonth))
         == TotalBalance(s) + account.balance
  {
    SumBalancesAppend(s.accounts, account);
  }

  /** The balance of the first account carrying `id`, or 0 when none does. */
  function FoundBalance(accounts: seq<Account>, id: Id): int {
    match AccountIndex(accounts, id)
    case None => 0
    case Some(k) => accounts[k].balance
  }

  /** Dropping the accounts carrying `id` (ids unique) takes off exactly the balance the lookup finds. */
  lemma {:induction false} SumBalancesWithoutFound(accounts: seq<Account>, id: Id)
    requires UniqueAccountIds(accounts)
    ensures SumBalances(WithoutAccount(accounts, id)) == SumBalances(accounts) - FoundBalance(accounts, id)
  {
    if |accounts| > 0 {
      var head := accounts[0];
      var rest := accounts[1..];
      assert SumBalances(accounts) == head.balance + SumBalances(rest);
      if head.id == id {
        assert FoundBalance(accounts, id) == head.balance;
        assert WithoutAccount(rest, id) == rest by {
          forall j | 0 <= j < |rest|
            ensures rest[j].id != id
          {
            assert rest[j] == accounts[j + 1];
          }
          WithoutAccountAbsent(rest, id);
        }
        assert WithoutAccount(accounts, id) == [] + WithoutAccount(rest, id) == rest;
      } else {
        var tail := WithoutAccount(rest, id);
        assert SumBalances(WithoutAccount(accounts, id)) == head.balance + SumBalances(tail) by {
          assert WithoutAccount(accounts, id) == [head] + tail;
          assert ([head] + tail)[1..] == tail;
        }
        assert FoundBalance(accounts, id) == FoundBalance(rest, id) by {
          match AccountIndex(rest, id)
          case None =>
          case Some(k) =>
            assert AccountIndex(accounts, id) == Some(k + 1);
            assert accounts[k + 1] == rest[k];
        }
        assert UniqueAccountIds(rest);
        SumBalancesWithoutFound(rest, id);
      }
    }
  }

  /** Dropping the one account carrying `id` (ids unique) takes exactly its balance off the sum. */
  lemma SumBalancesWithout(accounts: seq<Account>, id: Id)
    requires UniqueAccountIds(accounts)
    ensures SumBalances(WithoutAccount(accounts, id))
         == SumBalances(accounts) - (if AccountIdUsed(accounts, id) then accounts[AccountIndex(accounts, id).value].balance else 0)
  {
    SumBalancesWithoutFound(accounts, id);
    if !AccountIdUsed(accounts, id) {
      assert AccountIndex(accounts, id).None?;
    }
  }

  /**
   * Removing a non-seed account (ids unique) takes its balance off the total;
   * a seed id, or an id no account carries, leaves the total as it was.
   */
  lemma TotalBalanceAfterRemoveAccount(s: Ledger, id: Id)
    requires UniqueAccountIds(s.accounts)
    ensures TotalBalance(RemoveAccount(s, id))
         == TotalBalance(s)
            - (if id !in SeedIds && AccountIdUsed(s.accounts, id)
               then s.accounts[AccountIndex(s.accounts, id).value].balance else 0)
  {
    if id !in SeedIds {
      SumBalancesWithout(s.accounts, id);
    }
  }

  /** Removing by id from a list with one more account at the end removes from the list, then from the end. */
  lemma WithoutAccountAppend(accounts: seq<Account>, a: Account, id: Id)
    ensures WithoutAccount(accounts + [a], id)
         == WithoutAccount(accounts, id) + (if a.id == id then [] else [a])
  {
    WithoutAccountConcat(accounts, [a], id);
    assert [a][1..] == [];
    assert WithoutAccount([a], id) == (if a.id == id then [] else [a]) + WithoutAccount([], id);
  }

  /**
   * Removing an account right after adding it without an opening transaction
   * restores the ledger, provided its id is new and not a seed id.
   */
  lemma AddThenRemoveAccount(s: Ledger, account: Account, txId: Id, nowMonth: YearMonth)
    requires !AccountIdUsed(s.accounts, account.id)
    requires account.id !in SeedIds
    ensures RemoveAccount(AddAccount(s, account, false, txId, nowMonth), account.id) == s
  {
    WithoutAccountAppend(s.accounts, account, account.id);
    WithoutAccountAbsent(s.accounts, account.id);
  }

  // ---------------------------------------------------------------------------
  // How the month totals move
  // ---------------------------------------------------------------------------

  /** Adding a transaction adds its amount to the month total of its kind, if it is dated in that month. */
  lemma MonthTotalsAfterAdd(s: Ledger, t: Transaction, currentMonth: YearMonth, month: YearMonth)
    ensures var r := AddTransaction(s, t, currentMonth);
      && MonthlyIncome(r, month)
         == MonthlyIncome(s, month) + (if t.kind == Income && t.month == month then t.amount else 0)
      && MonthlyExpenses(r, month)
         == MonthlyExpenses(s, month) + (if t.kind == Expense && t.month == month then t.amount else 0)
  {
    SumOfCons(t, s.transactions, MonthTotal(Income, month));
    SumOfCons(t, s.transactions, MonthTotal(Expense, month));
  }

  /** Deleting a transaction (ids unique) takes its amount off the month total of its kind. */
  lemma MonthTotalsAfterDelete(s: Ledger, id: Id, currentMonth: YearMonth, month: YearMonth)
    requires UniqueTxIds(s.transactions)
    requires TxIdUsed(s.transactions, id)
    ensures var t := TxById(s.transactions, id);
      var r := DeleteTransaction(s, id, currentMonth);
      && MonthlyIncome(r, month)
         == MonthlyIncome(s, month) - (if t.kind == Income && t.month == month then t.amount else 0)
      && MonthlyExpenses(r, month)
         == MonthlyExpenses(s, month) - (if t.kind == Expense && t.month == month then t.amount else 0)
  {
    var k := TxIndex(s.transactions, id).value;
    DeleteFound(s, id, currentMonth);
    SumOfRemoveId(s.transactions, k, MonthTotal(Income, month));
    SumOfRemoveId(s.transactions, k, MonthTotal(Expense, month));
  }

  /**
   * Adding an account shows up in the month totals only through its seeded
   * opening transaction: the income of the month it is dated in rises by the
   * opening balance, and expenses never move.
   */
  lemma MonthTotalsAfterAddAccount(s: Ledger, account: Account, createInitialTransaction: bool, txId: Id, nowMonth: YearMonth, month: YearMonth)
    ensures var r := AddAccount(s, account, createInitialTransaction, txId, nowMonth);
      && MonthlyIncome(r, month)
         == MonthlyIncome(s, month)
            + (if SeedsHistory(account, createInitialTransaction) && nowMonth == month then account.balance else 0)
      && MonthlyExpenses(r, month) == MonthlyExpenses(s, month)
  {
    if SeedsHistory(account, createInitialTransaction) {
      var opening := OpeningTransaction(account, txId, nowMonth);
      SumOfCons(opening, s.transactions, MonthTotal(Income, month));
      SumOfCons(opening, s.transactions, MonthTotal(Expense, month));
    }
  }

  /** After a reset every total is zero and the ledger is back at its first-run state. */
  lemma ResetTotals(s: Ledger, month: YearMonth)
    ensures ResetAllData(s) == Initial
    ensures TotalBalance(ResetAllData(s)) == 0
    ensures MonthlyIncome(ResetAllData(s), month) == 0
    ensures MonthlyExpenses(ResetAllData(s), month) == 0
  {
    assert SeedAccounts[1..][1..][1..] == [];
  }
}
