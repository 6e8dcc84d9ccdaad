/**
 * The ledger invariants (unique account ids, unique transaction ids, one
 * budget per category and month) and the operations that keep them, given
 * that every id an operation hands out is fresh. Also: the seed accounts
 * survive every removal.
 */
module Invariants {
  import opened Types
  import opened Lookup
  import opened Engine
  import opened Budgets

  /** A transaction whose id no other carries can go in front of a list with unique ids. */
  lemma UniqueTxIdsCons(t: Transaction, txs: seq<Transaction>)
    requires UniqueTxIds(txs)
    requires forall j :: 0 <= j < |txs| ==> txs[j].id != t.id
    ensures UniqueTxIds([t] + txs)
  {
    var r := [t] + txs;
    forall i, j | 0 <= i < j < |r|
      ensures r[i].id != r[j].id
    {
      assert r[j] == txs[j - 1];
      if i > 0 {
        assert r[i] == txs[i - 1];
      }
    }
  }

  /** An account whose id no other carries can go in front of a list with unique ids. */
  lemma UniqueAccountIdsCons(a: Account, accounts: seq<Account>)
    requires UniqueAccountIds(accounts)
    requires forall j :: 0 <= j < |accounts| ==> accounts[j].id != a.id
    ensures UniqueAccountIds([a] + accounts)
  {
    var r := [a] + accounts;
    forall i, j | 0 <= i < j < |r|
      ensures r[i].id != r[j].id
    {
      assert r[j] == accounts[j - 1];
      if i > 0 {
        assert r[i] == accounts[i - 1];
      }
    }
  }

  /** Dropping transactions by id keeps ids unique. */
  lemma {:induction false} RemoveIdKeepsUnique(txs: seq<Transaction>, id: Id)
    requires UniqueTxIds(txs)
    ensures UniqueTxIds(RemoveId(txs, id))
  {
    if |txs| > 0 {
      var rest := txs[1..];
      assert UniqueTxIds(rest);
      RemoveIdKeepsUnique(rest, id);
      var tail := RemoveId(rest, id);
      if txs[0].id != id {
        forall j | 0 <= j < |tail|
          ensures tail[j].id != txs[0].id
        {
          assert tail[j] in tail;
          assert tail[j] in rest;
        }
        UniqueTxIdsCons(txs[0], tail);
      } else {
        assert RemoveId(txs, id) == [] + tail;
      }
    }
  }

  /** Dropping accounts by id keeps ids unique. */
  lemma {:induction false} WithoutAccountKeepsUnique(accounts: seq<Account>, id: Id)
    requires UniqueAccountIds(accounts)
    ensures UniqueAccountIds(WithoutAccount(accounts, id))
  {
    if |accounts| > 0 {
      var rest := accounts[1..];
      assert UniqueAccountIds(rest);
      WithoutAccountKeepsUnique(rest, id);
      var tail := WithoutAccount(rest, id);
      if accounts[0].id != id {
        forall j | 0 <= j < |tail|
          ensures tail[j].id != accounts[0].id
        {
          assert tail[j] in tail;
          assert tail[j] in rest;
        }
        UniqueAccountIdsCons(accounts[0], tail);
      } else {
        assert WithoutAccount(accounts, id) == [] + tail;
      }
    }
  }

  /** A credit changes a balance, never an id. */
  lemma CreditKeepsIds(accounts: seq<Account>, id: Id, delta: int)
    requires UniqueAccountIds(accounts)
    ensures UniqueAccountIds(Credit(accounts, id, delta))
  {
    CreditEffect(accounts, id, delta);
  }

  /** Adding to spent changes a total, never a key. */
  lemma AddSpentKeepsKeys(budgets: seq<Budget>, category: Category, month: YearMonth, delta: int)
    requires UniqueBudgetKeys(budgets)
    ensures UniqueBudgetKeys(AddSpent(budgets, category, month, delta))
  {
    AddSpentEffect(budgets, category, month, delta);
  }

  /** Adding a transaction with a fresh id keeps the ledger valid. */
  lemma AddTransactionValid(s: Ledger, t: Transaction, currentMonth: YearMonth)
    requires Valid(s)
    requires !TxIdUsed(s.transactions, t.id)
    ensures Valid(AddTransaction(s, t, currentMonth))
  {
    CreditKeepsIds(s.accounts, t.accountId, Signed(t));
    AddSpentKeepsKeys(s.budgets, t.category, currentMonth, t.amount);
    UniqueTxIdsCons(t, s.transactions);
  }

  /** Changing balances only keeps account ids unique. */
  lemma BalancesOnlyKeepUnique(accounts: seq<Account>, r: seq<Account>)
    requires UniqueAccountIds(accounts)
    requires |r| == |accounts|
    requires forall j :: 0 <= j < |r| ==> SameButBalance(accounts[j], r[j])
    ensures UniqueAccountIds(r)
  {
    forall i, j | 0 <= i < j < |r|
      ensures r[i].id != r[j].id
    {
      assert SameButBalance(accounts[i], r[i]) && SameButBalance(accounts[j], r[j]);
    }
  }

  /** Changing spent totals only keeps budget keys unique. */
  lemma SpentOnlyKeepsUnique(budgets: seq<Budget>, r: seq<Budget>)
    requires UniqueBudgetKeys(budgets)
    requires |r| == |budgets|
    requires forall j :: 0 <= j < |r| ==> SameButSpent(budgets[j], r[j])
    ensures UniqueBudgetKeys(r)
  {
    forall i, j | 0 <= i < j < |r|
      ensures r[i].category != r[j].category || r[i].month != r[j].month
    {
      assert SameButSpent(budgets[i], r[i]) && SameButSpent(budgets[j], r[j]);
    }
  }

  /** Replacing transactions by one that keeps their id keeps ids unique. */
  lemma ReplaceIdKeepsUnique(txs: seq<Transaction>, id: Id, u: Transaction)
    requires UniqueTxIds(txs)
    requires u.id == id
    ensures UniqueTxIds(ReplaceId(txs, id, u))
  {
    var r := ReplaceId(txs, id, u);
    forall i, j | 0 <= i < j < |r|
      ensures r[i].id != r[j].id
    {
      assert r[i].id == txs[i].id && r[j].id == txs[j].id;
    }
  }

  /** Editing a transaction keeps the ledger valid. */
  lemma UpdateTransactionValid(s: Ledger, id: Id, p: Patch, currentMonth: YearMonth)
    requires Valid(s)
    ensures Valid(UpdateTransaction(s, id, p, currentMonth))
  {
    if TxIdUsed(s.transactions, id) {
      var r := UpdateTransaction(s, id, p, currentMonth);
      var before := TxById(s.transactions, id);
      var after := Merge(before, p);
      UpdateFound(s, id, p, currentMonth);
      assert UniqueAccountIds(r.accounts) by {
        if TouchesBalances(p) {
          BalancesOnlyKeepUnique(s.accounts, r.accounts);
        }
      }
      assert UniqueTxIds(r.transactions) by {
        ReplaceIdKeepsUnique(s.transactions, id, after);
      }
      assert UniqueBudgetKeys(r.budgets) by {
        if TouchesBudgets(p) {
          SpentOnlyKeepsUnique(s.budgets, r.budgets);
        }
      }
    }
  }

  /** Deleting a transaction keeps the ledger valid. */
  lemma DeleteTransactionValid(s: Ledger, id: Id, currentMonth: YearMonth)
    requires Valid(s)
    ensures Valid(DeleteTransaction(s, id, currentMonth))
  {
    if TxIdUsed(s.transactions, id) {
      var r := DeleteTransaction(s, id, currentMonth);
      var t := TxById(s.transactions, id);
      DeleteFound(s, id, currentMonth);
      assert UniqueAccountIds(r.accounts) by {
        CreditKeepsIds(s.accounts, t.accountId, -Signed(t));
      }
      assert UniqueBudgetKeys(r.budgets) by {
        AddSpentKeepsKeys(s.budgets, t.category, currentMonth, -t.amount);
      }
      assert UniqueTxIds(r.transactions) by {
        RemoveIdKeepsUnique(s.transactions, id);
      }
    }
  }

  /** Adding an account with a fresh id (and, when it seeds history, a fresh transaction id) keeps the ledger valid. */
  lemma AddAccountValid(s: Ledger, account: Account, createInitialTransaction: bool, txId: Id, nowMonth: YearMonth)
    requires Valid(s)
    requires !AccountIdUsed(s.accounts, account.id)
    requires SeedsHistory(account, createInitialTransaction) ==> !TxIdUsed(s.transactions, txId)
    ensures Valid(AddAccount(s, account, createInitialTransaction, txId, nowMonth))
  {
    var r := AddAccount(s, account, createInitialTransaction, txId, nowMonth);
    forall i, j | 0 <= i < j < |r.accounts|
      ensures r.accounts[i].id != r.accounts[j].id
    {
      if j == |s.accounts| {
        assert r.accounts[j] == account;
        assert r.accounts[i] == s.accounts[i];
      }
    }
    if SeedsHistory(account, createInitialTransaction) {
      UniqueTxIdsCons(OpeningTransaction(account, txId, nowMonth), s.transactions);
    }
  }

  /** Removing an account keeps the ledger valid. */
  lemma RemoveAccountValid(s: Ledger, id: Id)
    requires Valid(s)
    ensures Valid(RemoveAccount(s, id))
  {
    WithoutAccountKeepsUnique(s.accounts, id);
  }

  /** Updating a budget keeps the ledger valid. */
  lemma UpdateBudgetValid(s: Ledger, category: Category, limit: int, currentMonth: YearMonth, freshId: Id)
    requires Valid(s)
    ensures Valid(UpdateBudget(s, category, limit, currentMonth, freshId))
  {
    UpdateBudgetKeepsKeysUnique(s, category, limit, currentMonth, freshId);
  }

  /** The first-run state, and hence the state after a reset, is valid. */
  lemma InitialValid()
    ensures Valid(Initial)
    ensures forall s :: Valid(ResetAllData(s))
  {
  }

  /**
   * No removal ever loses a seed account: whatever `id` is, every account
   * carrying a seed id is still there afterwards.
   */
  lemma RemoveAccountKeepsSeeds(s: Ledger, id: Id)
    ensures forall a :: a in s.accounts && a.id in SeedIds ==> a in RemoveAccount(s, id).accounts
  {
  }
}
