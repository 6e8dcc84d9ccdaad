/**
 * Balance conservation: an account's balance minus the net of the
 * transactions that name it (income counted up, expense counted down) is left
 * where it was by every transaction operation. With ids unique, this is what
 * "the balance is explained by the history" means once the opening balance is
 * set aside.
 */
module Conservation {
  import opened Types
  import opened Lookup
  import opened Sums
  import opened Engine
  import opened Effects
  import opened Edits

  /** How far the balance of the account at `j` is from the net of the transactions naming it. */
  function Drift(s: Ledger, j: nat): int
    requires j < |s.accounts|
  {
    s.accounts[j].balance - SumOf(s.transactions, NetOf(s.accounts[j].id))
  }

  /** `r` has the same accounts, in the same places, each as far from its history as in `s`. */
  predicate DriftKept(s: Ledger, r: Ledger) {
    && |r.accounts| == |s.accounts|
    && forall j :: 0 <= j < |s.accounts| ==>
         r.accounts[j].id == s.accounts[j].id && Drift(r, j) == Drift(s, j)
  }

  /** Every account's balance is exactly the net of the transactions naming it. */
  predicate Balanced(s: Ledger) {
    forall j :: 0 <= j < |s.accounts| ==> Drift(s, j) == 0
  }

  /** Adding a transaction keeps every account's drift (account ids unique). */
  lemma AddTransactionConserves(s: Ledger, t: Transaction, currentMonth: YearMonth)
    requires UniqueAccountIds(s.accounts)
    ensures DriftKept(s, AddTransaction(s, t, currentMonth))
  {
    var r := AddTransaction(s, t, currentMonth);
    AddTransactionAccounts(s, t, currentMonth);
    forall j | 0 <= j < |s.accounts|
      ensures r.accounts[j].id == s.accounts[j].id && Drift(r, j) == Drift(s, j)
    {
      FirstAccountUnique(s.accounts, j, t.accountId);
      SumOfCons(t, s.transactions, NetOf(s.accounts[j].id));
    }
  }

  /** Deleting a transaction keeps every account's drift (account and transaction ids unique). */
  lemma DeleteTransactionConserves(s: Ledger, id: Id, currentMonth: YearMonth)
    requires UniqueAccountIds(s.accounts)
    requires UniqueTxIds(s.transactions)
    ensures DriftKept(s, DeleteTransaction(s, id, currentMonth))
  {
    if TxIdUsed(s.transactions, id) {
      var r := DeleteTransaction(s, id, currentMonth);
      var k := TxIndex(s.transactions, id).value;
      var t := s.transactions[k];
      DeleteFound(s, id, currentMonth);
      DeleteTransactionAccounts(s, id, currentMonth);
      forall j | 0 <= j < |s.accounts|
        ensures r.accounts[j].id == s.accounts[j].id && Drift(r, j) == Drift(s, j)
      {
        FirstAccountUnique(s.accounts, j, t.accountId);
        SumOfRemoveId(s.transactions, k, NetOf(s.accounts[j].id));
      }
    }
  }

  /**
   * Balance step of an edit as a whole (account ids unique): each account
   * loses what `before` contributed to it and gains what the edited record
   * contributes; when the edit leaves amount, account and kind alone, the two
   * contributions are equal.
   */
  lemma UpdateBalanceMoves(accounts: seq<Account>, before: Transaction, p: Patch)
    requires UniqueAccountIds(accounts)
    ensures var after := Merge(before, p);
      var r := if TouchesBalances(p) then Rebalance(accounts, before, after) else accounts;
      && |r| == |accounts|
      && forall j :: 0 <= j < |accounts| ==>
           && r[j].id == accounts[j].id
           && r[j].balance == accounts[j].balance
                - Weight(NetOf(accounts[j].id), before) + Weight(NetOf(accounts[j].id), after)
  {
    var after := Merge(before, p);
    if TouchesBalances(p) {
      RebalanceEffect(accounts, before, after);
    } else {
      forall j | 0 <= j < |accounts|
        ensures Weight(NetOf(accounts[j].id), after) == Weight(NetOf(accounts[j].id), before)
      {
      }
    }
  }

  /** Editing a transaction keeps every account's drift (account and transaction ids unique). */
  lemma UpdateTransactionConserves(s: Ledger, id: Id, p: Patch, currentMonth: YearMonth)
    requires UniqueAccountIds(s.accounts)
    requires UniqueTxIds(s.transactions)
    ensures DriftKept(s, UpdateTransaction(s, id, p, currentMonth))
  {
    if TxIdUsed(s.transactions, id) {
      var r := UpdateTransaction(s, id, p, currentMonth);
      var k := TxIndex(s.transactions, id).value;
      var before := s.transactions[k];
      var after := Merge(before, p);
      assert r.transactions == ReplaceId(s.transactions, s.transactions[k].id, after)
          && r.accounts == (if TouchesBalances(p) then Rebalance(s.accounts, before, after) else s.accounts) by {
        UpdateFound(s, id, p, currentMonth);
      }
      UpdateBalanceMoves(s.accounts, before, p);
      forall j | 0 <= j < |s.accounts|
        ensures r.accounts[j].id == s.accounts[j].id && Drift(r, j) == Drift(s, j)
      {
        SumOfReplaceId(s.transactions, k, after, NetOf(s.accounts[j].id));
      }
    }
  }

  /**
   * Adding an account never double-counts its opening balance. Existing
   * accounts keep their drift; the new account's balance is fully explained by
   * the seeded income transaction when one is recorded, and is otherwise an
   * unexplained opening balance (fresh account id, not named by any existing
   * transaction; account ids unique).
   */
  lemma AddAccountConserves(s: Ledger, account: Account, createInitialTransaction: bool, txId: Id, nowMonth: YearMonth)
    requires UniqueAccountIds(s.accounts)
    requires !AccountIdUsed(s.accounts, account.id)
    requires forall j :: 0 <= j < |s.transactions| ==> s.transactions[j].accountId != account.id
    ensures var r := AddAccount(s, account, createInitialTransaction, txId, nowMonth);
      && |r.accounts| == |s.accounts| + 1
      && (forall j :: 0 <= j < |s.accounts| ==> Drift(r, j) == Drift(s, j))
      && Drift(r, |s.accounts|) == (if SeedsHistory(account, createInitialTransaction) then 0 else account.balance)
  {
    var r := AddAccount(s, account, createInitialTransaction, txId, nowMonth);
    var opening := OpeningTransaction(account, txId, nowMonth);
    SumOfWeightless(s.transactions, NetOf(account.id));
    assert r.accounts[|s.accounts|] == account;
    if SeedsHistory(account, createInitialTransaction) {
      SumOfCons(opening, s.transactions, NetOf(account.id));
      forall j | 0 <= j < |s.accounts|
        ensures Drift(r, j) == Drift(s, j)
      {
        assert r.accounts[j] == s.accounts[j];
        SumOfCons(opening, s.transactions, NetOf(s.accounts[j].id));
      }
    } else {
      forall j | 0 <= j < |s.accounts|
        ensures Drift(r, j) == Drift(s, j)
      {
        assert r.accounts[j] == s.accounts[j];
      }
    }
  }

  /** Drift that is kept carries balance over from `s` to `r`. */
  lemma StaysBalanced(s: Ledger, r: Ledger)
    requires Balanced(s)
    requires DriftKept(s, r)
    ensures Balanced(r)
  {
    forall j | 0 <= j < |r.accounts|
      ensures Drift(r, j) == 0
    {
      assert Drift(r, j) == Drift(s, j);
    }
  }

  /** A balanced ledger stays balanced when a transaction is added (account ids unique). */
  lemma AddTransactionKeepsBalanced(s: Ledger, t: Transaction, currentMonth: YearMonth)
    requires UniqueAccountIds(s.accounts)
    requires Balanced(s)
    ensures Balanced(AddTransaction(s, t, currentMonth))
  {
    AddTransactionConserves(s, t, currentMonth);
    StaysBalanced(s, AddTransaction(s, t, currentMonth));
  }

  /** A balanced ledger stays balanced when a transaction is edited (account and transaction ids unique). */
  lemma UpdateTransactionKeepsBalanced(s: Ledger, id: Id, p: Patch, currentMonth: YearMonth)
    requires UniqueAccountIds(s.accounts)
    requires UniqueTxIds(s.transactions)
    requires Balanced(s)
    ensures Balanced(UpdateTransaction(s, id, p, currentMonth))
  {
    UpdateTransactionConserves(s, id, p, currentMonth);
    StaysBalanced(s, UpdateTransaction(s, id, p, currentMonth));
  }

  /** A balanced ledger stays balanced when a transaction is deleted (account and transaction ids unique). */
  lemma DeleteTransactionKeepsBalanced(s: Ledger, id: Id, currentMonth: YearMonth)
    requires UniqueAccountIds(s.accounts)
    requires UniqueTxIds(s.transactions)
    requires Balanced(s)
    ensures Balanced(DeleteTransaction(s, id, currentMonth))
  {
    DeleteTransactionConserves(s, id, currentMonth);
    StaysBalanced(s, DeleteTransaction(s, id, currentMonth));
  }

  /**
   * Adding a fresh account to a balanced ledger keeps it balanced exactly when
   * the opening balance is zero or is recorded as a transaction.
   */
  lemma AddAccountKeepsBalanced(s: Ledger, account: Account, createInitialTransaction: bool, txId: Id, nowMonth: YearMonth)
    requires UniqueAccountIds(s.accounts)
    requires !AccountIdUsed(s.accounts, account.id)
    requires forall j :: 0 <= j < |s.transactions| ==> s.transactions[j].accountId != account.id
    requires Balanced(s)
    ensures Balanced(AddAccount(s, account, createInitialTransaction, txId, nowMonth))
        <==> SeedsHistory(account, createInitialTransaction) || account.balance == 0
  {
    var r := AddAccount(s, account, createInitialTransaction, txId, nowMonth);
    AddAccountConserves(s, account, createInitialTransaction, txId, nowMonth);
    if SeedsHistory(account, createInitialTransaction) || account.balance == 0 {
      forall j | 0 <= j < |r.accounts|
        ensures Drift(r, j) == 0
      {
        if j < |s.accounts| {
          assert Drift(s, j) == 0;
        }
      }
    } else {
      assert Drift(r, |s.accounts|) != 0;
    }
  }
}
