/**
 * Positional lookups and single-record edits the engine performs on its three
 * lists: find the first record with a key (as `findIndex` does), move one
 * account's balance or one budget's spent total, and drop or replace every
 * transaction carrying an id (as `filter` and `map` do).
 */
module Lookup {
  import opened Types

  // ---------------------------------------------------------------------------
  // First-match lookups
  // ---------------------------------------------------------------------------

  /** `j` is the first position of an account carrying `id`. */
  predicate FirstAccount(accounts: seq<Account>, j: int, id: Id) {
    && 0 <= j < |accounts|
    && accounts[j].id == id
    && forall i :: 0 <= i < j ==> accounts[i].id != id
  }

  /** `j` is the first position of the budget for (`category`, `month`). */
  predicate FirstBudget(budgets: seq<Budget>, j: int, category: Category, month: YearMonth) {
    && 0 <= j < |budgets|
    && budgets[j].category == category && budgets[j].month == month
    && forall i :: 0 <= i < j ==> budgets[i].category != category || budgets[i].month != month
  }

  /** The first position of an account carrying `id`, or `None` if there is none. */
  function AccountIndex(accounts: seq<Account>, id: Id): (r: Option<nat>)
    ensures r.Some? ==> FirstAccount(accounts, r.value, id)
    ensures r.None? <==> forall j :: 0 <= j < |accounts| ==> accounts[j].id != id
  {
    if |accounts| == 0 then None
    else if accounts[0].id == id then Some(0)
    else match AccountIndex(accounts[1..], id)
      case None => None
      case Some(k) => Some(k + 1)
  }

  /** The first position of a transaction carrying `id`, or `None` if there is none. */
  function TxIndex(txs: seq<Transaction>, id: Id): (r: Option<nat>)
    ensures r.Some? ==> r.value < |txs| && txs[r.value].id == id
    ensures r.Some? ==> forall i :: 0 <= i < r.value ==> txs[i].id != id
    ensures r.None? <==> !TxIdUsed(txs, id)
  {
    if |txs| == 0 then None
    else if txs[0].id == id then Some(0)
    else match TxIndex(txs[1..], id)
      case None => None
      case Some(k) => Some(k + 1)
  }

  /** The first transaction carrying `id`, which must exist. */
  function TxById(txs: seq<Transaction>, id: Id): (t: Transaction)
    requires TxIdUsed(txs, id)
    ensures t in txs && t.id == id
  {
    txs[TxIndex(txs, id).value]
  }

  /** A transaction at the front of the list is the one found by its id. */
  lemma TxByIdHead(t: Transaction, txs: seq<Transaction>)
    ensures TxIdUsed([t] + txs, t.id)
    ensures TxById([t] + txs, t.id) == t
  {
    assert ([t] + txs)[0] == t;
  }

  /** A position holding `id` with no earlier one is what the lookup returns. */
  lemma {:induction false} TxIndexFirst(txs: seq<Transaction>, k: nat, id: Id)
    requires k < |txs| && txs[k].id == id
    requires forall i :: 0 <= i < k ==> txs[i].id != id
    ensures TxIndex(txs, id) == Some(k)
  {
    if k > 0 {
      TxIndexFirst(txs[1..], k - 1, id);
    }
  }

  /** The first position of the budget for (`category`, `month`), or `None`. */
  function BudgetIndex(budgets: seq<Budget>, category: Category, month: YearMonth): (r: Option<nat>)
    ensures r.Some? ==> FirstBudget(budgets, r.value, category, month)
    ensures r.None? <==> forall j :: 0 <= j < |budgets| ==>
      budgets[j].category != category || budgets[j].month != month
  {
    if |budgets| == 0 then None
    else if budgets[0].category == category && budgets[0].month == month then Some(0)
    else match BudgetIndex(budgets[1..], category, month)
      case None => None
      case Some(k) => Some(k + 1)
  }

  /** Lookup by id sees only the ids, so balance edits never move it. */
  lemma {:induction false} AccountIndexByIds(a: seq<Account>, b: seq<Account>, id: Id)
    requires |a| == |b|
    requires forall j :: 0 <= j < |a| ==> a[j].id == b[j].id
    ensures AccountIndex(a, id) == AccountIndex(b, id)
  {
    if |a| > 0 && a[0].id != id {
      AccountIndexByIds(a[1..], b[1..], id);
    }
  }

  /** Lookup by (category, month) sees only those keys, so spent edits never move it. */
  lemma BudgetIndexByKeys(a: seq<Budget>, b: seq<Budget>, category: Category, month: YearMonth)
    requires |a| == |b|
    requires forall j :: 0 <= j < |a| ==> a[j].category == b[j].category && a[j].month == b[j].month
    ensures BudgetIndex(a, category, month) == BudgetIndex(b, category, month)
  {
    match BudgetIndex(a, category, month)
    case Some(k) =>
      assert FirstBudget(b, k, category, month);
      BudgetIndexIsFirst(b, k, category, month);
    case None =>
      assert forall j :: 0 <= j < |b| ==> b[j].category != category || b[j].month != month;
  }

  /** The lookup answers `j` exactly when `j` is the first position carrying `id`. */
  lemma AccountIndexIsFirst(accounts: seq<Account>, j: nat, id: Id)
    requires j < |accounts|
    ensures AccountIndex(accounts, id) == Some(j) <==> FirstAccount(accounts, j, id)
  {
    if FirstAccount(accounts, j, id) {
      var k := AccountIndex(accounts, id).value;
      assert accounts[k].id == id;
      assert k == j;
    }
  }

  /** The lookup answers `j` exactly when `j` is the first position of the budget for the key. */
  lemma BudgetIndexIsFirst(budgets: seq<Budget>, j: nat, category: Category, month: YearMonth)
    requires j < |budgets|
    ensures BudgetIndex(budgets, category, month) == Some(j) <==> FirstBudget(budgets, j, category, month)
  {
    if FirstBudget(budgets, j, category, month) {
      var k := BudgetIndex(budgets, category, month).value;
      assert budgets[k].category == category && budgets[k].month == month;
      assert k == j;
    }
  }

  // ---------------------------------------------------------------------------
  // Single-record edits
  // ---------------------------------------------------------------------------

  /** `b` is `a` with possibly a different balance. */
  predicate SameButBalance(a: Account, b: Account) {
    b == a.(balance := b.balance)
  }

  /** `b` is `a` with possibly a different spent total. */
  predicate SameButSpent(a: Budget, b: Budget) {
    b == a.(spent := b.spent)
  }

  /**
   * Adds `delta` to the balance of the first account carrying `id`; when no
   * account carries it, the list is returned unchanged.
   */
  function Credit(accounts: seq<Account>, id: Id, delta: int): (r: seq<Account>)
    ensures |r| == |accounts|
  {
    match AccountIndex(accounts, id)
    case None => accounts
    case Some(i) => accounts[i := accounts[i].(balance := accounts[i].balance + delta)]
  }

  /** A credit moves the balance of the account the lookup finds, and nothing else. */
  lemma CreditEffect(accounts: seq<Account>, id: Id, delta: int)
    ensures var r := Credit(accounts, id, delta);
      forall j :: 0 <= j < |r| ==>
        r[j] == accounts[j].(balance := accounts[j].balance + (if AccountIndex(accounts, id) == Some(j) then delta else 0))
  {
  }

  /**
   * Adds `delta` to the spent total of the first budget for (`category`,
   * `month`); when there is no such budget, the list is returned unchanged.
   */
  function AddSpent(budgets: seq<Budget>, category: Category, month: YearMonth, delta: int): (r: seq<Budget>)
    ensures |r| == |budgets|
  {
    match BudgetIndex(budgets, category, month)
    case None => budgets
    case Some(i) => budgets[i := budgets[i].(spent := budgets[i].spent + delta)]
  }

  /** Adding to spent moves the total of the budget the lookup finds, and nothing else. */
  lemma AddSpentEffect(budgets: seq<Budget>, category: Category, month: YearMonth, delta: int)
    ensures var r := AddSpent(budgets, category, month, delta);
      forall j :: 0 <= j < |r| ==>
        r[j] == budgets[j].(spent := budgets[j].spent + (if BudgetIndex(budgets, category, month) == Some(j) then delta else 0))
  {
  }

  /** Crediting and then debiting the same amount to the same id restores the list. */
  lemma CreditInverse(accounts: seq<Account>, id: Id, delta: int, back: int)
    requires back == -delta
    ensures Credit(Credit(accounts, id, delta), id, back) == accounts
  {
    var once := Credit(accounts, id, delta);
    var twice := Credit(once, id, back);
    CreditEffect(accounts, id, delta);
    CreditEffect(once, id, back);
    AccountIndexByIds(accounts, once, id);
    forall j | 0 <= j < |accounts|
      ensures twice[j] == accounts[j]
    {
      var a := accounts[j];
      var hit := AccountIndex(accounts, id) == Some(j);
      assert once[j] == a.(balance := a.balance + (if hit then delta else 0));
    }
  }

  /** Adding and then removing the same spent amount restores the list. */
  lemma AddSpentInverse(budgets: seq<Budget>, category: Category, month: YearMonth, delta: int, back: int)
    requires back == -delta
    ensures AddSpent(AddSpent(budgets, category, month, delta), category, month, back) == budgets
  {
    var once := AddSpent(budgets, category, month, delta);
    var twice := AddSpent(once, category, month, back);
    AddSpentEffect(budgets, category, month, delta);
    AddSpentEffect(once, category, month, back);
    BudgetIndexByKeys(budgets, once, category, month);
    forall j | 0 <= j < |budgets|
      ensures twice[j] == budgets[j]
    {
      var b := budgets[j];
      var hit := BudgetIndex(budgets, category, month) == Some(j);
      assert once[j] == b.(spent := b.spent + (if hit then delta else 0));
    }
  }

  // ---------------------------------------------------------------------------
  // Whole-list rewrites
  // ---------------------------------------------------------------------------

  /** Every transaction except those carrying `id`, in order. */
  function RemoveId(txs: seq<Transaction>, id: Id): (r: seq<Transaction>)
    ensures |r| <= |txs|
    ensures TxIdUsed(txs, id) ==> |r| < |txs|
    ensures forall t {:trigger t in r} :: t in r <==> t in txs && t.id != id
  {
    if |txs| == 0 then []
    else (if txs[0].id == id then [] else [txs[0]]) + RemoveId(txs[1..], id)
  }

  /** Every transaction carrying `id` replaced by `u`, the others kept in place. */
  function ReplaceId(txs: seq<Transaction>, id: Id, u: Transaction): (r: seq<Transaction>)
    ensures |r| == |txs|
    ensures forall j :: 0 <= j < |txs| ==> r[j] == (if txs[j].id == id then u else txs[j])
  {
    if |txs| == 0 then []
    else [if txs[0].id == id then u else txs[0]] + ReplaceId(txs[1..], id, u)
  }

  /**
   * After replacing the transactions carrying `id` by `u` (which keeps that
   * id), `u` is the one found by `id`, and replacing again changes nothing.
   */
  lemma ReplaceIdFound(txs: seq<Transaction>, id: Id, u: Transaction)
    requires TxIdUsed(txs, id)
    requires u.id == id
    ensures TxIdUsed(ReplaceId(txs, id, u), id)
    ensures TxById(ReplaceId(txs, id, u), id) == u
    ensures ReplaceId(ReplaceId(txs, id, u), id, u) == ReplaceId(txs, id, u)
  {
    var r := ReplaceId(txs, id, u);
    var k := TxIndex(txs, id).value;
    assert r[k] == u;
    forall i | 0 <= i < k
      ensures r[i].id != id
    {
      assert r[i] == txs[i];
    }
    TxIndexFirst(r, k, id);
  }

  /** Every account except those carrying `id`, in order. */
  function WithoutAccount(accounts: seq<Account>, id: Id): (r: seq<Account>)
    ensures |r| <= |accounts|
    ensures forall a {:trigger a in r} :: a in r <==> a in accounts && a.id != id
  {
    if |accounts| == 0 then []
    else (if accounts[0].id == id then [] else [accounts[0]]) + WithoutAccount(accounts[1..], id)
  }

  /** Removing an id no transaction carries leaves the list as it was. */
  lemma {:induction false} RemoveIdAbsent(txs: seq<Transaction>, id: Id)
    requires !TxIdUsed(txs, id)
    ensures RemoveId(txs, id) == txs
  {
    if |txs| > 0 {
      forall j | 0 <= j < |txs[1..]|
        ensures txs[1..][j].id != id
      {
        assert txs[1..][j] == txs[j + 1];
      }
      RemoveIdAbsent(txs[1..], id);
      assert txs == [txs[0]] + txs[1..];
    }
  }

  /** Removing a just-prepended transaction by its id, when no other carries it, gives back the rest. */
  lemma RemoveIdPrepended(t: Transaction, txs: seq<Transaction>)
    requires !TxIdUsed(txs, t.id)
    ensures RemoveId([t] + txs, t.id) == txs
  {
    assert ([t] + txs)[1..] == txs;
    RemoveIdAbsent(txs, t.id);
    assert RemoveId([t] + txs, t.id) == [] + RemoveId(txs, t.id);
  }

  /** Removing an id no account carries leaves the list as it was. */
  lemma {:induction false} WithoutAccountAbsent(accounts: seq<Account>, id: Id)
    requires !AccountIdUsed(accounts, id)
    ensures WithoutAccount(accounts, id) == accounts
  {
    if |accounts| > 0 {
      assert accounts[0].id != id;
      assert !AccountIdUsed(accounts[1..], id) by {
        forall j | 0 <= j < |accounts[1..]|
          ensures accounts[1..][j].id != id
        {
          assert accounts[1..][j] == accounts[j + 1];
        }
      }
      WithoutAccountAbsent(accounts[1..], id);
      assert accounts == [accounts[0]] + accounts[1..];
    }
  }

  /** Filtering out an id works piecewise: the survivors of `a` come first, in order, then those of `b`. */
  lemma {:induction false} RemoveIdConcat(a: seq<Transaction>, b: seq<Transaction>, id: Id)
    ensures RemoveId(a + b, id) == RemoveId(a, id) + RemoveId(b, id)
  {
    if |a| == 0 {
      assert a + b == b;
      assert RemoveId(a, id) == [];
      assert [] + RemoveId(b, id) == RemoveId(b, id);
    } else {
      var head := if a[0].id == id then [] else [a[0]];
      var rest := RemoveId(a[1..], id);
      assert (a + b)[0] == a[0];
      assert (a + b)[1..] == a[1..] + b;
      assert RemoveId(a + b, id) == head + RemoveId(a[1..] + b, id);
      RemoveIdConcat(a[1..], b, id);
      assert RemoveId(a, id) == head + rest;
      assert head + (rest + RemoveId(b, id)) == (head + rest) + RemoveId(b, id);
    }
  }

  /** Filtering out an account id works piecewise, keeping the order of the survivors. */
  lemma {:induction false} WithoutAccountConcat(a: seq<Account>, b: seq<Account>, id: Id)
    ensures WithoutAccount(a + b, id) == WithoutAccount(a, id) + WithoutAccount(b, id)
  {
    if |a| == 0 {
      assert a + b == b;
      assert WithoutAccount(a, id) == [];
      assert [] + WithoutAccount(b, id) == WithoutAccount(b, id);
    } else {
      var head := if a[0].id == id then [] else [a[0]];
      var rest := WithoutAccount(a[1..], id);
      assert (a + b)[0] == a[0];
      assert (a + b)[1..] == a[1..] + b;
      assert WithoutAccount(a + b, id) == head + WithoutAccount(a[1..] + b, id);
      WithoutAccountConcat(a[1..], b, id);
      assert WithoutAccount(a, id) == head + rest;
      assert head + (rest + WithoutAccount(b, id)) == (head + rest) + WithoutAccount(b, id);
    }
  }

  /**
   * With unique ids, deleting the id of the transaction at `k` closes the gap
   * at `k`: everything before and after it stays, in order.
   */
  lemma {:induction false} RemoveIdSlice(txs: seq<Transaction>, k: nat)
    requires UniqueTxIds(txs)
    requires k < |txs|
    ensures RemoveId(txs, txs[k].id) == txs[..k] + txs[k+1..]
  {
    var id := txs[k].id;
    var rest := txs[1..];
    if k == 0 {
      assert !TxIdUsed(rest, id) by {
        forall j | 0 <= j < |rest|
          ensures rest[j].id != id
        {
          assert rest[j] == txs[j + 1];
        }
      }
      RemoveIdAbsent(rest, id);
      assert RemoveId(txs, id) == [] + RemoveId(rest, id);
      assert txs[..0] + txs[1..] == rest;
    } else {
      assert rest[k - 1] == txs[k];
      RemoveIdSlice(rest, k - 1);
      assert RemoveId(txs, id) == [txs[0]] + RemoveId(rest, id);
      assert rest[..k - 1] == txs[1..k] && rest[k..] == txs[k+1..];
      assert txs[..k] == [txs[0]] + txs[1..k];
    }
  }

  /**
   * With unique ids, removing the id of the account at `k` closes the gap at
   * `k`: everything before and after it stays, in order.
   */
  lemma {:induction false} WithoutAccountSlice(accounts: seq<Account>, k: nat)
    requires UniqueAccountIds(accounts)
    requires k < |accounts|
    ensures WithoutAccount(accounts, accounts[k].id) == accounts[..k] + accounts[k+1..]
  {
    var id := accounts[k].id;
    var rest := accounts[1..];
    if k == 0 {
      assert !AccountIdUsed(rest, id) by {
        forall j | 0 <= j < |rest|
          ensures rest[j].id != id
        {
          assert rest[j] == accounts[j + 1];
        }
      }
      WithoutAccountAbsent(rest, id);
      assert WithoutAccount(accounts, id) == [] + WithoutAccount(rest, id);
      assert accounts[..0] + accounts[1..] == rest;
    } else {
      assert rest[k - 1] == accounts[k];
      WithoutAccountSlice(rest, k - 1);
      assert WithoutAccount(accounts, id) == [accounts[0]] + WithoutAccount(rest, id);
      assert rest[..k - 1] == accounts[1..k] && rest[k..] == accounts[k+1..];
      assert accounts[..k] == [accounts[0]] + accounts[1..k];
    }
  }

  /**
   * What removing an account id does to the list as a whole: nothing when no
   * account carries it, and with unique ids, closing the gap where it was.
   */
  lemma WithoutAccountShape(accounts: seq<Account>, id: Id)
    ensures !AccountIdUsed(accounts, id) ==> WithoutAccount(accounts, id) == accounts
    ensures UniqueAccountIds(accounts) ==>
      forall k :: 0 <= k < |accounts| && accounts[k].id == id ==>
        WithoutAccount(accounts, id) == accounts[..k] + accounts[k+1..]
  {
    if !AccountIdUsed(accounts, id) {
      WithoutAccountAbsent(accounts, id);
    }
    if UniqueAccountIds(accounts) {
      forall k | 0 <= k < |accounts| && accounts[k].id == id
        ensures WithoutAccount(accounts, id) == accounts[..k] + accounts[k+1..]
      {
        WithoutAccountSlice(accounts, k);
      }
    }
  }
}
