/**
 * Totals over the ledger's lists. Every total the engine keeps or reports is
 * a sum over the transaction list of one per-transaction weight, named here
 * by a `Measure`; account balances are summed separately.
 */
module Sums {
  import opened Types
  import opened Lookup

  /** What a transaction contributes to, and hence which weight it carries. */
  datatype Measure =
    | NetOf(accountId: Id)                  // signed effect on one account
    | TrackedSpend(category: Category)            // expense in a category, any month
    | MonthSpend(category: Category, month: YearMonth)  // expense in a category, one month
    | MonthTotal(kind: TxKind, month: YearMonth)   // every transaction of a kind, one month

  function Weight(m: Measure, t: Transaction): int {
    match m
    case NetOf(a) => if t.accountId == a then Signed(t) else 0
    case TrackedSpend(c) => if t.kind == Expense && t.category == c then t.amount else 0
    case MonthSpend(c, mo) =>
      if t.kind == Expense && t.category == c && t.month == mo then t.amount else 0
    case MonthTotal(k, mo) => if t.kind == k && t.month == mo then t.amount else 0
  }

  /** Sum of the weights of all transactions in the list. */
  function SumOf(txs: seq<Transaction>, m: Measure): int {
    if |txs| == 0 then 0 else Weight(m, txs[0]) + SumOf(txs[1..], m)
  }

  /** Sum of all account balances. */
  function SumBalances(accounts: seq<Account>): int {
    if |accounts| == 0 then 0 else accounts[0].balance + SumBalances(accounts[1..])
  }

  /** Prepending a transaction adds exactly its weight. */
  lemma SumOfCons(t: Transaction, txs: seq<Transaction>, m: Measure)
    ensures SumOf([t] + txs, m) == Weight(m, t) + SumOf(txs, m)
  {
    assert ([t] + txs)[1..] == txs;
  }

  /** Transactions that weigh nothing under a measure leave its sum at zero. */
  lemma {:induction false} SumOfWeightless(txs: seq<Transaction>, m: Measure)
    requires forall j :: 0 <= j < |txs| ==> Weight(m, txs[j]) == 0
    ensures SumOf(txs, m) == 0
  {
    if |txs| > 0 {
      SumOfWeightless(txs[1..], m);
    }
  }

  /**
   * With unique ids, dropping the transaction at `k` by its id subtracts
   * exactly its weight.
   */
  lemma {:induction false} SumOfRemoveId(txs: seq<Transaction>, k: nat, m: Measure)
    requires UniqueTxIds(txs)
    requires k < |txs|
    ensures SumOf(RemoveId(txs, txs[k].id), m) == SumOf(txs, m) - Weight(m, txs[k])
  {
    var id := txs[k].id;
    var rest := txs[1..];
    assert UniqueTxIds(rest);
    if k == 0 {
      forall j | 0 <= j < |rest|
        ensures rest[j].id != id
      {
        assert rest[j] == txs[j + 1];
      }
      RemoveIdAbsent(rest, id);
      assert RemoveId(txs, id) == [] + RemoveId(rest, id) == rest;
      assert SumOf(txs, m) == Weight(m, txs[0]) + SumOf(rest, m);
    } else {
      assert txs[0].id != id;
      assert rest[k - 1] == txs[k];
      SumOfRemoveId(rest, k - 1, m);
      SumOfCons(txs[0], RemoveId(rest, id), m);
    }
  }

  /**
   * With unique ids, replacing the transaction at `k` by `u` swaps its weight
   * for `u`'s.
   */
  lemma {:induction false} SumOfReplaceId(txs: seq<Transaction>, k: nat, u: Transaction, m: Measure)
    requires UniqueTxIds(txs)
    requires k < |txs|
    ensures SumOf(ReplaceId(txs, txs[k].id, u), m) == SumOf(txs, m) - Weight(m, txs[k]) + Weight(m, u)
  {
    var id := txs[k].id;
    var rest := txs[1..];
    var tail := ReplaceId(rest, id, u);
    var r := ReplaceId(txs, id, u);
    assert txs == [txs[0]] + rest;
    SumOfCons(txs[0], rest, m);
    if k == 0 {
      ReplaceIdUnused(rest, id, u);
      assert r == [u] + rest;
      SumOfCons(u, rest, m);
    } else {
      assert UniqueTxIds(rest);
      assert rest[k - 1] == txs[k];
      SumOfReplaceId(rest, k - 1, u, m);
      assert r == [txs[0]] + tail;
      SumOfCons(txs[0], tail, m);
    }
  }

  /** Replacing an id no transaction carries changes nothing. */
  lemma {:induction false} ReplaceIdUnused(txs: seq<Transaction>, id: Id, u: Transaction)
    requires forall j :: 0 <= j < |txs| ==> txs[j].id != id
    ensures ReplaceId(txs, id, u) == txs
  {
    if |txs| > 0 {
      assert forall j :: 0 <= j < |txs| - 1 ==> txs[1..][j].id != id;
      ReplaceIdUnused(txs[1..], id, u);
      assert txs == [txs[0]] + txs[1..];
    }
  }

  /** Moving one balance by `delta` moves the sum of balances by `delta`. */
  lemma {:induction false} SumBalancesBump(accounts: seq<Account>, i: nat, delta: int)
    requires i < |accounts|
    ensures SumBalances(accounts[i := accounts[i].(balance := accounts[i].balance + delta)])
         == SumBalances(accounts) + delta
  {
    var bumped := accounts[i := accounts[i].(balance := accounts[i].balance + delta)];
    if i == 0 {
      assert bumped[1..] == accounts[1..];
    } else {
      assert bumped[1..] == accounts[1..][i - 1 := accounts[i].(balance := accounts[i].balance + delta)];
      SumBalancesBump(accounts[1..], i - 1, delta);
    }
  }

  /** Appending an account adds its balance to the sum. */
  lemma {:induction false} SumBalancesAppend(accounts: seq<Account>, a: Account)
    ensures SumBalances(accounts + [a]) == SumBalances(accounts) + a.balance
  {
    if |accounts| > 0 {
      assert (accounts + [a])[1..] == accounts[1..] + [a];
      SumBalancesAppend(accounts[1..], a);
    }
  }

  /** A credit moves the sum of balances by its amount exactly when some account takes it. */
  lemma SumBalancesCredit(accounts: seq<Account>, id: Id, delta: int)
    ensures SumBalances(Credit(accounts, id, delta))
         == SumBalances(accounts) + (if AccountIdUsed(accounts, id) then delta else 0)
  {
    match AccountIndex(accounts, id)
    case None =>
      assert !AccountIdUsed(accounts, id);
    case Some(i) =>
      assert Credit(accounts, id, delta) == accounts[i := accounts[i].(balance := accounts[i].balance + delta)];
      SumBalancesBump(accounts, i, delta);
      assert accounts[i].id == id;
  }

  // ---------------------------------------------------------------------------
  // Select, then add up
  // ---------------------------------------------------------------------------

  /** Whether a transaction is one a month total or a spend total picks out. */
  predicate Selects(m: Measure, t: Transaction) {
    match m
    case NetOf(a) => t.accountId == a
    case TrackedSpend(c) => t.kind == Expense && t.category == c
    case MonthSpend(c, mo) => t.kind == Expense && t.category == c && t.month == mo
    case MonthTotal(k, mo) => t.kind == k && t.month == mo
  }

  /** The transactions `m` picks out, in their original order. */
  function Selected(txs: seq<Transaction>, m: Measure): (r: seq<Transaction>)
    ensures |r| <= |txs|
    ensures forall t {:trigger t in r} :: t in r <==> t in txs && Selects(m, t)
  {
    if |txs| == 0 then []
    else (if Selects(m, txs[0]) then [txs[0]] else []) + Selected(txs[1..], m)
  }

  /** The filter takes records from the front one at a time. */
  lemma SelectedCons(t: Transaction, txs: seq<Transaction>, m: Measure)
    ensures Selected([t] + txs, m) == (if Selects(m, t) then [t] else []) + Selected(txs, m)
  {
    assert ([t] + txs)[0] == t;
    assert ([t] + txs)[1..] == txs;
  }

  /** The filter works piecewise: the picks from `a` come first, in order, then those from `b`. */
  lemma {:induction false} SelectedConcat(a: seq<Transaction>, b: seq<Transaction>, m: Measure)
    ensures Selected(a + b, m) == Selected(a, m) + Selected(b, m)
  {
    if |a| == 0 {
      assert a + b == b;
      assert Selected(a, m) == [];
      assert [] + Selected(b, m) == Selected(b, m);
    } else {
      var t := a[0];
      var tail := a[1..];
      var head := if Selects(m, t) then [t] else [];
      assert a == [t] + tail;
      assert a + b == [t] + (tail + b);
      SelectedCons(t, tail, m);
      SelectedCons(t, tail + b, m);
      SelectedConcat(tail, b, m);
      assert head + (Selected(tail, m) + Selected(b, m)) == (head + Selected(tail, m)) + Selected(b, m);
    }
  }

  /** A single record is kept exactly when the measure selects it. */
  lemma SelectedSingle(t: Transaction, m: Measure)
    ensures Selected([t], m) == if Selects(m, t) then [t] else []
  {
    assert [t][1..] == [];
    assert Selected([t], m) == (if Selects(m, t) then [t] else []) + Selected([], m);
  }

  /** Sum of the amounts of a list of transactions. */
  function SumAmounts(txs: seq<Transaction>): int {
    if |txs| == 0 then 0 else txs[0].amount + SumAmounts(txs[1..])
  }

  /**
   * Every unsigned total is "pick the transactions, then add up their
   * amounts": summing weights is the same as summing the selected amounts.
   */
  lemma {:induction false} SumOfIsSelectedSum(txs: seq<Transaction>, m: Measure)
    requires !m.NetOf?
    ensures SumOf(txs, m) == SumAmounts(Selected(txs, m))
  {
    if |txs| > 0 {
      SumOfIsSelectedSum(txs[1..], m);
      var head := if Selects(m, txs[0]) then [txs[0]] else [];
      var tail := Selected(txs[1..], m);
      assert Selected(txs, m) == head + tail;
      if Selects(m, txs[0]) {
        assert (head + tail)[1..] == tail;
      } else {
        assert head + tail == tail;
      }
    }
  }

  /**
   * The running sum of balances, added up left to right from `sum`, the way
   * an array reduction with a starting value adds them.
   */
  function ReduceBalances(sum: int, accounts: seq<Account>): int
    decreases |accounts|
  {
    if |accounts| == 0 then sum else ReduceBalances(sum + accounts[0].balance, accounts[1..])
  }

  /** The running sum of amounts, added up left to right from `sum`. */
  function ReduceAmounts(sum: int, txs: seq<Transaction>): int
    decreases |txs|
  {
    if |txs| == 0 then sum else ReduceAmounts(sum + txs[0].amount, txs[1..])
  }

  /** Reducing from `sum` adds `sum` to the sum of the balances. */
  lemma {:induction false} ReduceBalancesIsSum(sum: int, accounts: seq<Account>)
    ensures ReduceBalances(sum, accounts) == sum + SumBalances(accounts)
    decreases |accounts|
  {
    if |accounts| > 0 {
      ReduceBalancesIsSum(sum + accounts[0].balance, accounts[1..]);
    }
  }

  /** Reducing from `sum` adds `sum` to the sum of the amounts. */
  lemma {:induction false} ReduceAmountsIsSum(sum: int, txs: seq<Transaction>)
    ensures ReduceAmounts(sum, txs) == sum + SumAmounts(txs)
    decreases |txs|
  {
    if |txs| > 0 {
      ReduceAmountsIsSum(sum + txs[0].amount, txs[1..]);
    }
  }
}
