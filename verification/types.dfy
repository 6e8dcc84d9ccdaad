/**
 * Record shapes of the personal-finance ledger: accounts, transactions,
 * per-category monthly budgets, and the ledger state that holds all three.
 *
 * Money is counted in integer minor units (cents). A transaction's date is
 * kept only as its UTC year-month, the one part of the date the ledger engine
 * ever looks at. Record ids are the decimal numerals of clock readings (and
 * "1", "2", "3" for the seed accounts), kept here as their numeric value.
 */
module Types {

  /** A record id: the number whose decimal numeral is the id string. */
  type Id = nat

  /** The year-month key ("YYYY-MM") of a date in UTC. */
  datatype YearMonth = YearMonth(year: int, month: int)

  /** The built-in categories a transaction or budget may name. */
  datatype Category =
    | Food | Transport | Shopping | Entertainment | Health | Bills | Groceries
    | Education | Travel | Salary | Freelance | Investment | Other

  /** A value that may be absent; used for the optional fields of an edit. */
  datatype Option<+T> = None | Some(value: T)

  /** Direction of a transaction; the amount itself is stored without sign. */
  datatype TxKind = Income | Expense

  datatype Account = Account(
    id: Id,
    name: string,
    balance: int,
    icon: string,
    color: string)

  datatype Transaction = Transaction(
    id: Id,
    kind: TxKind,
    amount: int,
    category: Category,
    accountId: Id,
    description: string,
    month: YearMonth)  // year-month of the transaction's date

  datatype Budget = Budget(
    id: Id,
    category: Category,
    limit: int,
    spent: int,
    month: YearMonth)

  /** The engine's whole financial state, in the order the screens show it. */
  datatype Ledger = Ledger(
    accounts: seq<Account>,
    transactions: seq<Transaction>,
    budgets: seq<Budget>)

  /** Effect of a transaction on its account: +amount for income, -amount otherwise. */
  function Signed(t: Transaction): int {
    if t.kind == Income then t.amount else -t.amount
  }

  /** Ids of the three accounts present at first run. */
  const SeedIds: set<Id> := {1, 2, 3}

  /** The three accounts present at first run, all at zero. */
  const SeedAccounts: seq<Account> := [
    Account(1, "Cash", 0, "wallet", "#6C63FF"),
    Account(2, "Bank Account", 0, "landmark", "#10B981"),
    Account(3, "Credit Card", 0, "credit-card", "#EF4444")
  ]

  /** Category given to the transaction that seeds a new account's balance. */
  const InitialBalanceCategory: Category := Salary

  /** No two accounts share an id. */
  predicate UniqueAccountIds(accounts: seq<Account>) {
    forall i, j :: 0 <= i < j < |accounts| ==> accounts[i].id != accounts[j].id
  }

  /** No two transactions share an id. */
  predicate UniqueTxIds(txs: seq<Transaction>) {
    forall i, j :: 0 <= i < j < |txs| ==> txs[i].id != txs[j].id
  }

  /** At most one budget per (category, month) pair. */
  predicate UniqueBudgetKeys(budgets: seq<Budget>) {
    forall i, j :: 0 <= i < j < |budgets| ==>
      budgets[i].category != budgets[j].category || budgets[i].month != budgets[j].month
  }

  /** The ledger invariants the engine relies on for its bookkeeping to add up. */
  predicate Valid(s: Ledger) {
    && UniqueAccountIds(s.accounts)
    && UniqueTxIds(s.transactions)
    && UniqueBudgetKeys(s.budgets)
  }

  predicate TxIdUsed(txs: seq<Transaction>, id: Id) {
    exists j :: 0 <= j < |txs| && txs[j].id == id
  }

  predicate AccountIdUsed(accounts: seq<Account>, id: Id) {
    exists j :: 0 <= j < |accounts| && accounts[j].id == id
  }
}
