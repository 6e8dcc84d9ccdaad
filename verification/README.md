# ExpenseFox ledger engine, in Dafny

This project models the ledger at the heart of the ExpenseFox personal-finance
app: the shared app state in `contexts/AppContext.tsx` that owns the accounts,
the transactions and the monthly budgets, and the operations that keep them in
step.

- Adding a transaction records it at the front of the list. It moves the
  balance of the account it names by its signed amount: up for income, down
  for expense. An expense also adds to the spent total of its category's
  budget for the month in which the call happens.
- Editing a transaction takes the old version back off its account and
  budget, then applies the new version. This happens only for the fields that
  matter to each: amount, account or kind for balances; category, amount or
  kind for budgets.
- Deleting a transaction undoes its effect.
- Accounts can be added, optionally with an income transaction that explains
  the opening balance. They can be removed, except for the three seed
  accounts.
- Setting a budget recomputes its spent total from scratch.
- Three queries give the total balance and the month's income and expenses.
- A reset puts the first-run state back.

Every operation is a pure function from the ledger before the call to the
ledger after it (`Engine`). What the app reads from the clock is a
parameter:
- the fresh id `Date.now()` hands out;
- the UTC year-month of "now", used for budgets and month totals.

Records are Dafny datatypes with the fields of `types/index.ts`. Amounts are
integers (cents), ids are numbers, categories are an enumeration of the
thirteen category names, and a transaction's date is reduced to its year-month.

The modules:

| module | contents |
|---|---|
| `Types` | records, seed accounts, and the ledger invariants (unique account ids, unique transaction ids, one budget per category and month) |
| `Lookup` | first-match lookup (the source's `findIndex`/`find`), and the single-record edits "credit the first account with this id" and "add to the first budget for this key" |
| `Sums` | signed and unsigned totals over transaction lists, the filter that picks transactions out, and the left folds the queries use |
| `Engine` | the operations |
| `Effects` | record-by-record effect of each transaction operation |
| `Edits` | laws of editing and deleting |
| `Conservation` | balance conservation |
| `Tracking` | what a budget's spent total tracks |
| `Budgets` | laws of the explicit budget update |
| `Invariants` | the ledger invariants are preserved |
| `Queries` | what the totals add up and how they move |
| `Scenarios` | worked examples on the first-run ledger |

Two things the code does are worth stating plainly, because a reader might
expect otherwise. The model follows the code in both.

- **Budgets track the current month's calls, not the transaction's date.**
  `addTransaction`, `updateTransaction` and `deleteTransaction` look up the
  budget for the month in which the call runs, whatever the transaction's own
  date. An expense dated last month, added today, raises today's budget
  (`Tracking.OtherMonthExpenseCountsNow`). What is kept invariant is
  therefore: spent total minus all expenses of the category, of any date, for
  each current-month budget (`Tracking.*Tracks`). An explicit budget update,
  by contrast, sums only the expenses dated in the month. The two agree for
  expenses dated in the current month (`Tracking.CurrentMonthAddAgrees`).
- **Save failures are swallowed.** The save helpers
  (`contexts/AppContext.tsx:113-138`) catch and log storage errors instead of
  passing them on, so no operation other than a reset reports a failure. A
  failed save is not harmless, though. The operations edit the shared account
  and budget objects in place before saving (for example
  `contexts/AppContext.tsx:153-155` and `:167`), and one operation makes up to
  three saves. So a failed save can leave the state partly updated: some
  records changed and the list holding them never committed, or one list
  saved and the next not. The model assumes every save succeeds, and each
  operation is one step from the whole old ledger to the whole new one.

## Model

| member | source | states |
|---|---|---|
| Engine.AddTransaction | contexts/AppContext.tsx:140-171 | the new transaction goes at the front and nothing else in the list changes; no account or budget is added or removed; an account id no account carries leaves balances alone; an income leaves budgets alone |
| Effects.AddTransactionAccounts | contexts/AppContext.tsx:149-158 | only the first account carrying the transaction's account id moves, by its signed amount (plus for income, minus for expense); every other account is unchanged |
| Effects.AddTransactionBudgets | contexts/AppContext.tsx:160-170 | an expense raises only the first budget for its category in the current month, by its amount; every other budget is unchanged; an income moves no budget; no budget is ever created |
| Engine.UpdateTransaction | contexts/AppContext.tsx:173-250 | an id that no transaction carries changes nothing; no record is added or removed; an edit without amount, account or kind leaves balances alone; an edit without category, amount or kind leaves budgets alone |
| Effects.UpdateTransactionEffect | contexts/AppContext.tsx:182-186 | the transactions carrying the id become the old record with the supplied fields written over it, keeping the id; the others stay in place; only balances and spent totals move, and no budget of another month |
| Engine.Rebalance | contexts/AppContext.tsx:188-224 | the balance step of an edit keeps the number of accounts and their ids and moves only balances; its per-account effect is stated by `Edits.RebalanceEffect` |
| Edits.RebalanceEffect | contexts/AppContext.tsx:188-224 | with unique account ids, each account loses the old signed amount if the old transaction named it and gains the new signed amount if the new one does |
| Engine.Rebudget | contexts/AppContext.tsx:226-249 | the budget step of an edit keeps the number of budgets and their keys, moves only spent totals and leaves every budget of another month as it was; its per-budget effect is stated by `Edits.RebudgetEffect` |
| Edits.RebalanceBranchesAgree | contexts/AppContext.tsx:188-224 | the same-account and different-account branches of the balance step both amount to "take the old signed amount off the old account, then put the new signed amount on the new account" |
| Edits.UpdateMovesBalances | contexts/AppContext.tsx:188-224 | with unique account ids, each account loses the old signed amount if it was the old account and gains the new signed amount if it is the new account |
| Edits.UpdateAccountChangeLikeDelete | contexts/AppContext.tsx:205-222 | moving a transaction to another account leaves the old account exactly where deleting the transaction would, and moves the new account by exactly the new signed amount |
| Edits.RebudgetEffect | contexts/AppContext.tsx:226-249 | with unique budget keys, each current-month budget loses the old amount if the old transaction was an expense in its category and gains the new amount if the new one is |
| Edits.UpdateReconcilesBudgets | contexts/AppContext.tsx:226-249 | the same per-budget reconciliation, stated on the whole edit when it supplies a category, amount or kind |
| Edits.UpdateIdempotent | contexts/AppContext.tsx:173-250 | repeating an edit changes nothing more: the second call takes back exactly what it puts on again |
| Engine.DeleteTransaction | contexts/AppContext.tsx:252-281 | an id that no transaction carries changes nothing; otherwise the list gets shorter; no account or budget is added or removed |
| Effects.DeleteTransactionKeeps | contexts/AppContext.tsx:256 | a transaction survives deletion exactly when it does not carry the id; with unique ids the result is the list with the one carrier cut out, the rest kept in order |
| Lookup.RemoveIdConcat | contexts/AppContext.tsx:256 | the filter that drops an id works piecewise over a concatenation, so it keeps the survivors in their original order |
| Lookup.RemoveIdSlice | contexts/AppContext.tsx:256 | with unique ids, dropping the id of the transaction at position k leaves exactly the records before and after k, in order |
| Effects.DeleteTransactionAccounts | contexts/AppContext.tsx:259-268 | only the first account named by the deleted transaction moves, by minus its signed amount |
| Effects.DeleteTransactionBudgets | contexts/AppContext.tsx:270-280 | deleting an expense lowers only the first budget for its category in the current month, by its amount; deleting an income moves no budget |
| Edits.AddThenDeleteAccounts | contexts/AppContext.tsx:149-158 | deleting a just-added transaction puts every balance back |
| Edits.AddThenDeleteBudgets | contexts/AppContext.tsx:160-170 | deleting a just-added transaction puts every budget back |
| Edits.AddThenDelete | contexts/AppContext.tsx:252-281 | adding a transaction with an unused id and deleting it in the same month restores the whole ledger |
| Conservation.AddTransactionConserves | contexts/AppContext.tsx:140-171 | with unique account ids, each account's balance minus the net of the transactions naming it is unchanged by an add |
| Conservation.UpdateTransactionConserves | contexts/AppContext.tsx:173-250 | with unique account and transaction ids, the same quantity is unchanged by an edit, whichever fields it supplies |
| Conservation.DeleteTransactionConserves | contexts/AppContext.tsx:252-281 | with unique account and transaction ids, the same quantity is unchanged by a delete |
| Conservation.AddAccountConserves | contexts/AppContext.tsx:283-305 | the opening balance is never counted twice: with a seeded income transaction the new account's balance is fully explained by its history, otherwise the whole balance is unexplained; existing accounts are unaffected |
| Conservation.AddTransactionKeepsBalanced | contexts/AppContext.tsx:140-171 | with unique account ids, a ledger whose every balance equals the net of the transactions naming it stays so after an add |
| Conservation.UpdateTransactionKeepsBalanced | contexts/AppContext.tsx:173-250 | with unique account and transaction ids, the same holds after an edit |
| Conservation.DeleteTransactionKeepsBalanced | contexts/AppContext.tsx:252-281 | with unique account and transaction ids, the same holds after a delete |
| Conservation.AddAccountKeepsBalanced | contexts/AppContext.tsx:283-305 | adding a fresh account to such a ledger keeps it so exactly when the opening balance is zero or is recorded as an income transaction |
| Tracking.AddTransactionTracks | contexts/AppContext.tsx:160-170 | with unique budget keys, each current-month budget's spent total minus all expenses of its category is unchanged by an add |
| Tracking.UpdateTransactionTracks | contexts/AppContext.tsx:226-249 | the same quantity is unchanged by an edit (unique keys and transaction ids) |
| Tracking.DeleteTransactionTracks | contexts/AppContext.tsx:270-280 | the same quantity is unchanged by a delete (unique keys and transaction ids) |
| Tracking.OtherMonthExpenseCountsNow | contexts/AppContext.tsx:160-170 | an expense dated in another month still raises the current-month budget of its category by its amount, while the month's recomputed spend is unchanged |
| Tracking.CurrentMonthAddAgrees | contexts/AppContext.tsx:332-339 | for an expense dated in the current month, the incremental update and the recomputed spend move by the same amount |
| Engine.AddAccount | contexts/AppContext.tsx:283-305 | exactly one account is appended and budgets are untouched; when asked to and the balance is positive, exactly one "salary" income of the opening balance is put in front, naming the new account, carrying the account's name as its description, the given fresh id and the current month; otherwise transactions are untouched |
| Queries.MonthTotalsAfterAddAccount | contexts/AppContext.tsx:283-305 | adding an account raises the income of the current month by the opening balance exactly when an opening transaction is recorded, and leaves every other month's income and all expenses alone |
| Queries.TotalBalanceAfterAddAccount | contexts/AppContext.tsx:283-305 | adding an account raises the total balance by its opening balance once, whether or not an opening transaction is recorded |
| Engine.RemoveAccount | contexts/AppContext.tsx:307-314 | a seed id (1, 2 or 3) or an id no account carries changes nothing; any other id removes exactly the accounts carrying it, and with unique ids the result is the list with that one account cut out, the rest kept in order; transactions and budgets are never touched |
| Lookup.WithoutAccountConcat | contexts/AppContext.tsx:312 | the filter that drops an account id works piecewise over a concatenation, so it keeps the surviving accounts in their original order |
| Lookup.WithoutAccountSlice | contexts/AppContext.tsx:312 | with unique ids, dropping the id of the account at position k leaves exactly the accounts before and after k, in order |
| Queries.AddThenRemoveAccount | contexts/AppContext.tsx:283-314 | removing an account right after adding it without an opening transaction restores the ledger, when its id was unused and is not a seed id |
| Invariants.RemoveAccountKeepsSeeds | contexts/AppContext.tsx:307-314 | no removal ever loses an account carrying a seed id |
| Queries.TotalBalanceAfterRemoveAccount | contexts/AppContext.tsx:307-314 | with unique ids, removing a non-seed account takes exactly its balance off the total; a seed id or an unused id leaves the total alone |
| Engine.UpdateBudget | contexts/AppContext.tsx:326-356 | afterwards the budget for the category in the current month exists, carries the new limit and a spent total equal to that month's expenses in the category; an existing budget is updated in place, keeping its id, category and month, and nothing else changes; otherwise exactly one new budget is appended |
| Budgets.UpdateBudgetIdempotent | contexts/AppContext.tsx:326-356 | setting the same limit twice in the same month is the same as setting it once |
| Budgets.UpdateBudgetUpserts | contexts/AppContext.tsx:341-355 | the list grows by one exactly when no budget existed for the key, and afterwards at most one budget carries the key |
| Queries.UpdateBudgetSpentSelects | contexts/AppContext.tsx:332-339 | the stored spent total is the sum of the amounts of exactly the expenses of that category dated in the current month |
| Engine.TotalBalance | contexts/AppContext.tsx:358-360 | the left fold of the balances from 0 equals the recursive sum of balances (`Sums.SumBalances`) that the lemmas about the total reason with |
| Engine.MonthlyIncome | contexts/AppContext.tsx:362-367 | filtering the income transactions dated in the month and folding their amounts from 0 gives the signed month total `Sums.SumOf` for income |
| Engine.MonthlyExpenses | contexts/AppContext.tsx:369-374 | filtering the expense transactions dated in the month and folding their amounts from 0 gives the signed month total `Sums.SumOf` for expenses |
| Sums.Selected | contexts/AppContext.tsx:365 | the filter keeps exactly the transactions the measure picks out, and never more than it was given |
| Sums.SelectedConcat | contexts/AppContext.tsx:365 | the filter works piecewise over a concatenation, so the picks keep their original order |
| Sums.SelectedSingle | contexts/AppContext.tsx:365 | a single transaction is kept exactly when the measure picks it out; with the piecewise law this fixes the filter's output, order and count included |
| Queries.TotalBalanceAfterAdd | contexts/AppContext.tsx:358-360 | adding a transaction moves the total balance by its signed amount when some account carries its account id, and not at all otherwise |
| Queries.TotalBalanceAfterUpdate | contexts/AppContext.tsx:188-224 | an edit of amount, account or kind moves the total by the new signed amount minus the old, each counted only if its account exists |
| Queries.TotalBalanceAfterDelete | contexts/AppContext.tsx:259-268 | deleting moves the total back by the transaction's signed amount when its account exists |
| Queries.MonthTotalsAfterAdd | contexts/AppContext.tsx:362-374 | adding a transaction raises the month total of its kind by its amount only when it is dated in that month |
| Queries.MonthTotalsAfterDelete | contexts/AppContext.tsx:362-374 | deleting a transaction (unique ids) lowers the month total of its kind by its amount only when it is dated in that month |
| Engine.ResetAllData | contexts/AppContext.tsx:403-442 | afterwards there are no transactions and no budgets, and exactly the seed accounts, each at zero balance: the first-run state |
| Queries.ResetTotals | contexts/AppContext.tsx:403-442 | a reset returns the first-run state, whose total balance and month totals are zero |
| Invariants.InitialValid | contexts/AppContext.tsx:18-43 | the first-run state, and the state after any reset, satisfy the ledger invariants |
| Invariants.AddTransactionValid | contexts/AppContext.tsx:140-171 | adding a transaction with an unused id keeps the invariants |
| Invariants.UpdateTransactionValid | contexts/AppContext.tsx:173-250 | editing keeps the invariants: an edit never changes an id or a budget key |
| Invariants.DeleteTransactionValid | contexts/AppContext.tsx:252-281 | deleting keeps the invariants |
| Invariants.AddAccountValid | contexts/AppContext.tsx:283-305 | adding an account with an unused id, and an unused id for its opening transaction, keeps the invariants |
| Invariants.RemoveAccountValid | contexts/AppContext.tsx:307-314 | removing an account keeps the invariants |
| Invariants.UpdateBudgetValid | contexts/AppContext.tsx:326-356 | a budget update never creates a second budget for a category and month |
| Lookup.AccountIndexIsFirst | contexts/AppContext.tsx:149 | the account lookup answers a position exactly when it is the first one carrying the id |
| Lookup.BudgetIndexIsFirst | contexts/AppContext.tsx:162-164 | the budget lookup answers a position exactly when it is the first one carrying the category and month |
| Scenarios.AddThenDeleteIncome | contexts/AppContext.tsx:140-158 | on the first-run ledger, an income of 100 into Cash takes it to 100, and deleting it takes it back to 0 with an empty list |
| Scenarios.BudgetFollowsExpenses | contexts/AppContext.tsx:160-170 | a new food budget of 200 starts at 0 spent, expenses of 30 and 50 take it to 30 and then 80, and deleting the first takes it to 50 |
| Scenarios.MoveEditedExpense | contexts/AppContext.tsx:205-222 | an expense of 50 from Cash edited to 80 from the bank account leaves Cash at 0 and the bank account at -80 |

## Left out

- Persistence: storage reads and writes, JSON encoding and the rehydration of dates in `loadData` are not modelled. Every save is taken as successful. The save helpers swallow errors, so a failed save goes unreported in the source and can leave partial updates behind.
- React state: hooks, the order of `setState` calls and the stale closures that `useCallback` can capture are not modelled. Each operation sees the state left by the previous one.
- In-place aliasing: the source copies the arrays shallowly and then mutates shared account and budget objects. The model builds new values. The end state is the same as the source's only when every save succeeds; partial updates after a failed save are not modelled.
- Floating-point amounts: amounts, balances, limits and spent totals are exact integers (cents). JavaScript number rounding is not modelled.
- Clock: `Date.now()` ids and the current UTC month are parameters. Nothing checks that they are fresh. Lemmas that need unused ids say so in their preconditions, because two calls within the same millisecond would collide in the source.
- Engine.AddAccount: the new account's id comes from one clock reading (`contexts/AppContext.tsx:286`). The opening transaction's id is one more than a second clock reading, taken after the accounts save has been awaited (`:288`, `:292`), so the source promises no relation between the two ids. The model takes the opening transaction's id, and its month, as independent parameters. The returned id is not modelled.
- Transaction dates are reduced to their UTC year-month. Time of day plays no role in the core.
- Categories are an enumeration of the thirteen category names. The source casts a budget's category from an arbitrary string, and strings outside the list are not modelled.
- Engine.UpdateTransaction: a patch field is either supplied or absent. A field supplied explicitly as `undefined` is not modelled.
- Preference setters (currency, theme, tap sound, first-time flag) are not part of this model. They touch no ledger data.
- The splash and tap sounds are not part of this model.
- Screens and components are not part of this model.
- Custom categories are not modelled. No operation on them is defined in the app state.
