# Bank ledger and identity core, in Dafny

This project models the service layer of a small terminal banking application
(`bank_system.py`). Two services share one SQLite file, `bank.db`, with three
tables: users, accounts and transactions. The model keeps these tables in memory
as the fields of one `Database` object:

- `users` maps each username to its row: id, profile and password hash.
- `nextUserId` is the next autoincrement id.
- `accounts` maps each account number to its row: owner id, type, currency,
  balance, overdraft limit and creation date.
- `transactions` is the append-only sequence of transaction rows, in insertion
  order. A row's id is its position plus one.

`UserService` (module `Identity`) registers users, logs them in and looks them
up. `BankService` (module `Banking`) does the following:

- It opens accounts under numbers made of the prefix `40817810` and an 8-digit
  random part.
- It deposits, withdraws and transfers. A transfer is a withdrawal followed by a
  deposit. If the deposit fails, a compensating deposit goes back to the source.
- It answers the read-only queries: accounts of a user, one account, recent
  history and the owner of an account.

Every mutating call (registration, account opening, deposit, withdrawal,
transfer) returns either `Ok` or `Err(reason)`, one reason for each failure
message of the original. The lookups return an `Option` or the matching rows.
A call refused before it writes anything changes nothing. A transfer that ends
in `TransferFailed` has already written: it leaves the rows described under
`Transfer` below.

The object invariant `Database.Valid()` is kept by every operation. It holds
these facts:

- Usernames are unique, and so are user ids.
- Every transaction row names an existing account and carries a positive amount.
- Every balance is exactly the account's deposits minus its withdrawals, as
  recorded in the transactions table (`Ledger.Net`).
- Every balance stays within its overdraft limit (`Ledger.WithinOverdraft`).

The pure lemmas in `Ledger` make two further properties follow from the
`ensures` clauses of the mutating methods:

- A transfer conserves the sum of all balances.
- The compensating deposit restores the source account.

Module layout:

- `BankTypes.dfy`: the rows and outcomes.
- `Ledger.dfy`: the tables as values, with the lemmas about balances, the total
  and the history.
- `AccountNumber.dfy`: account-number generation and its decimal round trip.
- `Store.dfy`: the `Database` class and its invariant.
- `UserService.dfy` and `BankService.dfy`: the two services.
- `Scenarios.dfy`: verified client call sequences. One drives an overdraft
  account to its limit. One states the sum of all balances across a transfer.
  One registers a username twice.

The model follows the code on these points:

- `create_account` does not check that the overdraft limit is non-negative.
  The model accepts any limit (see `WithinOverdraft` below).
- The code has no retry loop for account-number collisions. A collision
  violates the primary key, and the store refuses the insert with a storage
  error.
- The code reports the same transfer failure whether or not the compensating
  deposit went through. It has no separate "compensation failed" outcome.
- The code performs the balance update and the row insert as two separate
  statements.
- The parameters the code gives defaults keep them: `description` is empty
  unless given, `overdraftLimit` is 0 and the history `limit` is 10.

`Banking.TransferOutNote`, `Banking.TransferInNote` and `Banking.RollbackNote`
reproduce the descriptions that `transfer` writes on its rows
(bank_system.py:311, 317 and 320).

## Model

| member | source | states |
|---|---|---|
| `Store.Database.constructor` | bank_system.py:16-67 | A newly initialised database has three empty tables, and user ids start at 1. The invariant holds. |
| `Store.UserWithId` | bank_system.py:158-162 | The user row with a given id, present exactly when some user has that id. Ids are unique, so the row is determined. |
| `Identity.UserService.RegisterUser` | bank_system.py:100-132 | A taken username gives `UsernameTaken` and leaves the users table unchanged. Otherwise one row is added under the next id, with the password digest as its credential. Usernames stay unique. Afterwards the same username and password log in to the new user, and `GetUserInfo` returns its row. |
| `Identity.UserService.Authenticate` | bank_system.py:134-156 | Returns the summary (id, names, username) exactly when the username exists and the digest of the password equals the stored hash. An unknown user and a wrong password both give `None`. |
| `Identity.UserService.GetUserInfo` | bank_system.py:158-162 | Present exactly when a user with that id exists, and then it is that user's stored row. |
| `Identity.UserService.HashPassword` | bank_system.py:96-98 | The stored credential of a password is the service's one-way digest of it; SHA-256 itself is a parameter. |
| `Identity.UserService.LoginDependsOnlyOnDigest` | bank_system.py:141-156 | Login sees a password only through its digest: two passwords with the same digest get the same answer for any username. |
| `AccountNumber.GenerateAccountNumber` | bank_system.py:169-172 | For a random part in 10000000..99999999 the number has 16 characters, all digits, starts with `40817810`, and its last 8 characters read back as the random part. |
| `AccountNumber.DecimalRoundTrip` | bank_system.py:172 | Parsing the decimal rendering of a natural number gives the number back. |
| `AccountNumber.DecimalLength` | bank_system.py:172 | A number with k+1 digits renders to k+1 characters, so the random part always takes 8. |
| `AccountNumber.GeneratedNumbersDistinct` | bank_system.py:169-172 | Two random parts give the same account number exactly when they are equal. |
| `Banking.BankService.CreateAccount` | bank_system.py:174-196 | If the generated number is already taken, the primary key refuses it with a storage error and nothing changes. Otherwise exactly one account is added, with zero balance and the given owner, type, currency and limit. The invariant and the total balance are preserved. |
| `Banking.BankService.GetAccounts` | bank_system.py:198-205 | Exactly the accounts whose owner is the given user, each as stored. |
| `Banking.BankService.GetAccount` | bank_system.py:207-211 | The account is present exactly when its number exists, and then it is the stored row. |
| `Banking.BankService.Deposit` | bank_system.py:213-245 | A non-positive amount gives `InvalidAmount`, a store error gives `StorageError` and an unknown account gives `AccountNotFound`, checked in that order. In each of these cases both tables are unchanged. On success only that account's balance rises, by exactly the amount, and exactly one DEPOSIT row for it is appended. |
| `Banking.BankService.Withdraw` | bank_system.py:247-283 | The same checks as a deposit, then `InsufficientFunds(balance + limit)` when the amount exceeds balance + limit; each failure changes nothing. On success only that balance falls, by exactly the amount, and exactly one WITHDRAWAL row is appended. The overdraft invariant is kept. |
| `Banking.BankService.Transfer` | bank_system.py:285-326 | The checks run in order: amount, source, destination, currency, funds; the first failure is reported and nothing changes. A store error in the withdrawal changes nothing. On success the result is `Adjust(Adjust(accounts, from, -amount), to, amount)`, with a WITHDRAWAL row on the source followed by a DEPOSIT row on the destination; by `Ledger.MoveConservesTotal` the sum of all balances is unchanged. For distinct accounts, every other account is unchanged. If the deposit fails and the compensation succeeds, all balances are restored and the rows are the WITHDRAWAL and the rollback DEPOSIT. If both fail, the source keeps the loss and only the WITHDRAWAL row is appended. |
| `Banking.BankService.GetTransactions` | bank_system.py:328-337 | Returns only rows of that account, newest first, at most `limit` of them; a negative limit means no limit. Every row of the account that is left out is older than every row returned. |
| `Scenarios.TransferWithTotal` | bank_system.py:285-326 | Across any transfer the sum of all balances is unchanged, except when both the deposit to the destination and the compensating deposit fail; then it falls by the amount. The invariant is kept. |
| `Banking.BankService.GetAccountOwner` | bank_system.py:339-348 | The names of the user whose id is the account's owner id, present exactly when the account and that user both exist. |
| `Ledger.Adjust` | bank_system.py:225-230 | The balance update changes the balance of one account by `delta` and leaves its other fields and all other accounts unchanged. |
| `Ledger.AdjustUndo` | bank_system.py:318-321 | The compensating deposit of the withdrawn amount restores the accounts table exactly. |
| `Ledger.TotalWithout` | bank_system.py:309-321 | The sum of all balances is any one account's balance plus the sum over the others. |
| `Ledger.TotalAdjust` | bank_system.py:225-230 | Changing one balance by `delta` changes the sum of all balances by `delta`. |
| `Ledger.TotalInsert` | bank_system.py:180-191 | Inserting a new account adds its balance to the sum of all balances. |
| `Ledger.MoveConservesTotal` | bank_system.py:309-323 | Withdrawing an amount from one account and depositing it into another (or the same) account leaves the sum of all balances unchanged. |
| `Ledger.NetAppend` | bank_system.py:233-240 | Appending a row changes an account's net balance by the row's signed amount if the row is for that account, and by 0 otherwise. |
| `Ledger.NetUntouched` | bank_system.py:180-191 | An account number that no row mentions has a net balance of 0, which is the opening balance of a new account. |
| `Ledger.PostKeepsConsistent` | bank_system.py:257-278 | Posting a positive row keeps the tables consistent and moves the total by the row's signed amount. Consistent means balances equal their net, the overdraft rule holds, and rows are numbered and point to accounts. For a withdrawal, the amount must be within balance + limit. |
| `Ledger.OpenKeepsConsistent` | bank_system.py:174-192 | Opening a new zero-balance account, whatever its limit, keeps the tables consistent and the total unchanged. |
| `Ledger.HistoryIsNewestFirst` | bank_system.py:328-337 | The history of an account holds exactly that account's rows, in strictly decreasing id order. |
| `Ledger.PrefixIsNewest` | bank_system.py:334-335 | In a newest-first sequence, the first `limit` rows are newer than every row after them. |

## Left out

- `DatabaseManager` (bank_system.py:11-89) is not modelled. SQL text, connections and schema DDL become the in-memory tables of `Store.Database`.
- The terminal interface (`BankSystemCLI`, `show_welcome`) and the sample data it creates are not modelled: they are presentation code.
- SHA-256 is not modelled. `UserService` takes the digest as a function parameter, and `HashPassword` applies it. The contracts say only that the stored credential is the digest of the password.
- The randomness of `generate_account_number` and the wall-clock timestamps are parameters (`random`, `now`). Each nested call of a transfer uses the same `now`.
- Amounts are exact `real` numbers, not binary floats. Rounding and NaN are not modelled.
- Storage failures (`sqlite3.Error`) are modelled only as fault flags (`fault`, `TransferFaults`) that fail a deposit or withdrawal before it writes anything. A failure between the balance update and the row insert, which would leave a changed balance without a row, is not modelled.
- Store failures inside `register_user`, inside `create_account` other than a duplicate account number, and in the lookups of `transfer` are not modelled.
- `Banking.BankService.GetAccounts` returns the accounts as a map keyed by number, not as a list. The order of the rows is not modelled.
- `Banking.BankService.GetTransactions` returns whole transaction rows, while the code selects only the type, amount, description and timestamp columns. The id and account number are kept so that the order and the account can be stated.
- `Banking.BankService.GetAccounts` returns whole account rows, while the code leaves out the `user_id` column, which equals the queried user id on every returned row.
- `Banking.BankService.GetTransactions` orders rows by id, that is, by insertion order, instead of by the timestamp text. Rows written in the same second, whose relative order SQLite leaves open, are ordered newest first.
- `account_type` is the three values the interface offers (`Checking`, `Savings`, `Deposit`), not arbitrary text.
- Foreign keys are not enforced, and neither the source nor the model checks that an account's owner id names an existing user.
- `Ledger.WithinOverdraft` states `balance >= -overdraft_limit` or `balance >= 0`, not `balance >= -overdraft_limit` alone. `create_account` accepts a negative limit and opens the account at 0. For a non-negative limit the two readings coincide.
