# bank-link ledger in Dafny

This project models the account ledger of the bank-link backend. The ledger is
`AccountService` in its `HEAD` revision. It works on two JPA entities: `BankAccount`
and `Transaction`.

The service keeps two stores:

- an account store keyed by account id (`BankAccountRepository`);
- a store of transaction records (`TransactionRepository`).

Every operation checks all of its preconditions before it writes anything, and a
rejection (the source throws `IllegalArgumentException`) writes nothing. Otherwise:

- deposit, withdraw and transfer move balances through `setBalance` and append
  records whose `balanceAfter` is the new balance;
- createAccount files a new account and saves no record;
- deleteAccount removes the account. Through the cascade on
  `BankAccount.transactions` (BankAccount.java:63), it also removes that account's
  records. This is the only way records leave the store.

The model proves these properties:

- a rejected operation changes nothing;
- balances never go negative;
- a transfer conserves the sum of the two balances;
- each account's records reconcile its opening balance with its current balance;
- the history query returns exactly the account's records, newest first.

Modelling choices:

- Amounts are integers in minor units (cents), so 1000.00 is `100000`. The source's
  `Double` arithmetic is only comparisons, additions and subtractions of such values.
- `LocalDateTime.now()` and `System.currentTimeMillis()` are parameters (`now`,
  `millis`). A `LocalDateTime` is an ordered `Time`.
- Java's nullable fields are `Option`s.
- Exceptions are `Err` results of type `LedgerError`.

Files:

- `wrappers.dfy` (`Option`, `Result`).
- `text.dfy`: the ASCII `equalsIgnoreCase`, upper-casing, and the decimal rendering
  of a `long`.
- `model.dfy`: module `Model`, with the classes `BankAccount` and `Transaction`,
  their enums and their rules.
- `ledger.dfy`: module `Ledger`. It holds the selection of one account's records,
  the date-descending sort, and the running-balance reconciliation.
- `service.dfy`: module `Service`, with the class `AccountService` and its invariant
  `Valid`.

The invariant `Valid` has these parts:

- every stored account is filed under its own id;
- every balance is non-negative;
- every stored record is posted: owned, with a positive amount, a debit or credit
  type, a date, an external id and a distinct surrogate id;
- for each account, the newest record's `balanceAfter` is the current balance;
- each record's `balanceAfter` is the opening balance moved by the signed amounts of
  that account's records so far.

There are three ghost fields:

- `opening`: each account's opening balance;
- `balances`: the current balances by id;
- `entries`: a value view of the stored records.

## Model

| member | source | states |
|---|---|---|
| Model.TypeValuesDistinct | bank-link-backend/src/main/java/com/banklink/model/Transaction.java:233-250 | different transaction types are stored under different strings |
| Model.TransactionType.Value | bank-link-backend/src/main/java/com/banklink/model/Transaction.java:233-250 | getValue: the string each transaction type is stored under; TypeValuesDistinct shows no two types share one |
| Model.AccountType.DisplayName | bank-link-backend/src/main/java/com/banklink/model/BankAccount.java:253-267 | getDisplayName: "Cheque", "Savings", "Credit", "Investment"; SavingsAndChequeExclusive shows the first two are recognised by isChequeAccount and isSavingsAccount |
| Model.GeneratedTransactionId | bank-link-backend/src/main/java/com/banklink/model/Transaction.java:185-187 | an external id is "TXN" followed by at least one character (the clock's decimal digits) |
| Model.GeneratedTransactionIdInjective | bank-link-backend/src/main/java/com/banklink/model/Transaction.java:185-187 | ids generated at different milliseconds differ, so equal ids mean the same clock reading |
| Model.BankAccount.constructor | bank-link-backend/src/main/java/com/banklink/model/BankAccount.java:68-74 | a new account has balance 0, status ACTIVE, currency "ZAR", zero interest and overdraft, both timestamps set to now, no transactions |
| Model.BankAccount.Named | bank-link-backend/src/main/java/com/banklink/model/BankAccount.java:76-80 | the same defaults, with the given id and type |
| Model.BankAccount.Opened | bank-link-backend/src/main/java/com/banklink/model/BankAccount.java:82-85 | the same defaults with the given initial balance, or 0 when it is null |
| Model.BankAccount.SetBalance | bank-link-backend/src/main/java/com/banklink/model/BankAccount.java:108-111 | the balance is set and lastTransactionDate is stamped; nothing else is written |
| Model.BankAccount.SetUpdatedAt | bank-link-backend/src/main/java/com/banklink/model/BankAccount.java:165-167 | only updatedAt is written |
| Model.BankAccount.AddTransaction | bank-link-backend/src/main/java/com/banklink/model/BankAccount.java:210-214 | t is appended at the end, the length grows by one, earlier entries are unchanged, t's owner becomes this account, lastTransactionDate is stamped |
| Model.BankAccount.PreUpdate | bank-link-backend/src/main/java/com/banklink/model/BankAccount.java:225-228 | only updatedAt is stamped |
| Model.BankAccount.PrePersist | bank-link-backend/src/main/java/com/banklink/model/BankAccount.java:230-242 | createdAt and updatedAt are filled only when unset; a set value is kept |
| Model.BankAccount.IsActive | bank-link-backend/src/main/java/com/banklink/model/BankAccount.java:198-200 | the status test; ActiveIffStatusActive states it holds exactly for ACTIVE |
| Model.BankAccount.CanWithdraw | bank-link-backend/src/main/java/com/banklink/model/BankAccount.java:202-204 | the overdraft-aware funds test; CanWithdrawIffAvailable states it is "available balance covers the amount" |
| Model.BankAccount.AvailableBalance | bank-link-backend/src/main/java/com/banklink/model/BankAccount.java:206-208 | the largest amount canWithdraw admits: it admits the available balance and nothing above it |
| Model.BankAccount.IsSavingsAccount | bank-link-backend/src/main/java/com/banklink/model/BankAccount.java:216-218 | holds iff the type is set and upper-cases to SAVINGS, which is what the case-insensitive compare means |
| Model.BankAccount.IsChequeAccount | bank-link-backend/src/main/java/com/banklink/model/BankAccount.java:220-222 | holds iff the type is set and upper-cases to CHEQUE |
| Model.BankAccount.Equals | bank-link-backend/src/main/java/com/banklink/model/BankAccount.java:282-288 | the same object or a shared non-null id; AccountEqualsProperties states its laws |
| Model.ActiveIffStatusActive | bank-link-backend/src/main/java/com/banklink/model/BankAccount.java:198-200 | isActive holds exactly for status ACTIVE and for none of the other four statuses |
| Model.CanWithdrawIffAvailable | bank-link-backend/src/main/java/com/banklink/model/BankAccount.java:202-208 | canWithdraw(a) holds iff the available balance covers a; the available balance is balance plus overdraft limit |
| Model.NoOverdraftMeansCoveredByBalance | bank-link-backend/src/main/java/com/banklink/model/BankAccount.java:202-204 | with no overdraft limit, canWithdraw(a) holds iff the balance covers a, and then the balance after withdrawing a is non-negative |
| Model.SavingsAndChequeExclusive | bank-link-backend/src/main/java/com/banklink/model/BankAccount.java:216-222 | no account is both savings and cheque; every type string that upper-cases to SAVINGS (or CHEQUE), "Savings", "savings" and "SAVINGS" alike, is recognised |
| Model.AccountEqualsProperties | bank-link-backend/src/main/java/com/banklink/model/BankAccount.java:282-288 | equals is reflexive and symmetric; an account without an id equals only itself; two distinct accounts are equal only when they share a non-null id |
| Model.Transaction.constructor | bank-link-backend/src/main/java/com/banklink/model/Transaction.java:64-69 | a new record is COMPLETED with transactionDate, createdAt and updatedAt set to now and every other field unset |
| Model.Transaction.Recorded | bank-link-backend/src/main/java/com/banklink/model/Transaction.java:71-77 | the same defaults, plus the given type, amount and owner and a generated external id |
| Model.Transaction.PreUpdate | bank-link-backend/src/main/java/com/banklink/model/Transaction.java:202-205 | only updatedAt is stamped |
| Model.Transaction.PrePersist | bank-link-backend/src/main/java/com/banklink/model/Transaction.java:207-222 | createdAt, updatedAt, transactionDate and transactionId are each filled only when unset; a set field is never overwritten |
| Model.Transaction.IsDebit | bank-link-backend/src/main/java/com/banklink/model/Transaction.java:189-191 | a debit is never of a credit type |
| Model.Transaction.IsCredit | bank-link-backend/src/main/java/com/banklink/model/Transaction.java:193-195 | a credit is never of a debit type |
| Model.Transaction.Equals | bank-link-backend/src/main/java/com/banklink/model/Transaction.java:265-271 | the same object or a shared non-null surrogate id; TransactionEqualsProperties states its laws |
| Model.TransactionEqualsProperties | bank-link-backend/src/main/java/com/banklink/model/Transaction.java:265-271 | equals is reflexive and symmetric; a record without a surrogate id equals only itself; distinct records are equal only when they share a non-null id |
| Model.ClassificationByType | bank-link-backend/src/main/java/com/banklink/model/Transaction.java:189-195 | over the six stored type strings, isDebit holds exactly for WITHDRAWAL and TRANSFER_OUT, and isCredit exactly for DEPOSIT and TRANSFER_IN; INTEREST and FEE are neither |
| Model.DebitCreditExclusive | bank-link-backend/src/main/java/com/banklink/model/Transaction.java:189-195 | no record is both a debit and a credit, whatever its type string |
| Ledger.Owned | bank-link-backend/src/main/java/com/banklink/model/BankAccount.java:62-65 | an account's records (the mappedBy side of Transaction.account) are exactly the stored records it owns |
| Ledger.Discard | bank-link-backend/src/main/java/com/banklink/model/BankAccount.java:62-65 | what the cascade on transactions leaves when an account is removed: exactly the records other accounts own |
| Ledger.DiscardLeavesNone | bank-link-backend/src/main/java/com/banklink/model/BankAccount.java:62-65 | after the cascade, the removed account owns no stored record |
| Ledger.DiscardKeepsOthers | bank-link-backend/src/main/java/com/banklink/model/BankAccount.java:62-65 | the cascade leaves the records of every other account id exactly as they were, in order |
| Ledger.ById | bank-link-backend/src/main/java/com/banklink/repository/TransactionRepository.java:16-17 | the WHERE clause of the query: exactly the stored records whose account has the given id |
| Ledger.ByDateDesc | bank-link-backend/src/main/java/com/banklink/repository/TransactionRepository.java:16-17 | ORDER BY transactionDate DESC: as many records as its input and only those; ByDateDescSortsAndPermutes adds newest first and the permutation |
| Ledger.History | bank-link-backend/src/main/java/com/banklink/repository/TransactionRepository.java:16-17 | the query's answer: as many records as the account id has, each of them a stored record of that id (HistoryIsNewestFirst adds the order and the permutation) |
| Ledger.ByDateDescSortsAndPermutes | bank-link-backend/src/main/java/com/banklink/repository/TransactionRepository.java:16-17 | ORDER BY transactionDate DESC yields the same records (as a multiset), newest first |
| Ledger.HistoryIsNewestFirst | bank-link-backend/src/main/java/com/banklink/repository/TransactionRepository.java:16-17 | the query's answer is newest first, a permutation of the account id's records, and contains exactly those records |
| Ledger.RecordedOwned | bank-link-backend/src/main/java/com/banklink/model/BankAccount.java:62-65 | the view of an account's records is the account's part of the view of the store |
| Ledger.ReconcilesAppend | bank-link-backend/src/main/java/com/banklink/service/AccountService.java:96-107 | a record whose balanceAfter is the old balance moved by its signed amount keeps the account reconciled at the new balance |
| Ledger.ReconciledRunningBalances | bank-link-backend/src/main/java/com/banklink/service/AccountService.java:96-107 | for reconciled records, the balance is the opening balance plus their signed amounts, and each balanceAfter is the running balance up to that record |
| Ledger.RunningBalancesReconcile | bank-link-backend/src/main/java/com/banklink/service/AccountService.java:96-107 | conversely, records whose balanceAfter values are the running balances reconcile the opening balance with the final running balance |
| Service.NegativeOpeningBalanceAdmitted | bank-link-backend/src/main/java/com/banklink/service/AccountService.java:76 | as written, an initial balance of -1.00 is stored as -1.00, and filing such an account breaks the store's invariant whatever the store held before (see Findings) |
| Service.StoredOpeningBalance | bank-link-backend/src/main/java/com/banklink/service/AccountService.java:76 | as written: the given initial balance, or 0 when it is null, with no sign check |
| Service.NewAccount | bank-link-backend/src/main/java/com/banklink/service/AccountService.java:73-78 | the account createAccount builds: the given id, type and balance, the constructor defaults, all three timestamps set to now |
| Service.Post | bank-link-backend/src/main/java/com/banklink/service/AccountService.java:97-98 | a balance change writes the balance, lastTransactionDate and updatedAt, and nothing else |
| Service.NewRecord | bank-link-backend/src/main/java/com/banklink/service/AccountService.java:101-107 | the record each operation builds (shown for deposit): the given owner, type, amount, description and balanceAfter, COMPLETED, not yet identified |
| Service.OpenKeepsLedgered | bank-link-backend/src/main/java/com/banklink/service/AccountService.java:68-81 | filing a new account with a non-negative balance and no records keeps the store's invariant |
| Service.BookKeepsLedgered | bank-link-backend/src/main/java/com/banklink/service/AccountService.java:96-109 | moving one account's balance by a new posted record's signed amount, kept non-negative, and appending that record keeps every account reconciled and the invariant whole |
| Service.RemoveKeepsLedgered | bank-link-backend/src/main/java/com/banklink/service/AccountService.java:268-275 | removing an account together with its records keeps the invariant for the remaining accounts |
| Service.AccountService.constructor | bank-link-backend/src/main/java/com/banklink/service/AccountService.java:26-31 | both stores start empty and the invariant holds |
| Service.AccountService.GetAccountById | bank-link-backend/src/main/java/com/banklink/service/AccountService.java:36-37 | an account is found iff its id is stored, and it is the account filed under that id |
| Service.AccountService.GetAllAccounts | bank-link-backend/src/main/java/com/banklink/service/AccountService.java:60-62 | exactly the stored accounts, each filed under its own id |
| Service.AccountService.SaveTransaction | bank-link-backend/src/main/java/com/banklink/service/AccountService.java:109 | save runs prePersist, assigns the next identity and appends the record at the end of the store |
| Service.AccountService.File | bank-link-backend/src/main/java/com/banklink/service/AccountService.java:80 | saving a new account files it under its id and keeps the invariant |
| Service.AccountService.Record | bank-link-backend/src/main/java/com/banklink/service/AccountService.java:100-109 | a fresh record with the given owner, type, amount, balanceAfter and description is appended with the next identity, and the view of the store follows it |
| Service.AccountService.Apply | bank-link-backend/src/main/java/com/banklink/service/AccountService.java:96-109 | the account takes the new balance and timestamps, the noted balance of its id follows, and one fresh record holding the new balance is appended |
| Service.AccountService.Book | bank-link-backend/src/main/java/com/banklink/service/AccountService.java:96-109 | one posting: the account takes the new balance and timestamps; one fresh COMPLETED record of the given type and amount is appended, with the new balance as balanceAfter and the next identity; the invariant is kept |
| Service.AccountService.CreateAccount | bank-link-backend/src/main/java/com/banklink/service/AccountService.java:68-81 | an existing id is rejected with nothing changed; otherwise a fresh active ZAR account with the given (or zero) balance is filed under the id, and no other entry changes (corrected for a negative balance, see Findings) |
| Service.AccountService.Deposit | bank-link-backend/src/main/java/com/banklink/service/AccountService.java:86-111 | a non-positive amount, then an unknown id, is rejected with nothing changed; otherwise the balance becomes old + amount and exactly one DEPOSIT record is appended with that amount, the new balance as balanceAfter and the description "Deposit to account id"; no other account is written |
| Service.AccountService.Withdraw | bank-link-backend/src/main/java/com/banklink/service/AccountService.java:116-145 | a non-positive amount, then an unknown id, then a balance below the amount, is rejected with nothing changed; otherwise the balance becomes old - amount (non-negative, by the invariant) and exactly one WITHDRAWAL record with the new balance is appended |
| Service.AccountService.Transfer | bank-link-backend/src/main/java/com/banklink/service/AccountService.java:150-206 | rejects, in this order and with nothing changed: a non-positive amount, equal ids, an unknown source, an unknown destination, insufficient funds; otherwise the source loses and the destination gains the amount, so their sum is unchanged, and a TRANSFER_OUT record for the source and then a TRANSFER_IN record for the destination are appended, each with the amount and its account's new balance |
| Service.AccountService.Move | bank-link-backend/src/main/java/com/banklink/service/AccountService.java:176-205 | the writes of a checked transfer: two distinct accounts move by -amount and +amount, and two fresh records follow the existing log |
| Service.AccountService.GetTransactionHistory | bank-link-backend/src/main/java/com/banklink/service/AccountService.java:211-217 | an unknown account is rejected; otherwise the answer is newest first and holds exactly the stored records of that account id |
| Service.AccountService.GetAccountBalance | bank-link-backend/src/main/java/com/banklink/service/AccountService.java:222-228 | an unknown account is rejected; otherwise the balance is the stored one, never negative, and equals the opening balance plus the signed amounts of the account's own records |
| Service.AccountService.InitializeDefaultAccounts | bank-link-backend/src/main/java/com/banklink/service/AccountService.java:233-238 | an empty store gets exactly ACC001 (Cheque) and SAV001 (Savings), each at 1000.00; a non-empty store is left unchanged |
| Service.AccountService.DeleteAccount | bank-link-backend/src/main/java/com/banklink/service/AccountService.java:243-275 | (the HEAD lines 243-246 and 268-275, around the other revision) an unknown account, then one with a non-zero balance, is rejected with nothing changed; otherwise exactly that account is removed and, by the cascade, exactly its records: it owns none afterwards, the history of every other id is unchanged, and the invariant is kept |
| Service.AccountService.Commit | bank-link-backend/src/main/java/com/banklink/service/AccountService.java:274 | the stores take the new state (the account map without the account, the log without its records) and the invariant holds of it |

## Left out

- The second revision inside the merge conflict (AccountService.java:38-54, 247-266,
  277-307) is not modelled. It is built on a `HashMap`. It reports failure by
  returning `false` (withdraw, transfer) or by doing nothing (deposit). It also calls a `Transaction(String, Double)` constructor and a
  null-returning `getAccountById`, and neither exists in these files.
- Bean Validation, `@Transactional`, storage failures and concurrency are not
  modelled. For example, `accountType` is declared `nullable = false` and
  `@NotBlank` (BankAccount.java:22-23), so the source's save refuses a null or blank
  type. `Service.AccountService.CreateAccount` files such an account. Unlike the
  negative balance under Findings, this is not corrected. Atomicity comes from the ordering: every check precedes every write in
  each method.
- Floating-point `Double` arithmetic is not modelled. `getFormattedBalance`,
  `getFormattedAmount`, `toString` and `hashCode` are left out too.
- Error messages are not modelled. Each exception is a `LedgerError` case carrying
  the value the message reports.
- Clock readings are parameters. One operation uses one `now` for all of its
  `LocalDateTime.now()` calls.
- The model does not capture two saves of a transfer that fall in the same
  millisecond. There they would get the same "TXN…" id. `transaction_id` is declared
  `unique = true` (Transaction.java:19), so in the source the second save would be
  refused as a storage failure, and `@Transactional` would roll the transfer back.
  `Transfer` takes two readings, `millisOut` and `millisIn`, does not assume they
  differ, and stores both records.
- `BankAccount.transactions` is never updated by the service, so in the model it
  stays as the constructor left it. In the source this `mappedBy` collection
  (BankAccount.java:62-65), once loaded, holds the account's stored records.
  `Ledger.Owned(log, a)` stands for `getTransactions()`, not the field.
- The service never sets `relatedTransactionId`, `referenceNumber` or the account's
  `user` link, and the model does not set them either. The controllers, `UserService`,
  `User`, the DTOs and the frontend are not part of this model.
- `Text.ToUpperAscii` folds ASCII letters only. `equalsIgnoreCase`'s Unicode case
  folding beyond ASCII is not modelled.
- Service.AccountService.Transfer: the source posts both balances before it builds
  and saves the two records. The model posts and saves the debit, then the credit.
  No check and no other party can observe the difference.
- Service.AccountService.Transfer: its `ensures` does not list the untouched
  accounts. Their being unchanged follows from the field-precise `modifies` clauses,
  which name only the two accounts' balance and timestamp fields.
- Service.AccountService.Deposit: returns the stored account object itself, which is
  what `bankAccountRepository.save` returns for a managed entity.
- Service.AccountService.Withdraw: returns the stored account object itself, as
  Deposit does.
- Service.AccountService.GetTransactionHistory: filters by the path
  `t.account.accountId`, as the query does. The model does not prove that a stored
  record's owner is a stored account.
- Model.BankAccount.PrePersist: `balance` is an `int` here and is never null, so the
  source's null-balance fill has no counterpart.
- The other queries of `TransactionRepository` and `BankAccountRepository` are not
  used by the service, so they are left out.

## Findings

| source | as written | input that shows it | evidently intended | confidence | as-written member | corrected member |
|---|---|---|---|---|---|---|
| bank-link-backend/src/main/java/com/banklink/service/AccountService.java:76 | createAccount stores `initialBalance` whatever its sign | createAccount("X1", "Cheque", -1.00) stores an account with balance -1.00 | a negative opening balance is rejected, since BankAccount.java:26-29 declares the balance `@PositiveOrZero`; every other operation keeps balances non-negative | not executed; if Bean Validation runs at persist time, it would reject the save instead | Service.NegativeOpeningBalanceAdmitted | Service.AccountService.CreateAccount |
