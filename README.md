# MicroBank ledger core in Dafny

This project models the money-transfer core of MicroBank, a layered ASP.NET service over EF
Core. It covers:

- the three transaction command handlers: add, amend and reverse a transfer;
- the customer and account command handlers that behave like them: add, update and soft-delete a customer, soft-delete an account;
- the generic repository they stage their edits through;
- the unit of work that saves, commits and rolls back;
- the `Result` constructors;
- the byte-array comparison behind password checks.

## How the model is built

- **Entities.** Every table row is an `Entities.Entity<D>`. It holds the `BaseEntity` fields (id, `Active`, `CreatedBy`, `UpdateBy`, `UpdateDate`, `CreatedDate`) and a payload `D`: `CustomerData`, `TransactionData` or `AccountData`.
  - `Guid` is a `nat`, and `Guid.Empty` is 0.
  - A C# `decimal` is an unbounded `int`. Its overflow at ±79228162514264337593543950335 is written out (`Commands.InDecimalRange`).
- **Tables.** A table is a `seq` of rows, in table order, so that `FirstOrDefault` and `Take` mean what they do in the source. `UniqueIds` stands for the primary key.
- **The store.** The data a unit of work sees has three layers (`Persistence.World`):
  - `staged` is the EF change tracker's view. It lives in the `rows` field of each `Repository.GenericRepository` object.
  - `saved` is what `SaveChangesAsync` wrote inside the open database transaction.
  - `committed` is what the database holds durably.
  - With no transaction open, `saved == committed`.
  - Every lookup reads `staged`. In the source, `GetByIdAsync` is a tracking query, so it returns the tracked row with its staged edits. `GetByExpressionAsync` and `ListAsync` default to `AsNoTracking` and read the database. The two views agree because each request gets a fresh scoped context (InfrastructureDependencyInjections.cs:20-31), whose tracker starts out matching the database. Every `GetByExpressionAsync` call of a handler comes before its first edit, and the later `GetByIdAsync` lookups filter on the id and `Active`, which no handler edits before them.
- **Imperative and pure halves.**
  - The source's imperative code is modelled as methods of the classes `Persistence.UnitOfWork` and `Repository.GenericRepository`, and as the handler methods (`Handle`) that update those objects in place.
  - Every method is proved equal to a pure step function on `World`, for example `(r, uow.State()) == HandleStep(old(uow.State()), request, io)`.
  - The lemmas about a handler are stated on its step function.
- **Foreign answers.** An `Io` record carries everything the outside world answers during one request:
  - `DateTime.UtcNow` and `Guid.NewGuid()`;
  - an exception from the query behind `GetByExpressionAsync`;
  - EF Core write failures;
  - the outcome of `SaveChangesAsync`;
  - exceptions from the database's commit and rollback.
- **Messages.**
  - Each fixed message of the source is a constructor of `Messages.Message`, and `Text` gives its wording.
  - The `DeleteAsync` messages keep only their fixed part. The ` Id: {id}` suffix is dropped.
- **Balances.** `Ledger` defines the reference semantics for balance moves:
  - `Credit(rows, id, delta)` adds `delta` to the balances of the rows with that id;
  - `Total` is the sum of all balances;
  - `BalanceOf` is the balance of the first row with a key.
  - The handlers' `_dbSet.Update` of a loaded and edited customer is proved to be such a credit (`Ledger.ReplaceIsCredit`).

**Where the code does not behave like a ledger, the model follows the code:**

- **Reverse** (`DeleteTransactionCommand.cs:66`) credits the recipient, it does not debit them. It also never sets `Active=false` on the record (lines 72-74), so it can be repeated.
- **Amend** (`UpdateTransactionCommand.cs:52-95`):
  - it moves `|old - new|` from sender to recipient, even when the amount shrank;
  - its funds check compares the balance with the full new amount, not the difference;
  - its "keep the original parties" fallback (lines 59-61, 80-83) cannot be reached, because lines 33-37 already reject a null or empty party.
- **Early failures.** The transfer handlers return early after `BeginTransactionAsync` without rolling back, so the transaction stays open.
- **Customer and account handlers.**
  - Their catch blocks answer 500 with the exception's message and roll nothing back.
  - `UpdateCustomerCommand` answers an unknown id with 400, where the delete handlers answer 404.
  - `UpdateCustomerCommand`'s record defaults for surname, email and `UpdateBy` are a single space, not an empty string, so an omitted field overwrites the stored value with `" "`.
  - `AddCustomerCommand` keeps a null `AccountId`, since null is not `Guid.Empty`.
- **Unit of work.** Two corrections are listed under "## Findings", and the handlers use the corrected `CommitTransactionAsync` and `RollbackTransactionAsync`; `Commands.CompleteAsWrittenStep` keeps the closing lines as written for comparison.
- **Disposal.** `Dispose` closes the context's connection, and the database rolls back a transaction left open; the model shows this as `saved` falling back to `committed`, after which commit and rollback throw.

## Model

| member | source | states |
|---|---|---|
| Results.Succeed | DomainLayer/Result.cs:30-31 | a success with status 200, the message defaulting to the empty string |
| Results.Fail | DomainLayer/Result.cs:39-40 | a failure with the given message and status, 400 unless one is supplied |
| Results.SucceedValue | DomainLayer/Result.cs:77-78 | a success with status 200 carrying the value |
| Results.FailValue | DomainLayer/Result.cs:87-88 | a failure, status 400 unless supplied, value `default(T)` unless supplied |
| Entities.WithBalance | ApplicationLayer/CQRS/Commands/Transactions/AddTransactionCommand.cs:59 | an edit of `Balance` changes that field and no other |
| Entities.IsNullOrEmpty | ApplicationLayer/CQRS/Commands/Customers/UpdateCustomerCommand.cs:36 | true exactly for null and the empty string |
| Repository.FirstIndex | InfrastructureLayer/Repositories/GenericRepository.cs:111 | `FirstOrDefaultAsync`: the first matching row's index, none exactly when no row matches |
| Repository.FirstActive | InfrastructureLayer/Repositories/GenericRepository.cs:131 | the first row with the id that is also active, none exactly when there is no such row |
| Repository.GetById | InfrastructureLayer/Repositories/GenericRepository.cs:124-143 | the empty id is 400; success exactly for an active row with the id, which it returns; otherwise 404 |
| Repository.GetByExpression | InfrastructureLayer/Repositories/GenericRepository.cs:93-117 | a null expression is 400; the first match is returned whatever its `Active`; no match is a failure with the default 400 |
| Repository.Where | InfrastructureLayer/Repositories/GenericRepository.cs:168-169 | every returned row is a row of the table that satisfies the filter, and every row that satisfies it is returned |
| Repository.Take | InfrastructureLayer/Repositories/GenericRepository.cs:174-175 | the first `count` rows, or all of them when there are fewer |
| Repository.List | InfrastructureLayer/Repositories/GenericRepository.cs:155-183 | always a success; every returned row satisfies the filter; at most `count` rows when `count > 0`; with `count <= 0` every matching row is returned; with no filter and no count the whole table |
| Repository.ListIsTakeOfUnlimited | InfrastructureLayer/Repositories/GenericRepository.cs:174-175 | with `count > 0` the listing is exactly the first `count` rows of the unlimited listing |
| Repository.Replace | InfrastructureLayer/Repositories/GenericRepository.cs:197 | `_dbSet.Update` keeps the table's length |
| Repository.ReplaceRows | InfrastructureLayer/Repositories/GenericRepository.cs:197 | the updated rows become the entity, and every other row stays |
| Repository.ReplaceKeepsUniqueIds | InfrastructureLayer/Repositories/GenericRepository.cs:197 | an update keeps the primary key unique |
| Repository.AddEntity | InfrastructureLayer/Repositories/GenericRepository.cs:33-52 | null is 400; success exactly when EF Core reports no failure and no row has the id, and then the row is appended; a failure is 400 and leaves the table as it was |
| Repository.UpdateEntity | InfrastructureLayer/Repositories/GenericRepository.cs:190-209 | null is 400; a tracking failure is 400 with its message and leaves the table; otherwise the rows with the key become the entity |
| Repository.DeleteEntity | InfrastructureLayer/Repositories/GenericRepository.cs:59-83 | null, an unknown id and an inactive row are each 400 with their own message; otherwise only `Active` (now false) and `UpdateDate` of that row change |
| Repository.DeleteTwiceFails | InfrastructureLayer/Repositories/GenericRepository.cs:71-72 | a second delete of the same id fails with "already marked as deleted" and changes nothing |
| Repository.DeletedIsNotFound | InfrastructureLayer/Repositories/GenericRepository.cs:131 | once deleted, `GetByIdAsync` no longer finds the row |
| Repository.GenericRepository.constructor | InfrastructureLayer/Repositories/GenericRepository.cs:23-26 | a repository over the given table |
| Repository.GenericRepository.Add | InfrastructureLayer/Repositories/GenericRepository.cs:33-52 | the result and new table are those of `AddEntity` |
| Repository.GenericRepository.Update | InfrastructureLayer/Repositories/GenericRepository.cs:190-209 | the result and new table are those of `UpdateEntity` |
| Repository.GenericRepository.Delete | InfrastructureLayer/Repositories/GenericRepository.cs:59-83 | the result and new table are those of `DeleteEntity` |
| Persistence.BeginStep | InfrastructureLayer/Repositories/UnitOfWork.cs:73-79 | with a transaction open nothing happens, so at most one is open; otherwise one opens, or a missing or disposed context throws |
| Persistence.SaveStep | InfrastructureLayer/Repositories/UnitOfWork.cs:46-64 | a null context, an exception or fewer than one row written fails with 400 and writes nothing; otherwise `Succeed(true)` and the staged data is saved (and committed when no transaction is open) |
| Persistence.DisposeStep | InfrastructureLayer/Repositories/UnitOfWork.cs:32-40 | the first call with a context marks it disposed, and the database's rollback of an open transaction drops what was saved in it; the handle, the staged and the committed data stay; a later call changes nothing |
| Persistence.RollbackStep | InfrastructureLayer/Repositories/UnitOfWork.cs:121-135 | afterwards no transaction is open, even when the rollback throws; what was saved is dropped; committed data stays; on a disposed context the rollback throws |
| Persistence.RollbackAsWrittenStep | InfrastructureLayer/Repositories/UnitOfWork.cs:125 | with nothing open, `await _currentTransaction?.RollbackAsync()` throws a NullReferenceException |
| Persistence.CommitStep | InfrastructureLayer/Repositories/UnitOfWork.cs:91-111 | a good commit makes the saved data durable; a failed one is rolled back and rethrown, or the rollback's exception escapes; on a disposed context it always fails and commits nothing; either way nothing is open afterwards |
| Persistence.CommitAsWrittenStep | InfrastructureLayer/Repositories/UnitOfWork.cs:95-100 | with nothing open, the commit throws a NullReferenceException |
| Persistence.FailedCommitThenRollbackAsWrittenThrows | InfrastructureLayer/Repositories/UnitOfWork.cs:95-125 | after a failed commit, the handlers' catch-block rollback throws as written |
| Persistence.FailedCommitThenRollbackIsQuiet | InfrastructureLayer/Repositories/UnitOfWork.cs:97-133 | with the corrected rollback that second rollback is a silent no-op and the committed data is as before |
| Persistence.SecondCommit | InfrastructureLayer/Repositories/UnitOfWork.cs:95-109 | a second commit throws as written and does nothing when corrected |
| Persistence.DisposeLosesTheOpenTransaction | InfrastructureLayer/Repositories/UnitOfWork.cs:32-111 | a commit after disposing with a transaction open throws, and the committed data stay as before the transaction |
| Persistence.UnitOfWork.constructor | InfrastructureLayer/Repositories/UnitOfWork.cs:23-26 | a unit of work with no transaction open, not disposed, over the given repositories |
| Persistence.UnitOfWork.Dispose | InfrastructureLayer/Repositories/UnitOfWork.cs:32-40 | the new state is that of `DisposeStep`, and the context is disposed at most once |
| Persistence.UnitOfWork.SaveChanges | InfrastructureLayer/Repositories/UnitOfWork.cs:46-64 | the unit of work's new state and answer are those of `SaveStep` |
| Persistence.UnitOfWork.BeginTransaction | InfrastructureLayer/Repositories/UnitOfWork.cs:73-79 | the new state is that of `BeginStep` |
| Persistence.UnitOfWork.RollbackTransaction | InfrastructureLayer/Repositories/UnitOfWork.cs:121-135 | the new state is that of `RollbackStep` |
| Persistence.UnitOfWork.CommitTransaction | InfrastructureLayer/Repositories/UnitOfWork.cs:91-111 | the new state is that of `CommitStep` |
| Commands.TransferArgumentError | ApplicationLayer/CQRS/Commands/Transactions/AddTransactionCommand.cs:31-41 | no argument error exactly when both parties are given and non-empty, they differ and the amount is positive; each failing check is reported with its own message, the first in source order winning: empty sender, empty recipient, same account, non-positive amount |
| Commands.FindRecord | ApplicationLayer/CQRS/Commands/Transactions/DeleteTransactionCommand.cs:35 | the lookup by id succeeds exactly when some row, active or not, has the id, and returns that row |
| Commands.Retired | ApplicationLayer/CQRS/Commands/Customers/DeleteCustomerCommand.cs:39-40 | a soft-deleted row is inactive, has the new update date and is otherwise unchanged |
| Commands.AbortStep | ApplicationLayer/CQRS/Commands/Transactions/AddTransactionCommand.cs:94-98 | the catch block with the corrected rollback: it rolls back and answers 500 with the exception's message, or lets the rollback's own exception escape (always on a disposed context); no transaction is left open and committed data stays |
| Commands.AbortAsWrittenStep | ApplicationLayer/CQRS/Commands/Transactions/AddTransactionCommand.cs:94-98 | the catch block as written: with no transaction open it throws a NullReferenceException; otherwise it is `AbortStep` |
| Commands.Abort | ApplicationLayer/CQRS/Commands/Transactions/AddTransactionCommand.cs:94-98 | the new state and answer are those of `AbortStep` |
| Commands.SaveFailure | ApplicationLayer/CQRS/Commands/Transactions/AddTransactionCommand.cs:86-88 | a failed save is answered with either a fixed message and status or the save's own message and status |
| Commands.CompleteStep | ApplicationLayer/CQRS/Commands/Transactions/AddTransactionCommand.cs:86-92 | save, then commit: success exactly when both succeed, and then the staged data is committed; a failed commit goes to the catch block |
| Commands.Complete | ApplicationLayer/CQRS/Commands/Transactions/AddTransactionCommand.cs:86-92 | the new state and answer are those of `CompleteStep` |
| Commands.CompleteAsWrittenStep | ApplicationLayer/CQRS/Commands/Transactions/AddTransactionCommand.cs:86-98 | the closing lines with the commit and catch block as written; a failed save is answered as in `CompleteStep` |
| Commands.FailedCommitMakesTheHandlerThrow | ApplicationLayer/CQRS/Commands/Transactions/AddTransactionCommand.cs:86-98 | as written a failed commit makes the handler throw a NullReferenceException where the corrected code answers 500, with the same data left behind; on every other path the two agree |
| Commands.PersistStep | ApplicationLayer/CQRS/Commands/Customers/DeleteCustomerCommand.cs:46-50 | save without a transaction of its own: success exactly when the save succeeds; a failure changes no saved or committed data |
| Commands.Persist | ApplicationLayer/CQRS/Commands/Customers/DeleteCustomerCommand.cs:46-50 | the new state and answer are those of `PersistStep` |
| Commands.UpdateCustomerStep | ApplicationLayer/CQRS/Commands/Customers/UpdateCustomerCommand.cs:48-56 | a failed update is answered with its message and 400 and changes nothing; success exactly when the update and the save succeed, and then the row replaces the one with its id and is saved; a failed save is answered with the save's message and status; a failure changes no saved or committed data |
| Commands.UpdateCustomerRow | ApplicationLayer/CQRS/Commands/Customers/DeleteCustomerCommand.cs:42-50 | the new state and answer are those of `UpdateCustomerStep` |
| Commands.UpdateAccountStep | ApplicationLayer/CQRS/Commands/Accounts/DeleteAccountCommand.cs:42-50 | the same on the account table |
| Commands.UpdateAccountRow | ApplicationLayer/CQRS/Commands/Accounts/DeleteAccountCommand.cs:42-50 | the new state and answer are those of `UpdateAccountStep` |
| Ledger.Credit | ApplicationLayer/CQRS/Commands/Transactions/AddTransactionCommand.cs:59 | a credit adds `delta` to the balance of the rows with the key, keeps their other fields, and keeps every other row |
| Ledger.TotalOfOneCredit | ApplicationLayer/CQRS/Commands/Transactions/AddTransactionCommand.cs:59 | with a unique key present, a credit moves the total by exactly `delta` |
| Ledger.BalanceOfCredit | ApplicationLayer/CQRS/Commands/Transactions/AddTransactionCommand.cs:59 | a credit moves the credited customer's balance by `delta` and no other customer's |
| Ledger.CreditKeepsKey | ApplicationLayer/CQRS/Commands/Transactions/AddTransactionCommand.cs:59 | a credit keeps ids, so the key stays unique |
| Ledger.BalanceOfFound | ApplicationLayer/CQRS/Commands/Transactions/AddTransactionCommand.cs:44 | the customer a lookup found holds the balance `BalanceOf` gives for its id |
| Ledger.ReplaceIsCredit | ApplicationLayer/CQRS/Commands/Transactions/AddTransactionCommand.cs:59-60 | `_dbSet.Update` of a loaded customer whose balance was changed is a credit by the change |
| Ledger.MoveBetween | ApplicationLayer/CQRS/Commands/Transactions/AddTransactionCommand.cs:59-67 | debiting one loaded customer and crediting another by an amount keeps the total, moves each balance by the amount, and keeps every other row |
| Ledger.CreditBoth | ApplicationLayer/CQRS/Commands/Transactions/DeleteTransactionCommand.cs:51-70 | crediting both parties, the second loaded after the first's update, grows the total by twice the amount |
| Ledger.CreditEach | ApplicationLayer/CQRS/Commands/Transactions/DeleteTransactionCommand.cs:51-70 | with two distinct parties, each balance grows by the amount and no other row changes |
| Ledger.CreditZero | ApplicationLayer/CQRS/Commands/Transactions/UpdateTransactionCommand.cs:71 | a credit of 0 changes nothing |
| Ledger.TransferByKey | ApplicationLayer/CQRS/Commands/Transactions/AddTransactionCommand.cs:59-64 | a move by key keeps the table's length and total, moves both balances by the amount and keeps every other row |
| AddTransaction.Record | ApplicationLayer/CQRS/Commands/Transactions/AddTransactionCommand.cs:71-80 | the new record: the new id, active, created now, with the loaded parties and the amount |
| AddTransaction.WithdrawStep | ApplicationLayer/CQRS/Commands/Transactions/AddTransactionCommand.cs:59-62 | the sender's debit and everything after it: a `decimal` overflow goes to the catch block (`AbortStep`: rollback, then 500 or the rollback's exception); a failed write is 500 "sender not debited" with nothing changed; a failure commits nothing |
| AddTransaction.DepositStep | ApplicationLayer/CQRS/Commands/Transactions/AddTransactionCommand.cs:64-67 | the recipient's credit and the last stage: a `decimal` overflow goes to the catch block (`AbortStep`: rollback, then 500 or the rollback's exception); a failed write is 500 "recipient not credited" with nothing changed; a failure commits nothing; success commits the credit and the appended record and answers the new id |
| AddTransaction.AppendStep | ApplicationLayer/CQRS/Commands/Transactions/AddTransactionCommand.cs:71-92 | a failed record add, or an id already in the table, is 400 "transaction not added" with the World unchanged; a failed save is 401 "added data not saved"; a failed commit is 500 with the commit's or rollback's message; success exactly when none of these fails, and then the record is committed and its id answered |
| AddTransaction.HandleStep | ApplicationLayer/CQRS/Commands/Transactions/AddTransactionCommand.cs:26-55 | a failed `BeginTransactionAsync` escapes; argument errors are 400 before any lookup; then a missing or inactive sender is 404, short funds 400 and a missing or inactive recipient 404, in that order; every failure leaves committed data unchanged |
| AddTransaction.WithdrawCommitsBoth | ApplicationLayer/CQRS/Commands/Transactions/AddTransactionCommand.cs:59-92 | a successful run from the debit on commits both balance updates and the appended record |
| AddTransaction.WithdrawSucceedsExactlyWhen | ApplicationLayer/CQRS/Commands/Transactions/AddTransactionCommand.cs:59-90 | from the debit on, success exactly when no write fails, the save writes and the commit goes through |
| AddTransaction.AddSucceedsExactlyWhen | ApplicationLayer/CQRS/Commands/Transactions/AddTransactionCommand.cs:26-92 | success exactly when the arguments pass, both parties are active, the sender's balance covers the amount, nothing overflows, no write fails and save and commit succeed |
| AddTransaction.AddReachesWithdraw | ApplicationLayer/CQRS/Commands/Transactions/AddTransactionCommand.cs:44-57 | a successful add passed every check and went on to the debit with the loaded parties |
| AddTransaction.AddCommitsBothUpdates | ApplicationLayer/CQRS/Commands/Transactions/AddTransactionCommand.cs:59-90 | on success the committed customer table is the sender's debit and the recipient's credit, and the record is appended |
| AddTransaction.WithdrawMovesTheAmount | ApplicationLayer/CQRS/Commands/Transactions/AddTransactionCommand.cs:59-64 | the debit and credit keep the total balance and move the two balances by exactly the amount |
| AddTransaction.AddMovesExactlyTheAmount | ApplicationLayer/CQRS/Commands/Transactions/AddTransactionCommand.cs:49-64 | on success the sender loses exactly the amount and keeps a balance of at least 0, the recipient gains it, the total is kept and no other customer changes |
| AddTransaction.Handle | ApplicationLayer/CQRS/Commands/Transactions/AddTransactionCommand.cs:24-99 | the handler's answer and the unit of work's new state are those of `HandleStep` |
| AddTransaction.Withdraw | ApplicationLayer/CQRS/Commands/Transactions/AddTransactionCommand.cs:59-62 | the debit's new state and answer are those of `WithdrawStep` |
| AddTransaction.Deposit | ApplicationLayer/CQRS/Commands/Transactions/AddTransactionCommand.cs:64-67 | the credit's new state and answer are those of `DepositStep` |
| AddTransaction.Append | ApplicationLayer/CQRS/Commands/Transactions/AddTransactionCommand.cs:71-92 | the record's new state and answer are those of `AppendStep` |
| UpdateTransaction.ArgumentError | ApplicationLayer/CQRS/Commands/Transactions/UpdateTransactionCommand.cs:30-43 | an empty transaction id comes first, then the transfer checks of `TransferArgumentError` in source order; none exactly when all pass |
| UpdateTransaction.Difference | ApplicationLayer/CQRS/Commands/Transactions/UpdateTransactionCommand.cs:52-55 | the difference is `|old - new|`, at least 0, and 0 exactly when the amounts agree |
| UpdateTransaction.SenderChoice | ApplicationLayer/CQRS/Commands/Transactions/UpdateTransactionCommand.cs:59-61 | the request's sender unless it is null or empty, then the record's |
| UpdateTransaction.RecipientChoice | ApplicationLayer/CQRS/Commands/Transactions/UpdateTransactionCommand.cs:80-83 | the request's recipient unless it is empty, then the record's |
| UpdateTransaction.FallbackUnreachable | ApplicationLayer/CQRS/Commands/Transactions/UpdateTransactionCommand.cs:59-61 | once the argument checks pass, the sender and recipient chosen are the request's, never the record's |
| UpdateTransaction.Amended | ApplicationLayer/CQRS/Commands/Transactions/UpdateTransactionCommand.cs:98-102 | the record takes the request's sender, recipient and amount and keeps its id, `Active` and dates |
| UpdateTransaction.RewriteStep | ApplicationLayer/CQRS/Commands/Transactions/UpdateTransactionCommand.cs:98-114 | a failed record update is answered with its message and 400; a failed save with the save's message and status; a failed commit with 500 and the commit's or rollback's message; otherwise commit and answer the transaction id |
| UpdateTransaction.DepositStep | ApplicationLayer/CQRS/Commands/Transactions/UpdateTransactionCommand.cs:91-95 | the recipient's credit and the rewrite: with a positive difference, a `decimal` overflow goes to the catch block (`AbortStep`: rollback, then 500 or the rollback's exception); a failed write is 500 "recipient not credited" with nothing changed; a failure commits nothing; success commits the credited recipient and the amended record and answers the transaction id |
| UpdateTransaction.WithdrawStep | ApplicationLayer/CQRS/Commands/Transactions/UpdateTransactionCommand.cs:71-87 | the sender's debit and everything after it: with a positive difference, a `decimal` overflow goes to the catch block (`AbortStep`: rollback, then 500 or the rollback's exception); a failed write is 500 "sender not debited" with nothing changed; a failure commits nothing |
| UpdateTransaction.AmendStep | ApplicationLayer/CQRS/Commands/Transactions/UpdateTransactionCommand.cs:52-69 | a missing or inactive sender is 404; a balance below the full new amount (not the difference) is 400; a failure commits nothing |
| UpdateTransaction.HandleStep | ApplicationLayer/CQRS/Commands/Transactions/UpdateTransactionCommand.cs:25-49 | argument errors are 400 before any lookup; the record lookup ignores `Active`, and an unknown id is 404; every failure leaves committed data unchanged |
| UpdateTransaction.DepositSucceedsExactlyWhen | ApplicationLayer/CQRS/Commands/Transactions/UpdateTransactionCommand.cs:91-113 | from the credit on, success exactly when no write fails and save and commit succeed |
| UpdateTransaction.WithdrawReachesRecipient | ApplicationLayer/CQRS/Commands/Transactions/UpdateTransactionCommand.cs:71-113 | a successful run from the debit on found the recipient after the debit |
| UpdateTransaction.WithdrawMovesTheDifference | ApplicationLayer/CQRS/Commands/Transactions/UpdateTransactionCommand.cs:71-92 | the staged table is the debit and credit by the difference |
| UpdateTransaction.AmendPassesChecks | ApplicationLayer/CQRS/Commands/Transactions/UpdateTransactionCommand.cs:30-69 | a successful amend passed the argument checks, found the record and the sender, and the sender's balance covered the full new amount |
| UpdateTransaction.AmendReachesWithdraw | ApplicationLayer/CQRS/Commands/Transactions/UpdateTransactionCommand.cs:46-76 | a successful amend went on to the debit with the loaded record and sender |
| UpdateTransaction.AmendIsTwoCredits | ApplicationLayer/CQRS/Commands/Transactions/UpdateTransactionCommand.cs:71-92 | on success the committed customers are the table debited and credited by the difference |
| UpdateTransaction.AmendFindsBothParties | ApplicationLayer/CQRS/Commands/Transactions/UpdateTransactionCommand.cs:33-87 | on success both parties of the request are customers of the table, and they differ |
| UpdateTransaction.AmendMovesTheDifference | ApplicationLayer/CQRS/Commands/Transactions/UpdateTransactionCommand.cs:71-92 | on success the sender loses the difference, the recipient gains it, the total is kept and no other customer changes, whichever way the amount moved |
| UpdateTransaction.AmendRewritesTheRecord | ApplicationLayer/CQRS/Commands/Transactions/UpdateTransactionCommand.cs:98-114 | on success the answer is the transaction id and the committed record is the amended one |
| UpdateTransaction.AmendedTable | ApplicationLayer/CQRS/Commands/Transactions/UpdateTransactionCommand.cs:98-104 | the amended record replaces exactly the record with that id |
| UpdateTransaction.AmendSameAmountKeepsBalances | ApplicationLayer/CQRS/Commands/Transactions/UpdateTransactionCommand.cs:71-92 | when the new amount equals the old one, no balance changes |
| UpdateTransaction.AmendShrinkingStillDebits | ApplicationLayer/CQRS/Commands/Transactions/UpdateTransactionCommand.cs:52-72 | when the amount shrinks, the sender is still debited, by the difference |
| UpdateTransaction.Handle | ApplicationLayer/CQRS/Commands/Transactions/UpdateTransactionCommand.cs:23-121 | the handler's answer and new state are those of `HandleStep` |
| UpdateTransaction.Amend | ApplicationLayer/CQRS/Commands/Transactions/UpdateTransactionCommand.cs:52-69 | the new state and answer are those of `AmendStep` |
| UpdateTransaction.Withdraw | ApplicationLayer/CQRS/Commands/Transactions/UpdateTransactionCommand.cs:71-87 | the new state and answer are those of `WithdrawStep` |
| UpdateTransaction.Deposit | ApplicationLayer/CQRS/Commands/Transactions/UpdateTransactionCommand.cs:91-95 | the new state and answer are those of `DepositStep` |
| UpdateTransaction.Rewrite | ApplicationLayer/CQRS/Commands/Transactions/UpdateTransactionCommand.cs:98-114 | the new state and answer are those of `RewriteStep` |
| DeleteTransaction.Touched | ApplicationLayer/CQRS/Commands/Transactions/DeleteTransactionCommand.cs:72 | the record gets the new update date and keeps every other field, `Active` included |
| DeleteTransaction.TouchStep | ApplicationLayer/CQRS/Commands/Transactions/DeleteTransactionCommand.cs:72-84 | a failed record update is answered with its message and 400; a failed save with the save's message and status; a failed commit with 500 and the commit's or rollback's message; otherwise commit and answer the transaction id |
| DeleteTransaction.CreditRecipientStep | ApplicationLayer/CQRS/Commands/Transactions/DeleteTransactionCommand.cs:66-70 | the recipient's credit (not a debit) and the touch: a `decimal` overflow goes to the catch block (`AbortStep`: rollback, then 500 or the rollback's exception); a failed write is 500 "recipient not credited" with nothing changed; success exactly when nothing overflows, no write fails and save and commit succeed, and then the credit and the touch are committed |
| DeleteTransaction.LookUpRecipientStep | ApplicationLayer/CQRS/Commands/Transactions/DeleteTransactionCommand.cs:60-62 | the recipient lookup on the table as staged after the sender's credit, and everything after it: a failure commits nothing |
| DeleteTransaction.ReturnStep | ApplicationLayer/CQRS/Commands/Transactions/DeleteTransactionCommand.cs:51-55 | the sender's credit by the record's amount and everything after it: a `decimal` overflow goes to the catch block (`AbortStep`: rollback, then 500 or the rollback's exception); a failed write is 500 with the sender-return message and nothing changed; a failure commits nothing |
| DeleteTransaction.HandleStep | ApplicationLayer/CQRS/Commands/Transactions/DeleteTransactionCommand.cs:26-49 | an empty id is 400; the lookup ignores `Active`, and an unknown id is 404; a missing or inactive sender is 404; every failure leaves committed data unchanged |
| DeleteTransaction.ReturnSucceedsExactlyWhen | ApplicationLayer/CQRS/Commands/Transactions/DeleteTransactionCommand.cs:51-84 | from the sender's credit on, success exactly when the recipient is found, nothing overflows, no write fails and save and commit succeed |
| DeleteTransaction.ReturnRecipientMissing | ApplicationLayer/CQRS/Commands/Transactions/DeleteTransactionCommand.cs:60-62 | a missing recipient after the sender's credit is 404 and commits nothing |
| DeleteTransaction.ReturnCommitsTheTouch | ApplicationLayer/CQRS/Commands/Transactions/DeleteTransactionCommand.cs:72-84 | on success the touched record is committed |
| DeleteTransaction.ReturnCreditsBoth | ApplicationLayer/CQRS/Commands/Transactions/DeleteTransactionCommand.cs:51-66 | the staged customers are both parties credited by the amount, and the total grows by twice the amount |
| DeleteTransaction.ReturnCreditsEach | ApplicationLayer/CQRS/Commands/Transactions/DeleteTransactionCommand.cs:51-66 | with distinct parties, each balance grows by the amount and no other row changes |
| DeleteTransaction.ReturnReachesRecipient | ApplicationLayer/CQRS/Commands/Transactions/DeleteTransactionCommand.cs:60-68 | a successful return found the recipient after the sender's credit |
| DeleteTransaction.ReverseReachesReturn | ApplicationLayer/CQRS/Commands/Transactions/DeleteTransactionCommand.cs:31-49 | a successful reverse passed the checks and went on to the sender's credit with the loaded record |
| DeleteTransaction.ReverseCreditsBoth | ApplicationLayer/CQRS/Commands/Transactions/DeleteTransactionCommand.cs:51-66 | on success the committed customers are both parties credited, the total grown by twice the amount |
| DeleteTransaction.ReverseCreditsEach | ApplicationLayer/CQRS/Commands/Transactions/DeleteTransactionCommand.cs:51-66 | on success, with distinct parties, each balance grows by the amount and no other customer changes |
| DeleteTransaction.TouchChangesOneRow | ApplicationLayer/CQRS/Commands/Transactions/DeleteTransactionCommand.cs:72-74 | the touch changes only the record with that id |
| DeleteTransaction.TouchedIsFoundAgain | ApplicationLayer/CQRS/Commands/Transactions/DeleteTransactionCommand.cs:35-74 | the touched record is still found by the lookup |
| DeleteTransaction.ReverseTouchesOnlyUpdateDate | ApplicationLayer/CQRS/Commands/Transactions/DeleteTransactionCommand.cs:72-74 | on success the record keeps its parties, amount and `Active`; only `UpdateDate` changes |
| DeleteTransaction.ReverseCanRepeat | ApplicationLayer/CQRS/Commands/Transactions/DeleteTransactionCommand.cs:35-74 | after a successful reverse the record lookup of the same id finds the record again, with its parties, amount and `Active` unchanged |
| DeleteTransaction.ReverseKeepsTheSenderActive | ApplicationLayer/CQRS/Commands/Transactions/DeleteTransactionCommand.cs:45-46 | after a successful reverse the record's sender is still found as an active customer, so a second reverse passes that check too |
| DeleteTransaction.Handle | ApplicationLayer/CQRS/Commands/Transactions/DeleteTransactionCommand.cs:24-91 | the handler's answer and new state are those of `HandleStep` |
| DeleteTransaction.Return | ApplicationLayer/CQRS/Commands/Transactions/DeleteTransactionCommand.cs:51-55 | the new state and answer are those of `ReturnStep` |
| DeleteTransaction.LookUpRecipient | ApplicationLayer/CQRS/Commands/Transactions/DeleteTransactionCommand.cs:60-62 | the new state and answer are those of `LookUpRecipientStep` |
| DeleteTransaction.CreditRecipient | ApplicationLayer/CQRS/Commands/Transactions/DeleteTransactionCommand.cs:66-70 | the new state and answer are those of `CreditRecipientStep` |
| DeleteTransaction.Touch | ApplicationLayer/CQRS/Commands/Transactions/DeleteTransactionCommand.cs:72-84 | the new state and answer are those of `TouchStep` |
| DeleteCustomer.HandleStep | ApplicationLayer/CQRS/Commands/Customers/DeleteCustomerCommand.cs:21-55 | the empty id is 400; the lookup ignores `Active`, and an unknown id is 404; an inactive customer is 400; a failed update is answered with its message and 400, a failed save with the save's message and status; success answers the id |
| DeleteCustomer.DeleteRetiresOnlyTheRow | ApplicationLayer/CQRS/Commands/Customers/DeleteCustomerCommand.cs:39-40 | on success only that customer's `Active` (now false) and `UpdateDate` change, its balance included |
| DeleteCustomer.DeleteTwiceFails | ApplicationLayer/CQRS/Commands/Customers/DeleteCustomerCommand.cs:36-37 | a second delete is 400 "already deleted" and changes nothing |
| DeleteCustomer.DeletedIsNotFound | InfrastructureLayer/Repositories/GenericRepository.cs:131 | a deleted customer is no longer found by `GetByIdAsync` |
| DeleteCustomer.Handle | ApplicationLayer/CQRS/Commands/Customers/DeleteCustomerCommand.cs:21-56 | the handler's answer and new state are those of `HandleStep` |
| Lifecycle.DeletedCustomerCannotSend | ApplicationLayer/CQRS/Commands/Transactions/AddTransactionCommand.cs:44-46 | a transfer from a deleted customer is 404 "sender not found" |
| Lifecycle.DeletedCustomerCannotReceive | ApplicationLayer/CQRS/Commands/Transactions/AddTransactionCommand.cs:53-55 | a transfer to a deleted customer does not succeed |
| DeleteAccount.HandleStep | ApplicationLayer/CQRS/Commands/Accounts/DeleteAccountCommand.cs:22-55 | the empty id is 400; the lookup ignores `Active`, and an unknown id is 404; an inactive account is 400; a failed update is answered with its message and 400, a failed save with the save's message and status; success answers the id |
| DeleteAccount.DeleteRetiresOnlyTheRow | ApplicationLayer/CQRS/Commands/Accounts/DeleteAccountCommand.cs:39-40 | on success only that account's `Active` (now false) and `UpdateDate` change |
| DeleteAccount.DeleteTwiceFails | ApplicationLayer/CQRS/Commands/Accounts/DeleteAccountCommand.cs:36-37 | a second delete is 400 and changes nothing |
| DeleteAccount.DeletedIsNotFound | InfrastructureLayer/Repositories/GenericRepository.cs:131 | a deleted account is no longer found by `GetByIdAsync` |
| DeleteAccount.Handle | ApplicationLayer/CQRS/Commands/Accounts/DeleteAccountCommand.cs:22-56 | the handler's answer and new state are those of `HandleStep` |
| UpdateCustomer.Overwrite | ApplicationLayer/CQRS/Commands/Customers/UpdateCustomerCommand.cs:36-37 | a field takes the request's value when it is neither null nor empty, and keeps its own otherwise |
| UpdateCustomer.Revised | ApplicationLayer/CQRS/Commands/Customers/UpdateCustomerCommand.cs:33-46 | the balance is overwritten with no sign or range check, and the update date is set; name, surname, email and `UpdateBy` are overwritten only when given; id, `Active`, `AccountId` and the creation fields are kept |
| UpdateCustomer.HandleStep | ApplicationLayer/CQRS/Commands/Customers/UpdateCustomerCommand.cs:22-61 | the lookup ignores `Active`, and an unknown id is 400; a failed update is answered with its message and 400, a failed save with the save's message and status; success answers the id, with the revised row saved |
| UpdateCustomer.UpdateRevisesOnlyTheRow | ApplicationLayer/CQRS/Commands/Customers/UpdateCustomerCommand.cs:33-54 | on success only the row with the id changes, active or not, and it becomes the revised row |
| UpdateCustomer.DefaultsBlankThreeFields | ApplicationLayer/CQRS/Commands/Customers/UpdateCustomerCommand.cs:8 | a request with only the id and balance keeps the name but sets surname, email and `UpdateBy` to a space |
| UpdateCustomer.Handle | ApplicationLayer/CQRS/Commands/Customers/UpdateCustomerCommand.cs:22-62 | the handler's answer and new state are those of `HandleStep` |
| AddCustomer.HasEmail | ApplicationLayer/CQRS/Commands/Customers/AddCustomerCommand.cs:26 | the filter holds exactly for the rows with the given email |
| AddCustomer.NewCustomer | ApplicationLayer/CQRS/Commands/Customers/AddCustomerCommand.cs:31-42 | the new row has a fresh id, is active, created now and never updated, has no `CreatedBy`, carries the request's name, surname, email and balance, and a fresh account id exactly when the request's is `Guid.Empty` |
| AddCustomer.AccountLink | ApplicationLayer/CQRS/Commands/Customers/AddCustomerCommand.cs:41 | `Guid.Empty` gets a fresh account id; any other value, null included, is kept |
| AddCustomer.HandleStep | ApplicationLayer/CQRS/Commands/Customers/AddCustomerCommand.cs:22-60 | an email any row has, active or not, is 400; a failed add or save is 500; success appends the new row and answers its id; failures change no saved data |
| AddCustomer.AddAppendsTheNewRow | ApplicationLayer/CQRS/Commands/Customers/AddCustomerCommand.cs:31-42 | the appended row has the answered id and is active, with the request's name, surname, email and unchecked balance, and the account link |
| AddCustomer.AddKeepsEmailsUnique | ApplicationLayer/CQRS/Commands/Customers/AddCustomerCommand.cs:26-29 | an add keeps the emails of the table unique |
| AddCustomer.AddSameEmailTwiceFails | ApplicationLayer/CQRS/Commands/Customers/AddCustomerCommand.cs:26-29 | a second add with the same email is refused with 400 and changes nothing |
| AddCustomer.Handle | ApplicationLayer/CQRS/Commands/Customers/AddCustomerCommand.cs:22-60 | the handler's answer and new state are those of `HandleStep` |
| Passwords.StopFrom | InfrastructureLayer/Repositories/PasswordHandler.cs:50-54 | the loop stops at the first index where the stored hash has no byte or a different one, or runs out |
| Passwords.StopIndex | InfrastructureLayer/Repositories/PasswordHandler.cs:50-54 | the bytes before the stop index agree |
| Passwords.Compare | InfrastructureLayer/Repositories/PasswordHandler.cs:48-56 | it throws only `IndexOutOfRangeException`, and only when the stored hash is shorter; otherwise it answers true exactly when every byte of the computed hash has an equal byte at the same index of the stored one |
| Passwords.CompareOnLongEnough | InfrastructureLayer/Repositories/PasswordHandler.cs:50-55 | with `b` at least as long as `a`: true exactly when `a[i] == b[i]` for every `i < a.Length`; bytes of `b` past that are ignored, and an empty `a` is equal |
| Passwords.CompareThrowsOnShortPrefix | InfrastructureLayer/Repositories/PasswordHandler.cs:50-52 | the comparison throws `IndexOutOfRangeException` exactly when `b` is shorter than `a` and a prefix of it |
| Passwords.CompareOnEqualLengths | InfrastructureLayer/Repositories/PasswordHandler.cs:48-56 | on equal lengths the comparison is plain equality |
| Passwords.AreEqualArrays | InfrastructureLayer/Repositories/PasswordHandler.cs:48-56 | the loop's outcome is the comparison's, its byte comparisons are counted, and neither array is written |
| Passwords.EarlyExitLeaksTheMatchingPrefix | InfrastructureLayer/Repositories/PasswordHandler.cs:43-53 | two wrong hashes of full length take different numbers of comparisons, so the loop is not time-constant |
| Passwords.FixedTimeEquals | InfrastructureLayer/Repositories/PasswordHandler.cs:43 | a comparison that answers equality and whose work depends only on the lengths |
| Passwords.CreateSaltAndHash | InfrastructureLayer/Repositories/PasswordHandler.cs:20-25 | the hash is the HMAC of the password's bytes under a new key, and the salt is that key |
| Passwords.VerifyPasswordHash | InfrastructureLayer/Repositories/PasswordHandler.cs:34-40 | the answer is the comparison of the HMAC under the stored salt with the stored hash |
| Passwords.CreatedHashVerifies | InfrastructureLayer/Repositories/PasswordHandler.cs:20-40 | a password checks against the hash and salt made from it |

## Left out

- Calls into foreign code become parameters:
  - the clock, `Guid.NewGuid()` and EF Core's write and query failures are fields of `Commands.Io`;
  - what `SaveChangesAsync` writes is a `Persistence.SaveOutcome`;
  - HMAC-SHA512 and UTF-8 encoding are function parameters of the `Passwords` methods, and the random key of a new HMAC is a parameter.
- Foreign calls inside `GetByIdAsync` and `GetByExpressionAsync`:
  - the exception the query behind `GetByIdAsync` could throw is not modelled: the repository catches it into `Fail(ex.Message)` with the default status 400 (GenericRepository.cs:138-141, Result.cs:87), and every handler answers any failed lookup with its own 404 message, exactly as for a missing row, so the model's not-found path covers it;
  - the exception of `GetByExpressionAsync` is modelled as `Io.lookupFault`.
- The "Database is null!" branches of the repository (a null `_dbSet`) are not modelled: the constructor always sets it.
- The `addedEntity == null` branch of `AddAsync` and the matching check in `UpdateAsync` are not modelled: EF Core never returns null there.
- `ListAsync`'s `OrderBy` and `Include` arguments are not modelled. Ordering and eager loading are EF Core query features, so the list keeps table order.
- Concurrency, isolation, `RowVersion` conflicts and cancellation tokens are not modelled. A concurrency conflict is one of the exceptions `SaveOutcome.SaveThrows` can carry.
- Decimal fractions are not modelled: balances and amounts are whole numbers, and only the range of `decimal` is modelled.
- `CreatedBy` on new rows is not modelled, because the add handlers never copy it from the request.
- `AddAccountCommand` and `UpdateAccountCommand` are not part of this model. They rest on password hashing, which is foreign.
- The query handlers, DTOs, converters, controllers, dependency injection and EF Core mapping are not part of this model.
- Passwords.AreEqualArrays: its timing is stated only as a ghost count of byte comparisons, not as running time.
- Commands.CompleteStep, Commands.AbortStep: these model the corrected commit and rollback, under which a failed commit is answered with 500. As written the catch block's second rollback throws a NullReferenceException instead; that behaviour is modelled separately by `Commands.CompleteAsWrittenStep`, and `Commands.FailedCommitMakesTheHandlerThrow` relates the two.
- A lookup through a disposed context would throw `ObjectDisposedException`; the model's lookups read the staged rows whether or not the context is disposed. No handler disposes its unit of work before it finishes.
- The wording of `TransactionUnusable`, the exception SqlClient raises for a transaction whose connection is gone, belongs to foreign code.
- Email comparison follows SQL Server's default collation, chosen by `UseSqlServer` (InfrastructureDependencyInjections.cs:33), which ignores case and trailing spaces. The model compares emails as exact strings, so it lets through an email that differs from a stored one only in case or trailing spaces, which the source refuses with 400.
- Repository.AddEntity: it refuses a key that any staged row has, while EF Core refuses only a key it already tracks; the two differ only for a `Guid.NewGuid()` collision with an untracked row, which the database would then reject at save time.
- A database failure inside `BeginTransactionAsync` (UnitOfWork.cs:78), such as a lost connection, is not modelled: `BeginStep` fails only for a missing or disposed context. In the source the call precedes the transfer handlers' `try`, so such an exception escapes the handler, as the model's missing-context exception does.
- Foreign keys are not modelled, because what `SaveChangesAsync` does is a free `SaveOutcome`. `AddCustomerCommand` (line 41) stores a fresh `Guid.NewGuid()` as `AccountId`, which no account row has. The customer-to-account foreign key (ApplicationDbContext.cs:40-44) would make that save fail in the database, but the model lets a successful `SaveOutcome` stand.
- The store is a `seq` of rows per table rather than a map from id to row, so that table order (which `FirstOrDefault` and `Take` depend on) is kept. `UniqueIds` plays the part of the key.

## Findings

| source | as written | input that shows it | evidently intended | confidence | as-written member | corrected member |
|---|---|---|---|---|---|---|
| InfrastructureLayer/Repositories/UnitOfWork.cs:95 | `await _currentTransaction?.CommitAsync()` and `await _currentTransaction?.RollbackAsync()` (line 125) await a null task when no transaction is open, which throws a NullReferenceException | a commit that fails: `CommitTransactionAsync` rolls back and clears the handle, then the handler's catch block calls `RollbackTransactionAsync` with nothing open, which throws, so the handler throws instead of answering 500 | with no transaction open, commit and rollback do nothing | not executed | Persistence.FailedCommitThenRollbackAsWrittenThrows | Persistence.FailedCommitThenRollbackIsQuiet |
| InfrastructureLayer/Repositories/PasswordHandler.cs:43 | the doc comment promises a time-constant comparison, but the loop returns at the first differing byte (lines 52-53) | computed hash `[7, 7]` against stored `[0, 7]` takes one comparison, against `[7, 0]` two, so the time reveals how long a prefix a guess matches | every byte compared whatever the contents, as `CryptographicOperations.FixedTimeEquals` does | not executed | Passwords.EarlyExitLeaksTheMatchingPrefix | Passwords.FixedTimeEquals |
