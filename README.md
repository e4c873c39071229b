# Statement ledger model

A Dafny model of the statement ledger of a small banking API. Every deposit,
withdraw or transfer is stored as one immutable `Statement`. A user's balance
is never stored: it is recomputed from the list. Owned records count `+amount`
for `deposit` and `transfer` and `-amount` for anything else. Then the amounts
of every record the user *sent* (`sender_id = user`) are subtracted. A
transfer is a single record: its `user_id` is the receiver and its
`sender_id` is the sender.

Modules:

- `Ledger` (ledger.dfy) holds the entities (`Statement`, `CreateStatementDTO`,
  the `User` class and the `deposit | withdraw | transfer` enum). It also holds
  the two balance queries `Owned` (`where user_id`) and `Sent`
  (`where sender_id`), and `FirstIndex`, the scan that `find` performs.
  `BalanceOf` is a reference balance: the sum, over the whole ledger, of each
  record's `Effect` on one user.
- `StatementsRepository` (statements_repository.dfy) is the database-backed
  repository with the TypeORM queries taken as input sequences. It holds the
  two `reduce` folds, the result shape of `getUserBalance` and the lookup by
  primary key and owner.
- `InMemory` (in_memory_statements_repository.dfy) is the in-memory repository.
  It is a class whose `statements` field is a `seq` that `Create` appends to.
  The lookup and the balance are functions that only read that field.
- `BalanceMap` (balance_map.dfy) is the mapper that projects the owned and
  sent lists into response entries. It deletes `password` from the embedded
  users in place, so `User` is a class with a mutable `password`.
- `CreateStatementController` (create_statement_controller.dfy) covers URL
  splitting, the `indexOf("statements") + 1` type lookup and the assignment of
  sender and receiver roles.

Amounts are unbounded integers (fixed-point cents). The source's
`Number(...)` coercions are the identity here. The source's `type` field is
called `kind`, because `type` is a reserved word in Dafny.

Both repositories subtract every owned record that is neither a deposit nor a
transfer. With the three-valued `type` column, that means exactly the
withdraws. Neither repository checks funds, account existence or
self-transfers; those checks live in the use cases, which are outside this model's scope.

## Model

| member | source | states |
|---|---|---|
| `Ledger.NewStatement` | src/modules/statements/repositories/implementations/StatementsRepository.ts:16-31 | The created record carries exactly the request's `user_id`, `amount`, `description`, `type` and `sender_id` (its create-fields projection equals the request). It also carries the given id and timestamps and no loaded relations |
| `Ledger.Owned` | src/modules/statements/repositories/implementations/StatementsRepository.ts:50-53 | The owned-side query returns every record whose `user_id` is the user and no other record |
| `Ledger.Sent` | src/modules/statements/repositories/implementations/StatementsRepository.ts:55-58 | The sender-side query returns every record whose `sender_id` is the user and no other record |
| `Ledger.FirstIndex` | src/modules/statements/repositories/in-memory/InMemoryStatementsRepository.ts:24-27 | The scan returns none exactly when no record matches. Otherwise it returns a matching position that no earlier record matches |
| `Ledger.OwnedConcat` | src/modules/statements/repositories/in-memory/InMemoryStatementsRepository.ts:37-39 | The owned list of `a + b` is the owned list of `a` followed by that of `b`, so insertion order is kept |
| `Ledger.SentConcat` | src/modules/statements/repositories/in-memory/InMemoryStatementsRepository.ts:41-43 | The sent list keeps insertion order in the same way |
| `Ledger.BalanceDecomposes` | src/modules/statements/repositories/in-memory/InMemoryStatementsRepository.ts:45-60 | The owned-side signed sum minus the sender-side sum equals the sum of every record's effect on the user |
| `Ledger.BalanceAppend` | src/modules/statements/repositories/in-memory/InMemoryStatementsRepository.ts:45-54 | Appending one record changes each user's balance by exactly that record's effect on them |
| `Ledger.TransferMovesAmount` | src/modules/statements/repositories/in-memory/InMemoryStatementsRepository.ts:45-54 | Appending a transfer of `a` from `s` to a different receiver `r` raises r's balance by `a` and lowers s's balance by `a`. Every other user's balance is unchanged |
| `Ledger.OwnerOnlyEffect` | src/modules/statements/repositories/in-memory/InMemoryStatementsRepository.ts:45-51 | A record without a sender raises its owner's balance by its amount (deposit) or lowers it (withdraw). Every other user's balance is unchanged |
| `StatementsRepository.ReduceOwned` | src/modules/statements/repositories/implementations/StatementsRepository.ts:60-66 | The owned-side left fold equals its start value plus the signed sum of the list |
| `StatementsRepository.ReduceSends` | src/modules/statements/repositories/implementations/StatementsRepository.ts:67-69 | The sender-side left fold equals its start value plus the sum of the amounts |
| `StatementsRepository.GetUserBalance` | src/modules/statements/repositories/implementations/StatementsRepository.ts:71-79 | `balance` is the owned signed sum minus the sent sum whatever `with_statement` is. The lists are returned unchanged exactly when `with_statement` is set |
| `StatementsRepository.QueriedBalanceIsLedgerBalance` | src/modules/statements/repositories/implementations/StatementsRepository.ts:50-79 | Applied to the two query results of a table, the reduction gives the table's reference balance for that user |
| `StatementsRepository.FindStatementOperation` | src/modules/statements/repositories/implementations/StatementsRepository.ts:34-41 | On a table with unique ids, the lookup succeeds exactly when some row has both the statement id and the owner `user_id`. A result always has both |
| `InMemory.InMemoryStatementsRepository.constructor` | src/modules/statements/repositories/in-memory/InMemoryStatementsRepository.ts:8 | The repository starts empty |
| `InMemory.InMemoryStatementsRepository.Create` | src/modules/statements/repositories/in-memory/InMemoryStatementsRepository.ts:10-17 | Exactly one record is appended at the end and earlier records are unchanged and in order. The returned (and stored) record is exactly the one built from the request: its five fields, the fresh id, the given timestamps and no relations. Ids stay unique |
| `InMemory.InMemoryStatementsRepository.FindStatementOperation` | src/modules/statements/repositories/in-memory/InMemoryStatementsRepository.ts:20-28 | Returns the first stored record matching both `id` and `user_id`. Returns none exactly when no record matches both, so a record the user only sent is never returned |
| `InMemory.InMemoryStatementsRepository.GetUserBalance` | src/modules/statements/repositories/in-memory/InMemoryStatementsRepository.ts:30-65 | `balance` is the reference balance of the stored list whatever `with_statement` is. With `with_statement`, also the owned list and the sent list in insertion order. A function that only reads the store |
| `InMemory.LookupsAgree` | src/modules/statements/repositories/implementations/StatementsRepository.ts:34-41 | The database's lookup by primary key and owner returns what the in-memory scan returns |
| `InMemory.OnlyOwnerFinds` | src/modules/statements/repositories/in-memory/InMemoryStatementsRepository.ts:24-27 | Looking up a stored record's id finds that record for its owner and nothing for any other user |
| `InMemory.DepositThenWithdraw` | src/modules/statements/useCases/createStatement/CreateStatementUseCase.spec.ts:51-81 | Depositing 100 reads balance 100. Then withdrawing 20 reads 80 |
| `InMemory.DepositThenTransfer` | src/modules/statements/repositories/in-memory/InMemoryStatementsRepository.ts:37-64 | A deposits 100 and transfers 10 to B. A then reads 90 and B reads 10 |
| `BalanceMap.ToDTO` | src/modules/statements/mappers/BalanceMap.ts:4-70 | Both lists keep their length and order. Each received entry keeps `id`, `amount`, `description`, `type`, `sender_id`, `sender` and the timestamps. Each sent entry keeps the same fields with `user_id`/`user` in place of the sender's. Every present sender or receiver user has its `password` removed, and nothing else is changed. Absent users stay absent. `balance` is unchanged |
| `CreateStatementController.Split` | src/modules/statements/useCases/createStatement/CreateStatementController.ts:15 | Splitting yields at least one part and no part contains the separator |
| `CreateStatementController.JoinSplit` | src/modules/statements/useCases/createStatement/CreateStatementController.ts:15 | Joining the parts of a split restores the URL |
| `CreateStatementController.SplitJoin` | src/modules/statements/useCases/createStatement/CreateStatementController.ts:15 | Splitting separator-free parts joined by the separator restores the parts |
| `CreateStatementController.IndexOf` | src/modules/statements/useCases/createStatement/CreateStatementController.ts:16 | Returns -1 exactly when the segment is absent. Otherwise returns the first position holding it |
| `CreateStatementController.TypeSegment` | src/modules/statements/useCases/createStatement/CreateStatementController.ts:15-17 | With the URL split on `/`: when no segment is `statements`, the type is segment 0. The type is undefined exactly when the first `statements` segment is the last segment. Otherwise it is the segment right after the first `statements` segment. A type never contains `/` |
| `CreateStatementController.TypeFollowsStatements` | src/modules/statements/useCases/createStatement/CreateStatementController.ts:15-17 | For a URL whose segments are a prefix without `statements`, then `statements`, then `t`, the type is `t` |
| `CreateStatementController.NoSegmentAfterStatements` | src/modules/statements/useCases/createStatement/CreateStatementController.ts:15-17 | A URL that ends at its first `statements` segment gives an undefined type |
| `CreateStatementController.NoStatementsSegment` | src/modules/statements/useCases/createStatement/CreateStatementController.ts:16-17 | Without a `statements` segment, `indexOf` gives -1 and the type is segment 0: the URL's text before its first `/` |
| `CreateStatementController.Execute` | src/modules/statements/useCases/createStatement/CreateStatementController.ts:8-30 | For type `transfer`, the sender is the authenticated user and `user_id` is the route parameter. Otherwise `user_id` is the authenticated user and there is no sender. `amount` and `description` pass through unchanged |
| `CreateStatementController.DepositRoute` | src/modules/statements/useCases/createStatement/CreateStatementController.spec.ts:63-74 | `/api/v1/statements/deposit` yields a deposit owned by the authenticated user with no sender |
| `CreateStatementController.TransferRoute` | src/modules/statements/useCases/createStatement/CreateStatementController.ts:12-21 | `/api/v1/statements/transfer/<receiver>` yields a transfer from the authenticated user to `receiver` |

## Left out

- CreateStatementUseCase, GetBalanceUseCase and GetStatementOperationUseCase: they hold the business checks and are outside this model's scope. So the `InsufficientFunds`, `UserNotFound`, `CannotTransferToYourself` and `StatementNotFound` outcomes are not modelled, and the scenarios above call the repository directly.
- The repositories do not enforce the ledger's record invariants: a positive amount, `sender_id` present only on transfers, and no self-transfer. The model does not assume them. A self-transfer stored anyway nets to zero for its user.
- The TypeORM calls (`find`, `findOne`, `create`, `save`) and relation loading are not modelled. Query results are input sequences, and a table is a `seq` whose rows have unique ids.
- UUID generation and timestamp assignment happen in the entity. They are parameters of `Create`/`NewStatement`, and the id must be fresh.
- `Number(...)` coercions and floating-point arithmetic on decimal amounts are not modelled: amounts are integers.
- Express `Request`/`Response`, the `tsyringe` container, HTTP status codes and authentication are not modelled. The authenticated id, route parameter, body fields and original URL are parameters of `Execute`.
- CreateStatementController.Execute: the `as OperationType` cast (CreateStatementController.ts:17) checks nothing. The raw segment, including any query string in the original URL, is passed on unchecked; only the database's enum column (deposit, withdraw, transfer) rejects other strings, and that column is not modelled.
- `async`/`await` and concurrent requests are not modelled. Every operation is one sequential step.
- InMemory.InMemoryStatementsRepository.GetUserBalance and FindStatementOperation are functions. Leaving the store unchanged, and returning the same result on repeated calls with no write in between, holds by construction and is not stated as a separate lemma.
